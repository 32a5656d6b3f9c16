/**
 Folding a long history into one summary, batch by batch. The summarizer model is an arbitrary source of
 replies: `replies(k)` is what its k-th call answers, after trimming.
 */
module Summarizer {
  import opened Wrappers
  import opened Utf8
  import opened TokenBudget
  import opened ContextSections

  datatype Reply = Failed | Text(text: Bytes)

  datatype Failure = NothingToSummarize | SummarizerFailed | EmptyContext

  /** One call of the summarizer: the summary so far and the transcript to fold in. */
  datatype Prompt = Prompt(summary: Bytes, transcript: Bytes)

  datatype Limits = Limits(window: nat, outputReserve: nat, summaryTokens: nat, instructionTokens: nat)

  /** The lengths of the two headings and of the blank line that the prompt text puts around its parts. */
  const EXISTING_HEADING := 28
  const ADDITIONAL_HEADING := 35
  const SEPARATOR: Bytes := [0x0A, 0x0A]
  const SLACK := 1024
  /** What the slack leaves unused of a prompt that is as long as it can be. */
  const SPARE := SLACK - 2 * |SEPARATOR| - EXISTING_HEADING - ADDITIONAL_HEADING
  /** What the fixed instruction estimates to: its encoding has 637 bytes. */
  const INSTRUCTION_TOKENS := 255
  /** The tokens of the longest prompt under the least budget. */
  const LEAST_SHARE := 642
  const MIN_BUDGET := 1024

  function PromptLength(p: Prompt): nat {
    (if p.summary != [] then EXISTING_HEADING + |p.summary| + |SEPARATOR| else 0) + ADDITIONAL_HEADING + |p.transcript|
  }

  /** What the summarizer's own call may use: the target share of the window, or less if the output needs it. */
  function CallBudget(limits: Limits): nat {
    Min(Percentage(limits.window, TARGET_PERCENT), Max(limits.window - limits.outputReserve, 0))
  }

  /** The limits of a compactor, whose summary allowance follows from its window. */
  function LimitsOf(window: nat, outputReserve: nat): Limits {
    Limits(window, outputReserve, SummaryTokenLimit(window), INSTRUCTION_TOKENS)
  }

  function InputTokens(limits: Limits): nat {
    Max(CallBudget(limits) - (limits.summaryTokens + limits.instructionTokens), MIN_BUDGET)
  }

  function InputChars(limits: Limits): nat {
    TokensToChars(InputTokens(limits))
  }

  function SectionChars(limits: Limits): nat {
    Max(InputChars(limits) - TokensToChars(limits.summaryTokens) - SLACK, MIN_BUDGET)
  }

  /** The budget holds a full summary beside a section of the least size. */
  predicate Roomy(limits: Limits) {
    InputChars(limits) >= TokensToChars(limits.summaryTokens) + SLACK + MIN_BUDGET
  }

  /** The summarizer keeps to the output allowance it was given. */
  ghost predicate Concise(replies: nat -> Reply, limits: Limits) {
    forall k: nat :: replies(k).Text? ==> |replies(k).text| <= TokensToChars(limits.summaryTokens)
  }

  /** The summary after n calls: the last visible text among their replies. */
  function Folded(replies: nat -> Reply, n: nat): Bytes {
    if n == 0 then []
    else if replies(n - 1).Text? && replies(n - 1).text != [] then replies(n - 1).text
    else Folded(replies, n - 1)
  }

  /** The text of a batch; the separator comes only after something. */
  function Joined(fragments: seq<Bytes>): Bytes {
    if fragments == [] then []
    else
      var batch := Joined(fragments[..|fragments| - 1]);
      (if batch != [] then batch + SEPARATOR else batch) + fragments[|fragments| - 1]
  }

  function Concat<T>(groups: seq<seq<T>>): seq<T> {
    if groups == [] then [] else Concat(groups[..|groups| - 1]) + groups[|groups| - 1]
  }

  function AllFragments(sections: seq<Bytes>, maxChars: int): seq<Bytes> {
    if sections == [] then []
    else AllFragments(sections[..|sections| - 1], maxChars) + Fragments(sections[|sections| - 1], maxChars)
  }

  /** The local state of summarize. */
  datatype Draft = Draft(summary: Bytes, batch: Bytes, prompts: seq<Prompt>)

  const START := Draft([], [], [])

  /** Which fragments, possibly truncated, went into each batch sent, and which are in the open one. */
  datatype History = History(groups: seq<seq<Bytes>>, open: seq<Bytes>)

  function Fed(h: History): seq<Bytes> {
    Concat(h.groups) + h.open
  }

  predicate Sent(prompt: Prompt, summary: Bytes, group: seq<Bytes>, budget: nat) {
    && prompt == Prompt(summary, Joined(group))
    && prompt.transcript != []
    && PromptLength(prompt) + SPARE <= budget
  }

  /** Every prompt so far carries the summary of the calls before it and one group, and fits the budget with room
   to spare. */
  predicate AllSent(prompts: seq<Prompt>, groups: seq<seq<Bytes>>, budget: nat, replies: nat -> Reply) {
    && |prompts| == |groups|
    && forall k :: 0 <= k < |prompts| ==> Sent(prompts[k], Folded(replies, k), groups[k], budget)
  }

  predicate Follows(d: Draft, h: History, budget: nat, replies: nat -> Reply) {
    && AllSent(d.prompts, h.groups, budget, replies)
    && d.batch == Joined(h.open)
    && (d.batch != [] ==> |d.summary| + |d.batch| + SLACK <= budget + |SEPARATOR|)
  }

  predicate Going(d: Draft, replies: nat -> Reply) {
    && d.summary == Folded(replies, |d.prompts|)
    && forall k :: 0 <= k < |d.prompts| ==> replies(k).Text?
  }

  /** The last call made is the first that failed. */
  predicate Stopped(d: Draft, replies: nat -> Reply) {
    && |d.prompts| > 0
    && replies(|d.prompts| - 1).Failed?
    && forall k :: 0 <= k < |d.prompts| - 1 ==> replies(k).Text?
  }

  /** Whatever has been folded in, a fragment of full size still fits beside the summary. */
  ghost predicate Ample(budget: nat, maxChars: nat, replies: nat -> Reply) {
    forall n: nat :: |Folded(replies, n)| + maxChars + SLACK <= budget
  }

  lemma {:induction false} FoldedIsConcise(replies: nat -> Reply, limits: Limits, n: nat)
    requires Concise(replies, limits)
    ensures |Folded(replies, n)| <= TokensToChars(limits.summaryTokens)
  {
    if n > 0 {
      FoldedIsConcise(replies, limits, n - 1);
    }
  }

  /** The tokens of a prompt are what the call's share leaves beside instruction and summary, but never under 1024. */
  lemma BudgetIsWhatIsLeft(limits: Limits)
    ensures var spent := limits.summaryTokens + limits.instructionTokens;
      && InputTokens(limits) >= 1024
      && (CallBudget(limits) >= spent + 1024 ==> InputTokens(limits) + spent == CallBudget(limits))
      && (CallBudget(limits) < spent + 1024 ==> InputTokens(limits) == 1024)
    ensures var room := Max(limits.window - limits.outputReserve, 0);
      && 100 * CallBudget(limits) <= 30 * limits.window && CallBudget(limits) <= room
      && (CallBudget(limits) < room ==> 30 * limits.window < 100 * (CallBudget(limits) + 1))
    ensures 2 * InputChars(limits) <= 5 * InputTokens(limits) <= 2 * InputChars(limits) + 1
    ensures SectionChars(limits) >= 1024
    ensures var left := InputChars(limits) - TokensToChars(limits.summaryTokens) - 1024;
      SectionChars(limits) == if left >= 1024 then left else 1024
  {
    PercentageIsFloor(limits.window, TARGET_PERCENT);
  }

  lemma RoomyIsAmple(limits: Limits, replies: nat -> Reply)
    requires Roomy(limits) && Concise(replies, limits)
    ensures Ample(InputChars(limits), SectionChars(limits), replies)
  {
    forall n: nat
      ensures |Folded(replies, n)| + SectionChars(limits) + SLACK <= InputChars(limits)
    {
      FoldedIsConcise(replies, limits, n);
    }
  }

  predicate Visible(reply: Reply) {
    reply.Text? && reply.text != []
  }

  predicate LastVisible(replies: nat -> Reply, n: nat, k: int) {
    0 <= k < n && Visible(replies(k)) && forall j :: k < j < n ==> !Visible(replies(j))
  }

  /** The summary is the last visible reply, and empty only when there is none. */
  lemma {:induction false} SummaryIsLastVisible(replies: nat -> Reply, n: nat)
    ensures Folded(replies, n) == [] <==> forall k :: 0 <= k < n ==> !Visible(replies(k))
    ensures Folded(replies, n) != [] ==> exists k :: LastVisible(replies, n, k) && Folded(replies, n) == replies(k).text
  {
    if n > 0 {
      SummaryIsLastVisible(replies, n - 1);
      if Visible(replies(n - 1)) {
        assert LastVisible(replies, n, n - 1);
      } else if Folded(replies, n) != [] {
        var k :| LastVisible(replies, n - 1, k) && Folded(replies, n) == replies(k).text;
        assert LastVisible(replies, n, k);
      }
    }
  }

  /** A visible summary is never replaced by an empty one. */
  lemma {:induction false} SummaryNeverVanishes(replies: nat -> Reply, n: nat, m: nat)
    requires n <= m && Folded(replies, n) != []
    ensures Folded(replies, m) != []
  {
    if n < m {
      SummaryNeverVanishes(replies, n, m - 1);
    }
  }

  lemma JoinedSnoc(fragments: seq<Bytes>, f: Bytes)
    ensures Joined(fragments + [f]) ==
      (if Joined(fragments) != [] then Joined(fragments) + SEPARATOR else Joined(fragments)) + f
  {
  }

  /** The open batch becomes the last one sent. */
  function Closed(h: History): History {
    History(h.groups + [h.open], [])
  }

  lemma FedByClosed(h: History)
    ensures Fed(Closed(h)) == Fed(h)
  {
  }

  lemma AllSentNext(d: Draft, h: History, budget: nat, replies: nat -> Reply)
    requires Follows(d, h, budget, replies) && Going(d, replies) && d.batch != []
    ensures AllSent(d.prompts + [Prompt(d.summary, d.batch)], Closed(h).groups, budget, replies)
  {
  }

  datatype Outcome = Added | Dropped | Broken

  /** How far the fold has come: what became of the last fragment, and the local state. */
  datatype Progress = Progress(outcome: Outcome, draft: Draft)

  function Available(d: Draft, budget: int): int {
    budget - |d.summary| - |d.batch| - SLACK
  }

  /** The batch is sent, if there is one, and its reply becomes the summary unless it is empty. */
  function Flushed(d: Draft, replies: nat -> Reply): Progress {
    if d.batch == [] then Progress(Added, d)
    else
      var reply := replies(|d.prompts|);
      var prompts := d.prompts + [Prompt(d.summary, d.batch)];
      if reply.Failed? then Progress(Broken, Draft(d.summary, [], prompts))
      else Progress(Added, Draft(if reply.text == [] then d.summary else reply.text, [], prompts))
  }

  function Appended(d: Draft, fragment: Bytes, budget: int): Progress {
    if Available(d, budget) <= 0 then Progress(Dropped, d)
    else
      var separator := if d.batch == [] then [] else SEPARATOR;
      Progress(Added, d.(batch := d.batch + separator + Truncated(fragment, Available(d, budget))))
  }

  function AddOne(d: Draft, fragment: Bytes, budget: int, replies: nat -> Reply): Progress {
    if d.batch != [] && |fragment| > Available(d, budget) then
      var flushed := Flushed(d, replies);
      if flushed.outcome == Broken then flushed else Appended(flushed.draft, fragment, budget)
    else
      Appended(d, fragment, budget)
  }

  /** The fragments in order, until one is dropped or the summarizer fails. */
  function AddAll(d: Draft, fragments: seq<Bytes>, budget: int, replies: nat -> Reply): Progress
    decreases |fragments|
  {
    if fragments == [] then Progress(Added, d)
    else
      var one := AddOne(d, fragments[0], budget, replies);
      if one.outcome != Added then one else AddAll(one.draft, fragments[1..], budget, replies)
  }

  /** The prompts of a whole run. */
  function PromptsOf(sections: seq<Bytes>, limits: Limits, replies: nat -> Reply): seq<Prompt> {
    var fragments := AllFragments(sections, SectionChars(limits));
    var progress := AddAll(START, fragments, InputChars(limits), replies);
    if progress.outcome == Broken then progress.draft.prompts else Flushed(progress.draft, replies).draft.prompts
  }

  /**
   No call is made while the next fragment still fits, none at all for an empty batch; and a fragment that fits goes
   in whole, behind a blank line if it is not the first.
   */
  lemma CallsAreFrugal(d: Draft, fragment: Bytes, budget: int, replies: nat -> Reply)
    ensures var one := AddOne(d, fragment, budget, replies);
      var r := one.draft;
      && (r.prompts == d.prompts || r.prompts == d.prompts + [Prompt(d.summary, d.batch)])
      && (r.prompts != d.prompts ==> d.batch != [] && |d.summary| + |d.batch| + |fragment| + 1024 > budget)
      && (one.outcome == Dropped ==> |r.summary| + |r.batch| + 1024 >= budget)
      && (one.outcome == Added ==>
            var kept := if r.prompts == d.prompts then d.batch else [];
            var start := if kept == [] then [] else kept + [0x0A, 0x0A];
            && start <= r.batch && r.batch[|start|..] <= fragment
            && (|r.summary| + |kept| + |fragment| + 1024 <= budget ==> r.batch == start + fragment))
  {
  }

  lemma {:induction false} AddAllConcat(d: Draft, a: seq<Bytes>, b: seq<Bytes>, budget: int, replies: nat -> Reply)
    ensures var first := AddAll(d, a, budget, replies);
      AddAll(d, a + b, budget, replies) ==
        if first.outcome != Added then first else AddAll(first.draft, b, budget, replies)
    decreases |a|
  {
    if a == [] {
      assert a + b == b;
    } else {
      var one := AddOne(d, a[0], budget, replies);
      if one.outcome == Added {
        AddAllConcat(one.draft, a[1..], b, budget, replies);
        assert (a + b)[1..] == a[1..] + b;
      }
    }
  }

  method Flush(d: Draft, budget: nat, replies: nat -> Reply, ghost h: History)
    returns (ok: bool, r: Draft, ghost g: History)
    requires Follows(d, h, budget, replies) && Going(d, replies)
    ensures Follows(r, g, budget, replies) && Fed(g) == Fed(h) && r.batch == []
    ensures Flushed(d, replies) == Progress(if ok then Added else Broken, r)
    ensures d.batch == [] ==> ok && r == d
    ensures if ok then Going(r, replies) else Stopped(r, replies)
  {
    if |d.batch| == 0 {
      return true, d, h;
    }
    var reply := replies(|d.prompts|);
    var prompts := d.prompts + [Prompt(d.summary, d.batch)];
    g := Closed(h);
    FedByClosed(h);
    AllSentNext(d, h, budget, replies);
    if reply.Failed? {
      return false, Draft(d.summary, [], prompts), g;
    }
    return true, Draft(if reply.text == [] then d.summary else reply.text, [], prompts), g;
  }

  /** The summary alone uses up the budget. */
  predicate Full(d: Draft, budget: nat) {
    d.batch == [] && |d.summary| + SLACK >= budget
  }

  /** The body of the loop over fragments. */
  method Add(d: Draft, fragment: Bytes, budget: nat, replies: nat -> Reply, ghost h: History)
    returns (outcome: Outcome, r: Draft, ghost g: History, ghost piece: Bytes)
    requires Follows(d, h, budget, replies) && Going(d, replies) && fragment != []
    ensures Follows(r, g, budget, replies)
    ensures Progress(outcome, r) == AddOne(d, fragment, budget, replies)
    ensures Fed(g) == if outcome == Added then Fed(h) + [piece] else Fed(h)
    ensures outcome == Broken ==> Stopped(r, replies) && r.batch == []
    ensures outcome != Broken ==> Going(r, replies)
    ensures outcome == Added ==> piece <= fragment
    ensures outcome == Dropped ==> Full(r, budget)
    ensures Ample(budget, |fragment|, replies) && outcome != Broken ==> outcome == Added && piece == fragment
  {
    r, g, piece := d, h, [];
    var available := Available(r, budget);
    if |r.batch| > 0 && |fragment| > available {
      var ok;
      ok, r, g := Flush(r, budget, replies, g);
      if !ok {
        outcome := Broken;
        return;
      }
      available := Available(r, budget);
    }
    assert Ample(budget, |fragment|, replies) ==> |fragment| <= available by {
      assert r.summary == Folded(replies, |r.prompts|);
    }
    if available <= 0 {
      outcome := Dropped;
      return;
    }
    r, g, piece := Append(r, fragment, available, budget, replies, g);
    outcome := Added;
  }

  /** The end of that body: the fragment, truncated if it must be, goes into the batch. */
  method Append(d: Draft, fragment: Bytes, available: nat, budget: nat, replies: nat -> Reply, ghost h: History)
    returns (r: Draft, ghost g: History, ghost piece: Bytes)
    requires Follows(d, h, budget, replies) && Going(d, replies)
    requires available == Available(d, budget) && available > 0 && (d.batch != [] ==> |fragment| <= available)
    ensures Follows(r, g, budget, replies) && Going(r, replies)
    ensures Progress(Added, r) == Appended(d, fragment, budget)
    ensures Fed(g) == Fed(h) + [piece] && piece <= fragment
    ensures |fragment| <= available ==> piece == fragment
  {
    var taken := fragment;
    if |taken| > available {
      taken := TruncateContextFragment(fragment, available);
    }
    JoinedSnoc(h.open, taken);
    var batch := d.batch;
    if |batch| > 0 {
      batch := batch + SEPARATOR;
    }
    return d.(batch := batch + taken), h.(open := h.open + [taken]), taken;
  }

  /** Each piece fed is the fragment at its place, or the start of it. */
  predicate FedFrom(fed: seq<Bytes>, fragments: seq<Bytes>) {
    |fed| <= |fragments| && forall i :: 0 <= i < |fed| ==> fed[i] <= fragments[i]
  }

  lemma AmpleForLess(budget: nat, more: nat, less: nat, replies: nat -> Reply)
    requires less <= more
    ensures Ample(budget, more, replies) ==> Ample(budget, less, replies)
  {
  }

  lemma FedSnoc(before: seq<Bytes>, pieces: seq<Bytes>, piece: Bytes, fragments: seq<Bytes>)
    requires FedFrom(pieces, fragments) && |pieces| < |fragments| && piece <= fragments[|pieces|]
    ensures FedFrom(pieces + [piece], fragments)
    ensures (before + pieces) + [piece] == before + (pieces + [piece])
    ensures pieces == fragments[..|pieces|] && piece == fragments[|pieces|] ==>
      pieces + [piece] == fragments[..|pieces| + 1]
  {
  }

  /** The fragments of one section, added until one does not fit at all. */
  method AddSection(d: Draft, fragments: seq<Bytes>, maxChars: nat, budget: nat, replies: nat -> Reply,
    ghost h: History)
    returns (outcome: Outcome, r: Draft, ghost g: History, ghost pieces: seq<Bytes>)
    requires Follows(d, h, budget, replies) && Going(d, replies)
    requires Bounded(fragments, maxChars)
    ensures Follows(r, g, budget, replies) && Fed(g) == Fed(h) + pieces && FedFrom(pieces, fragments)
    ensures Progress(outcome, r) == AddAll(d, fragments, budget, replies)
    ensures outcome == Broken ==> Stopped(r, replies) && r.batch == []
    ensures outcome != Broken ==> Going(r, replies)
    ensures outcome == Added ==> |pieces| == |fragments|
    ensures outcome == Dropped ==> |pieces| < |fragments| && Full(r, budget)
    ensures Ample(budget, maxChars, replies) && outcome != Broken ==> outcome == Added && pieces == fragments
  {
    ghost var ample := Ample(budget, maxChars, replies);
    r, g, pieces := d, h, [];
    for j := 0 to |fragments|
      invariant Follows(r, g, budget, replies) && Going(r, replies) && Fed(g) == Fed(h) + pieces
      invariant |pieces| == j && FedFrom(pieces, fragments)
      invariant AddAll(d, fragments, budget, replies) == AddAll(r, fragments[j..], budget, replies)
      invariant ample ==> pieces == fragments[..j]
    {
      AmpleForLess(budget, maxChars, |fragments[j]|, replies);
      assert fragments[j..][1..] == fragments[j + 1..];
      ghost var piece;
      outcome, r, g, piece := Add(r, fragments[j], budget, replies, g);
      if outcome != Added {
        return;
      }
      FedSnoc(Fed(h), pieces, piece, fragments);
      pieces := pieces + [piece];
    }
    outcome := Added;
  }

  lemma {:induction false} AllFragmentsPrefix(sections: seq<Bytes>, i: nat, maxChars: int)
    requires i <= |sections|
    ensures AllFragments(sections[..i], maxChars) <= AllFragments(sections, maxChars)
  {
    if i < |sections| {
      var init := sections[..|sections| - 1];
      AllFragmentsPrefix(init, i, maxChars);
      assert init[..i] == sections[..i];
    } else {
      assert sections[..i] == sections;
    }
  }

  /** The first i sections are fed, whole if there is ample room. */
  predicate Reached(fed: seq<Bytes>, sections: seq<Bytes>, i: nat, maxChars: nat, ample: bool)
    requires i <= |sections|
  {
    var fragments := AllFragments(sections[..i], maxChars);
    FedFrom(fed, fragments) && |fed| == |fragments| && (ample ==> fed == fragments)
  }

  lemma FedAppend(fed: seq<Bytes>, a: seq<Bytes>, pieces: seq<Bytes>, b: seq<Bytes>, all: seq<Bytes>)
    requires FedFrom(fed, a) && |fed| == |a| && FedFrom(pieces, b) && a + b <= all
    ensures FedFrom(fed + pieces, a + b) && FedFrom(fed + pieces, all)
  {
  }

  lemma ReachedNext(fed: seq<Bytes>, pieces: seq<Bytes>, sections: seq<Bytes>, i: nat, maxChars: nat, ample: bool)
    requires i < |sections| && Reached(fed, sections, i, maxChars, ample)
    requires FedFrom(pieces, Fragments(sections[i], maxChars))
    ensures FedFrom(fed + pieces, AllFragments(sections, maxChars))
    ensures |pieces| < |Fragments(sections[i], maxChars)| ==> |fed + pieces| < |AllFragments(sections, maxChars)|
    ensures |pieces| == |Fragments(sections[i], maxChars)| && (ample ==> pieces == Fragments(sections[i], maxChars)) ==>
      Reached(fed + pieces, sections, i + 1, maxChars, ample)
  {
    var a, b := AllFragments(sections[..i], maxChars), Fragments(sections[i], maxChars);
    assert sections[..i + 1][..i] == sections[..i];
    assert AllFragments(sections[..i + 1], maxChars) == a + b;
    AllFragmentsPrefix(sections, i + 1, maxChars);
    FedAppend(fed, a, pieces, b, AllFragments(sections, maxChars));
  }

  /** A section more, or, once the fold has stopped, all of them. */
  lemma AddAllNext(sections: seq<Bytes>, i: nat, maxChars: int, d: Draft, budget: int, replies: nat -> Reply)
    requires i < |sections|
    requires AddAll(START, AllFragments(sections[..i], maxChars), budget, replies) == Progress(Added, d)
    ensures var next := AddAll(d, Fragments(sections[i], maxChars), budget, replies);
      && AddAll(START, AllFragments(sections[..i + 1], maxChars), budget, replies) == next
      && (next.outcome != Added ==> AddAll(START, AllFragments(sections, maxChars), budget, replies) == next)
  {
    var before, fragments := AllFragments(sections[..i], maxChars), Fragments(sections[i], maxChars);
    AllFragmentsSnoc(sections, i, maxChars);
    AddAllConcat(START, before, fragments, budget, replies);
    AllFragmentsPrefix(sections, i + 1, maxChars);
    if AddAll(d, fragments, budget, replies).outcome != Added {
      StoppedForGood(START, before + fragments, AllFragments(sections, maxChars), budget, replies);
    }
  }

  lemma AllFragmentsSnoc(sections: seq<Bytes>, i: nat, maxChars: int)
    requires i < |sections|
    ensures AllFragments(sections[..i + 1], maxChars) ==
      AllFragments(sections[..i], maxChars) + Fragments(sections[i], maxChars)
  {
    assert sections[..i + 1][..i] == sections[..i];
  }

  lemma StoppedForGood(d: Draft, a: seq<Bytes>, all: seq<Bytes>, budget: int, replies: nat -> Reply)
    requires a <= all && AddAll(d, a, budget, replies).outcome != Added
    ensures AddAll(d, all, budget, replies) == AddAll(d, a, budget, replies)
  {
    AddAllConcat(d, a, all[|a|..], budget, replies);
    assert a + all[|a|..] == all;
  }

  ghost predicate Covers(outcome: Outcome, d: Draft, fed: seq<Bytes>, all: seq<Bytes>, budget: nat, ample: bool) {
    && (outcome == Dropped <==> |fed| < |all|)
    && (outcome == Dropped ==> Full(d, budget))
    && (ample ==> fed == all)
  }

  /** What the loops over sections and fragments leave: all of the fragments, or as many as fitted. */
  method Fold(sections: seq<Bytes>, maxChars: nat, budget: nat, replies: nat -> Reply)
    returns (outcome: Outcome, d: Draft, ghost h: History)
    requires [] !in sections && maxChars > 0
    ensures Follows(d, h, budget, replies)
    ensures outcome == Broken ==> Stopped(d, replies) && d.batch == []
    ensures outcome != Broken ==> Going(d, replies)
    ensures Progress(outcome, d) == AddAll(START, AllFragments(sections, maxChars), budget, replies)
    ensures FedFrom(Fed(h), AllFragments(sections, maxChars))
    ensures outcome != Broken ==>
      Covers(outcome, d, Fed(h), AllFragments(sections, maxChars), budget, Ample(budget, maxChars, replies))
  {
    ghost var ample := Ample(budget, maxChars, replies);
    d, h := START, History([], []);
    for i := 0 to |sections|
      invariant Follows(d, h, budget, replies) && Going(d, replies)
      invariant AddAll(START, AllFragments(sections[..i], maxChars), budget, replies) == Progress(Added, d)
      invariant Reached(Fed(h), sections, i, maxChars, ample)
    {
      var fragments := SplitContextSection(sections[i], maxChars);
      assert sections[i] in sections;
      SplitIsBounded(sections[i], maxChars);
      ghost var fed, pieces := Fed(h), [];
      AddAllNext(sections, i, maxChars, d, budget, replies);
      outcome, d, h, pieces := AddSection(d, fragments, maxChars, budget, replies, h);
      ReachedNext(fed, pieces, sections, i, maxChars, ample);
      if outcome != Added {
        return;
      }
    }
    assert sections[..|sections|] == sections;
    outcome := Added;
  }

  /** The loops, and the flush after them. */
  method FoldAll(sections: seq<Bytes>, maxChars: nat, budget: nat, replies: nat -> Reply)
    returns (outcome: Outcome, d: Draft, ghost h: History)
    requires [] !in sections && maxChars > 0
    ensures AllSent(d.prompts, h.groups, budget, replies) && Joined(h.open) == []
    ensures var progress := AddAll(START, AllFragments(sections, maxChars), budget, replies);
      d == if progress.outcome == Broken then progress.draft else Flushed(progress.draft, replies).draft
    ensures FedFrom(Fed(h), AllFragments(sections, maxChars))
    ensures outcome == Broken ==> Stopped(d, replies)
    ensures outcome != Broken ==> Going(d, replies)
    ensures outcome != Broken ==>
      Covers(outcome, d, Fed(h), AllFragments(sections, maxChars), budget, Ample(budget, maxChars, replies))
  {
    outcome, d, h := Fold(sections, maxChars, budget, replies);
    if outcome != Broken {
      var ok;
      ok, d, h := Flush(d, budget, replies, h);
      if !ok {
        outcome := Broken;
      }
    }
  }

  lemma NotStopped(prompts: seq<Prompt>, replies: nat -> Reply)
    requires forall k :: 0 <= k < |prompts| ==> replies(k).Text?
    ensures !Stopped(Draft([], [], prompts), replies)
  {
  }

  /** What summarize answers once its calls are made: `note` is the text appended when the tail was dropped. */
  function Conclusion(summary: Bytes, dropped: bool, note: Bytes): Result<Bytes, Failure> {
    if summary == [] then Err(EmptyContext)
    else Ok(if dropped then summary + SEPARATOR + note else summary)
  }

  /** The answer is the last visible summary, and the tail is missing only when that summary fills the budget. */
  ghost predicate Concludes(result: Result<Bytes, Failure>, prompts: seq<Prompt>, h: History,
    sections: seq<Bytes>, limits: Limits, replies: nat -> Reply, note: Bytes)
  {
    var all := AllFragments(sections, SectionChars(limits));
    var summary := Folded(replies, |prompts|);
    && (result == Err(EmptyContext) <==> summary == [])
    && (summary != [] ==> result == Ok(if |Fed(h)| < |all| then summary + [0x0A, 0x0A] + note else summary))
    && (|Fed(h)| < |all| ==> |summary| + SLACK >= InputChars(limits))
    && (Roomy(limits) && Concise(replies, limits) ==> Fed(h) == all)
  }

  /**
   summarize. Every prompt fits the budget; the batches are, in order, the fragments of the sections, cut or
   left out only when the summary so far takes up the budget; and with a concise summarizer and room for its
   summary nothing is cut or left out.
   */
  method Summarize(sections: seq<Bytes>, limits: Limits, replies: nat -> Reply, note: Bytes)
    returns (result: Result<Bytes, Failure>, prompts: seq<Prompt>, ghost h: History)
    requires [] !in sections
    ensures prompts == PromptsOf(sections, limits, replies)
    ensures AllSent(prompts, h.groups, InputChars(limits), replies) && Joined(h.open) == []
    ensures sections == [] <==> result == Err(NothingToSummarize)
    ensures result == Err(SummarizerFailed) <==> Stopped(Draft([], [], prompts), replies)
    ensures FedFrom(Fed(h), AllFragments(sections, SectionChars(limits)))
    ensures sections != [] && result != Err(SummarizerFailed) ==> Concludes(result, prompts, h, sections, limits, replies, note)
  {
    if |sections| == 0 {
      return Err(NothingToSummarize), [], History([], []);
    }
    var outcome, d;
    outcome, d, h := FoldAll(sections, SectionChars(limits), InputChars(limits), replies);
    prompts := d.prompts;
    if outcome == Broken {
      return Err(SummarizerFailed), prompts, h;
    }
    NotStopped(prompts, replies);
    if Roomy(limits) && Concise(replies, limits) {
      RoomyIsAmple(limits, replies);
    }
    return Conclusion(d.summary, outcome == Dropped, note), prompts, h;
  }

  /** The fragments of all sections, put back together, are the sections. */
  lemma {:induction false} FragmentsCoverSections(sections: seq<Bytes>, maxChars: int)
    ensures Flatten(AllFragments(sections, maxChars)) == Flatten(sections)
  {
    if sections == [] {
    } else {
      var init, last := sections[..|sections| - 1], sections[|sections| - 1];
      FragmentsCoverSections(init, maxChars);
      SplitIsLossless(last, maxChars);
      FlattenStep(AllFragments(init, maxChars), Fragments(last, maxChars), init, last);
      assert sections == init + [last];
    }
  }

  lemma FlattenStep(a: seq<Bytes>, b: seq<Bytes>, init: seq<Bytes>, last: Bytes)
    requires Flatten(a) == Flatten(init) && Flatten(b) == last
    ensures Flatten(a + b) == Flatten(init + [last])
  {
    FlattenConcat(a, b);
    FlattenConcat(init, [last]);
    assert Flatten([last]) == last + Flatten([]);
  }

  lemma {:induction false} FlattenConcat(a: seq<Bytes>, b: seq<Bytes>)
    ensures Flatten(a + b) == Flatten(a) + Flatten(b)
  {
    if a == [] {
      assert a + b == b;
    } else {
      FlattenConcat(a[1..], b);
      assert (a + b)[1..] == a[1..] + b;
      assert a[0] + (Flatten(a[1..]) + Flatten(b)) == (a[0] + Flatten(a[1..])) + Flatten(b);
    }
  }

  /** Every prompt sent fits, and the open batch will. */
  predicate Modest(d: Draft, budget: nat) {
    && (forall p :: p in d.prompts ==> PromptLength(p) + SPARE <= budget)
    && (d.batch != [] ==> |d.summary| + |d.batch| + SLACK <= budget + |SEPARATOR|)
  }

  lemma FlushedIsModest(d: Draft, budget: nat, replies: nat -> Reply)
    requires Modest(d, budget)
    ensures Modest(Flushed(d, replies).draft, budget)
  {
  }

  lemma {:induction false} AddAllIsModest(d: Draft, fragments: seq<Bytes>, budget: nat, replies: nat -> Reply)
    requires Modest(d, budget)
    ensures Modest(AddAll(d, fragments, budget, replies).draft, budget)
    decreases |fragments|
  {
    if fragments != [] {
      var one := AddOne(d, fragments[0], budget, replies);
      FlushedIsModest(d, budget, replies);
      if one.outcome == Added {
        AddAllIsModest(one.draft, fragments[1..], budget, replies);
      }
    }
  }

  lemma PromptsAreModest(sections: seq<Bytes>, limits: Limits, replies: nat -> Reply, prompt: Prompt)
    requires prompt in PromptsOf(sections, limits, replies)
    ensures PromptLength(prompt) + SPARE <= InputChars(limits)
  {
    var fragments := AllFragments(sections, SectionChars(limits));
    AddAllIsModest(START, fragments, InputChars(limits), replies);
    FlushedIsModest(AddAll(START, fragments, InputChars(limits), replies).draft, InputChars(limits), replies);
  }

  /** With the instruction before it and the summary to come the prompt stays inside the call's share. */
  predicate InsideShare(prompt: Prompt, limits: Limits) {
    EstimateTokens(PromptLength(prompt)) + limits.summaryTokens + limits.instructionTokens <= CallBudget(limits)
  }

  ghost predicate AlwaysInsideShare(limits: Limits) {
    forall sections, replies, prompt | [] !in sections && prompt in PromptsOf(sections, limits, replies) ::
      InsideShare(prompt, limits)
  }

  /** The least budget holds a 1000-byte section, and beside a 36-byte summary another one and 500 bytes more. */
  lemma LongestPrompt(a: Bytes, b: Bytes, c: Bytes, reply: Bytes, limits: Limits)
    requires |a| == |b| == 1000 && |c| == 500 && |reply| == 36 && InputTokens(limits) == MIN_BUDGET
    ensures PromptsOf([a, b, c], limits, _ => Text(reply)) == [Prompt([], a), Prompt(reply, b + SEPARATOR + c)]
    ensures EstimateTokens(PromptLength(Prompt(reply, b + SEPARATOR + c))) == LEAST_SHARE
  {
    var replies := _ => Text(reply);
    var budget := InputChars(limits);
    ThreeFragments(a, b, c, SectionChars(limits));
    var one := Draft([], a, []);
    var two := Draft(reply, b, [Prompt([], a)]);
    var three := Draft(reply, b + SEPARATOR + c, [Prompt([], a)]);
    FirstFragment(a, budget, replies);
    assert AddOne(one, b, budget, replies) == Progress(Added, two);
    assert AddOne(two, c, budget, replies) == Progress(Added, three);
    AddThree(a, b, c, budget, replies, one, two, three);
  }

  lemma FirstFragment(a: Bytes, budget: nat, replies: nat -> Reply)
    requires |a| + SLACK <= budget
    ensures AddOne(START, a, budget, replies).draft.batch == a
  {
  }

  lemma ThreeFragments(a: Bytes, b: Bytes, c: Bytes, maxChars: int)
    requires Max(|a|, Max(|b|, |c|)) <= maxChars
    ensures AllFragments([a, b, c], maxChars) == [a, b, c]
  {
    assert [a, b, c][..2] == [a, b] && [a, b][..1] == [a] && [a][..0] == [];
    assert AllFragments([a], maxChars) == [a];
    assert AllFragments([a, b], maxChars) == [a, b];
  }

  lemma AddThree(a: Bytes, b: Bytes, c: Bytes, budget: nat, replies: nat -> Reply,
    one: Draft, two: Draft, three: Draft)
    requires AddOne(START, a, budget, replies) == Progress(Added, one)
    requires AddOne(one, b, budget, replies) == Progress(Added, two)
    requires AddOne(two, c, budget, replies) == Progress(Added, three)
    ensures AddAll(START, [a, b, c], budget, replies) == Progress(Added, three)
  {
    assert [a, b, c][1..] == [b, c] && [b, c][1..] == [c];
    assert AddAll(two, [c], budget, replies) == AddAll(three, [], budget, replies);
  }

  /**
   Over all sections and replies, every prompt with the instruction and the summary to come stays inside the share
   of the window meant for the call exactly when that share leaves 642 tokens, the longest prompt of the least
   budget. The floor of 1024 tokens can make a prompt of that length even where less is left.
   */
  lemma PromptsFitTheWindow(limits: Limits)
    ensures AlwaysInsideShare(limits) <==>
      CallBudget(limits) >= limits.summaryTokens + limits.instructionTokens + LEAST_SHARE
  {
    if CallBudget(limits) >= limits.summaryTokens + limits.instructionTokens + LEAST_SHARE {
      forall sections, replies, prompt | [] !in sections && prompt in PromptsOf(sections, limits, replies)
        ensures InsideShare(prompt, limits)
      {
        PromptsAreModest(sections, limits, replies, prompt);
        ModestIsInside(PromptLength(prompt), limits);
      }
    } else {
      var sections, reply := [Letters(1000), Letters(1000), Letters(500)], Letters(36);
      var prompt := Overdraws(sections, reply, limits);
    }
  }

  function Letters(n: nat): (s: Bytes)
    ensures |s| == n
  {
    seq(n, _ => 0x61)
  }

  lemma ModestIsInside(length: nat, limits: Limits)
    requires length + SPARE <= InputChars(limits)
    requires CallBudget(limits) >= limits.summaryTokens + limits.instructionTokens + LEAST_SHARE
    ensures EstimateTokens(length) + limits.summaryTokens + limits.instructionTokens <= CallBudget(limits)
  {
    if InputTokens(limits) == MIN_BUDGET {
      assert EstimateTokens(length) <= LEAST_SHARE;
    } else {
      CharsAreTokens(length, InputTokens(limits));
    }
  }

  /** Where less is left, three sections and a summarizer that answers 36 bytes make a prompt that overdraws. */
  lemma Overdraws(sections: seq<Bytes>, reply: Bytes, limits: Limits) returns (prompt: Prompt)
    requires |sections| == 3 && |sections[0]| == |sections[1]| == 1000 && |sections[2]| == 500 && |reply| == 36
    requires CallBudget(limits) < limits.summaryTokens + limits.instructionTokens + LEAST_SHARE
    ensures prompt in PromptsOf(sections, limits, _ => Text(reply)) && !InsideShare(prompt, limits)
  {
    LongestPrompt(sections[0], sections[1], sections[2], reply, limits);
    assert sections == [sections[0], sections[1], sections[2]];
    prompt := Prompt(reply, sections[1] + SEPARATOR + sections[2]);
  }

  /** A run that overdraws: 642 + 512 + 255 tokens against a share of 1200, in a window of 4000. */
  lemma OverdrawingRun(sections: seq<Bytes>, reply: Bytes) returns (limits: Limits, prompt: Prompt)
    requires |sections| == 3 && |sections[0]| == |sections[1]| == 1000 && |sections[2]| == 500 && |reply| == 36
    ensures limits == LimitsOf(4000, 1) && CallBudget(limits) == 1200
    ensures |reply| <= TokensToChars(limits.summaryTokens)
    ensures prompt in PromptsOf(sections, limits, _ => Text(reply)) && !InsideShare(prompt, limits)
  {
    limits := LimitsOf(4000, 1);
    prompt := Overdraws(sections, reply, limits);
  }

  /**
   With the instruction and the summary allowance of the code, no prompt ever overdraws exactly for windows of at
   least 4697 tokens in which the output reserve leaves room for the longest prompt of the least budget, the
   instruction and the summary.
   */
  lemma WindowsThatNeverOverdraw(window: nat, outputReserve: nat)
    requires window >= 1
    ensures AlwaysInsideShare(LimitsOf(window, outputReserve)) <==>
      window >= 4697 && window - outputReserve >= SummaryTokenLimit(window) + INSTRUCTION_TOKENS + LEAST_SHARE
  {
    PromptsFitTheWindow(LimitsOf(window, outputReserve));
    ShareOfWindow(window);
  }

  lemma ShareOfWindow(window: nat)
    requires window >= 1
    ensures Percentage(window, TARGET_PERCENT) >= SummaryTokenLimit(window) + INSTRUCTION_TOKENS + LEAST_SHARE <==>
      window >= 4697
  {
    PercentageIsFloor(window, TARGET_PERCENT);
    assert Percentage(window, TARGET_PERCENT) == window * 30 / 100;
  }
}
