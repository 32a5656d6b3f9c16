/**
 Compacting the context of a session over many model requests. A checkpoint stored in the session says how
 much of the history a summary stands for; the digest it holds is modelled as the contents digested.
 */
module Compaction {
  import opened Wrappers
  import opened TokenBudget
  import opened ContextBoundary

  datatype Checkpoint = Checkpoint(version: int, prefixCount: int, digest: seq<Content>, summary: Summary)

  datatype Failure = BadSummaryCount | OverBudget | BadAdvance | SaveFailed

  /** What one request brings: its history, the size estimates, the summarizer's answer and the store's. */
  datatype Round = Round(
    contents: seq<Content>,
    size: Content -> nat,
    fixedTokens: nat,
    maxOutputTokens: int,
    summary: Option<string>,
    saves: bool)

  datatype Outcome = Outcome(sent: Result<seq<Content>, Failure>, stored: Option<Checkpoint>)

  datatype Settings = Settings(maxContextTokens: int, maxOutputTokens: int, summaryTokens: nat)

  const ROLE_USER := "user"
  const ROLE_MODEL := "model"

  // Budgets

  function OutputReserve(settings: Settings, round: Round): nat {
    if round.maxOutputTokens > 0 then round.maxOutputTokens else Max(settings.maxOutputTokens, 0)
  }

  function InputBudget(settings: Settings, round: Round): nat {
    Max(settings.maxContextTokens - OutputReserve(settings, round), 0)
  }

  function TriggerTokens(settings: Settings, round: Round): nat {
    Percentage(InputBudget(settings, round), TRIGGER_PERCENT)
  }

  function SuffixBudget(settings: Settings, round: Round): nat {
    Max(Percentage(InputBudget(settings, round), TARGET_PERCENT) - round.fixedTokens - settings.summaryTokens, 0)
  }

  function InputTokens(round: Round, contents: seq<Content>): nat {
    round.fixedTokens + RetainedTokens(contents, round.size, 0)
  }

  /** The output reserve comes off the window first; the trigger is 90 percent of the rest, the target 30. */
  lemma BudgetsOfWindow(settings: Settings, round: Round)
    ensures var reserve :=
        if round.maxOutputTokens > 0 then round.maxOutputTokens
        else if settings.maxOutputTokens > 0 then settings.maxOutputTokens else 0;
      if settings.maxContextTokens >= reserve then InputBudget(settings, round) + reserve == settings.maxContextTokens
      else InputBudget(settings, round) == 0
    ensures var trigger := TriggerTokens(settings, round);
      100 * trigger <= 90 * InputBudget(settings, round) < 100 * (trigger + 1)
    ensures var suffix := SuffixBudget(settings, round);
      var spent := round.fixedTokens + settings.summaryTokens;
      && (suffix > 0 ==> 100 * (suffix + spent) <= 30 * InputBudget(settings, round))
      && 30 * InputBudget(settings, round) < 100 * (suffix + spent + 1)
  {
    PercentageIsFloor(InputBudget(settings, round), TRIGGER_PERCENT);
    PercentageIsFloor(InputBudget(settings, round), TARGET_PERCENT);
  }

  // The summary in front of the retained contents

  function SummaryPart(summary: Summary): Part {
    Part(None, None, Compacted(summary))
  }

  predicate Mergeable(c: Content) {
    c.Content? && c.role != ROLE_MODEL && !HasResponse(c)
  }

  /** contentsWithContextSummary: the summary joins the first retained content where it may, or precedes it. */
  function WithSummary(summary: Summary, suffix: seq<Content>): seq<Content> {
    if |suffix| > 0 && Mergeable(suffix[0])
    then [suffix[0].(parts := [SummaryPart(summary)] + suffix[0].parts)] + suffix[1..]
    else [Content(ROLE_USER, [SummaryPart(summary)])] + suffix
  }

  /** How many contents of the working list stand before the one that index 0 of the suffix became. */
  function Inserted(suffix: seq<Content>): nat {
    if |suffix| > 0 && Mergeable(suffix[0]) then 0 else 1
  }

  /** A stored checkpoint counts only for a history that starts with the contents it summarized. */
  predicate Applies(stored: Option<Checkpoint>, contents: seq<Content>) {
    && stored.Some?
    && stored.value.version == 1
    && 0 < stored.value.prefixCount <= |contents|
    && stored.value.summary != Written("")
    && contents[..stored.value.prefixCount] == stored.value.digest
  }

  function Prefix(stored: Option<Checkpoint>, contents: seq<Content>): (n: nat)
    ensures n <= |contents|
  {
    if Applies(stored, contents) then stored.value.prefixCount else 0
  }

  function Working(stored: Option<Checkpoint>, contents: seq<Content>): seq<Content> {
    if Applies(stored, contents)
    then WithSummary(stored.value.summary, contents[stored.value.prefixCount..])
    else contents
  }

  predicate FitsAsItIs(settings: Settings, stored: Option<Checkpoint>, round: Round) {
    Applies(stored, round.contents) &&
    InputTokens(round, Working(stored, round.contents)) < TriggerTokens(settings, round)
  }

  function WorkingCut(settings: Settings, stored: Option<Checkpoint>, round: Round): nat {
    Cut(Working(stored, round.contents), round.size, SuffixBudget(settings, round), Applies(stored, round.contents))
  }

  /** A cut of the working list, counted in the history. */
  function HistoryCut(stored: Option<Checkpoint>, contents: seq<Content>, cut: nat): int {
    if Applies(stored, contents)
    then Prefix(stored, contents) + cut - Inserted(contents[Prefix(stored, contents)..])
    else cut
  }

  function NewPrefix(settings: Settings, stored: Option<Checkpoint>, round: Round): int {
    HistoryCut(stored, round.contents, WorkingCut(settings, stored, round))
  }

  /** There is something to summarize: neither no contents, nor a summary with nothing beside it. */
  predicate Cuttable(stored: Option<Checkpoint>, contents: seq<Content>) {
    contents != [] && (Applies(stored, contents) ==> |Working(stored, contents)| >= 2)
  }

  function NewSummary(round: Round): Summary {
    if round.summary.Some? then Written(round.summary.value) else Fallback
  }

  /** The checkpoint moves to p and the summary goes in front of the rest. */
  function Advanced(stored: Option<Checkpoint>, round: Round, p: int): Outcome {
    if p < 0 || p > |round.contents| then Outcome(Err(BadAdvance), stored)
    else if !round.saves then Outcome(Err(SaveFailed), stored)
    else
      Outcome(Ok(WithSummary(NewSummary(round), round.contents[p..])),
              Some(Checkpoint(1, p, round.contents[..p], NewSummary(round))))
  }

  /** compactRequest once a cut of the working list is chosen; there is none for a summary with nothing beside it. */
  function CutDown(stored: Option<Checkpoint>, round: Round, cut: Option<nat>): Outcome {
    if cut.None? then Outcome(Err(OverBudget), stored)
    else if cut.value == 0 then Outcome(Ok(Working(stored, round.contents)), stored)
    else Advanced(stored, round, HistoryCut(stored, round.contents, cut.value))
  }

  function ChosenCut(settings: Settings, stored: Option<Checkpoint>, round: Round): Option<nat> {
    if Applies(stored, round.contents) && |Working(stored, round.contents)| < 2 then None
    else Some(WorkingCut(settings, stored, round))
  }

  /** The whole of compactRequest. */
  function Compact(settings: Settings, stored: Option<Checkpoint>, round: Round): Outcome {
    if FitsAsItIs(settings, stored, round) then Outcome(Ok(Working(stored, round.contents)), stored)
    else CutDown(stored, round, ChosenCut(settings, stored, round))
  }

  /** The whole of beforeModel; the projection comes from measurements of earlier requests. */
  function BeforeSending(settings: Settings, stored: Option<Checkpoint>, round: Round, projected: nat): Outcome {
    if Max(InputTokens(round, round.contents), projected) < TriggerTokens(settings, round)
    then Outcome(Ok(round.contents), stored)
    else Compact(settings, stored, round)
  }

  lemma WorkingLength(stored: Option<Checkpoint>, contents: seq<Content>)
    requires Applies(stored, contents)
    ensures var suffix := contents[stored.value.prefixCount..];
      |Working(stored, contents)| == |suffix| + Inserted(suffix)
  {
  }

  /**
   Checkpoints advance: whenever something is summarized, the new prefix is longer than the old and within the
   history, so the two consistency errors cannot occur.
   */
  lemma CheckpointAdvances(settings: Settings, stored: Option<Checkpoint>, round: Round)
    requires Cuttable(stored, round.contents)
    ensures Prefix(stored, round.contents) < NewPrefix(settings, stored, round) <= |round.contents|
    ensures 1 <= WorkingCut(settings, stored, round) <= |Working(stored, round.contents)|
  {
    CutIsLeast(Working(stored, round.contents), round.size, SuffixBudget(settings, round),
               Applies(stored, round.contents), 0);
    if Applies(stored, round.contents) {
      WorkingLength(stored, round.contents);
    }
  }

  lemma TailsAgree(summary: Summary, suffix: seq<Content>, cut: nat)
    requires 1 <= cut <= |WithSummary(summary, suffix)|
    ensures WithSummary(summary, suffix)[cut..] == suffix[cut - Inserted(suffix)..]
  {
  }

  /** What is retained of the working list is what is retained of the history, the summary merged or not. */
  lemma RetainedIsHistory(settings: Settings, stored: Option<Checkpoint>, round: Round)
    requires Cuttable(stored, round.contents)
    ensures 0 <= NewPrefix(settings, stored, round) <= |round.contents|
    ensures WorkingCut(settings, stored, round) <= |Working(stored, round.contents)|
    ensures Working(stored, round.contents)[WorkingCut(settings, stored, round)..] ==
      round.contents[NewPrefix(settings, stored, round)..]
  {
    CheckpointAdvances(settings, stored, round);
    if Applies(stored, round.contents) {
      var suffix := round.contents[stored.value.prefixCount..];
      var cut := WorkingCut(settings, stored, round);
      TailsAgree(stored.value.summary, suffix, cut);
      assert suffix[cut - Inserted(suffix)..] == round.contents[NewPrefix(settings, stored, round)..];
    }
  }

  /** After a compaction the retained contents fit the target beside the fixed part and a full summary. */
  lemma CompactionMeetsTarget(settings: Settings, stored: Option<Checkpoint>, round: Round)
    requires Cuttable(stored, round.contents)
    ensures var retained := round.contents[NewPrefix(settings, stored, round)..];
      round.fixedTokens + settings.summaryTokens + RetainedTokens(retained, round.size, 0) <=
        Max(Percentage(InputBudget(settings, round), TARGET_PERCENT), round.fixedTokens + settings.summaryTokens)
  {
    var working := Working(stored, round.contents);
    var cut := WorkingCut(settings, stored, round);
    RetainedIsHistory(settings, stored, round);
    CutIsLeast(working, round.size, SuffixBudget(settings, round), Applies(stored, round.contents), 0);
    RetainedOfTail(working, round.size, cut, 0);
  }

  lemma {:induction false} RetainedOfTail(contents: seq<Content>, size: Content -> nat, cut: nat, i: nat)
    requires cut + i <= |contents|
    ensures RetainedTokens(contents[cut..], size, i) == RetainedTokens(contents, size, cut + i)
    decreases |contents| - i
  {
    if cut + i < |contents| {
      RetainedOfTail(contents, size, cut, i + 1);
    }
  }

  // Calls and results over many rounds

  /** Each id is answered by at most one content. */
  predicate AnsweredOnce(contents: seq<Content>) {
    forall i, j :: 0 <= i < j < |contents| ==> ResponseIds(contents[i]) !! ResponseIds(contents[j])
  }

  predicate Answers(contents: seq<Content>, id: string) {
    exists j :: 0 <= j < |contents| && id in ResponseIds(contents[j])
  }

  predicate CalledBefore(contents: seq<Content>, j: nat, id: string)
    requires j <= |contents|
  {
    exists i :: 0 <= i < j && id in CallIds(contents[i])
  }

  /** The history of a request between tool rounds: every call answered, every result after its call. */
  ghost predicate Settled(contents: seq<Content>) {
    && AnsweredOnce(contents)
    && (forall i, id | 0 <= i < |contents| && id in CallIds(contents[i]) :: Answers(contents, id))
    && (forall j, id | 0 <= j < |contents| && id in ResponseIds(contents[j]) :: CalledBefore(contents, j, id))
  }

  /** The tail kept after the checkpoint holds no result of a summarized call and does not start with a result. */
  predicate Whole(stored: Option<Checkpoint>, contents: seq<Content>) {
    Applies(stored, contents) ==>
      && Separated(contents, stored.value.prefixCount)
      && (stored.value.prefixCount < |contents| ==> !HasResponse(contents[stored.value.prefixCount]))
  }

  /** Growth keeps a cut clean exactly when nothing new answers a call before the cut. */
  lemma GrowthKeepsSeparation(contents: seq<Content>, grown: seq<Content>, cut: nat)
    requires contents <= grown && cut <= |contents| && Separated(contents, cut)
    ensures Separated(grown, cut) <==>
      forall i, j :: 0 <= i < cut && |contents| <= j < |grown| ==> CallIds(grown[i]) !! ResponseIds(grown[j])
  {
  }

  predicate AllAnswered(contents: seq<Content>, p: nat)
    requires p <= |contents|
  {
    forall i, id | 0 <= i < p && id in CallIds(contents[i]) :: Answers(contents, id)
  }

  ghost predicate StaysSeparated(contents: seq<Content>, p: nat) {
    forall grown | contents <= grown && AnsweredOnce(grown) :: Separated(grown, p)
  }

  function ResultOf(id: string): Content {
    Content(ROLE_USER, [Part(None, Some(id), Plain(""))])
  }

  lemma ResultAnswers(id: string)
    ensures ResponseIds(ResultOf(id)) == {id}
  {
    assert Parts(ResultOf(id))[0].response.value == id;
  }

  /** A late result is no second answer, and it splits its call. */
  lemma LateResultSplits(contents: seq<Content>, p: nat, i: nat, id: string)
    requires i < p <= |contents| && AnsweredOnce(contents) && id in CallIds(contents[i]) && !Answers(contents, id)
    ensures AnsweredOnce(contents + [ResultOf(id)]) && !Separated(contents + [ResultOf(id)], p)
  {
    var grown := contents + [ResultOf(id)];
    ResultAnswers(id);
    forall j, k | 0 <= j < k < |grown|
      ensures ResponseIds(grown[j]) !! ResponseIds(grown[k])
    {
      assert grown[j] == contents[j];
    }
    assert !(CallIds(grown[i]) !! ResponseIds(grown[|contents|]));
  }

  lemma AnsweredStaysSeparated(contents: seq<Content>, grown: seq<Content>, p: nat)
    requires contents <= grown && p <= |contents| && Separated(contents, p)
    requires AnsweredOnce(grown) && AllAnswered(contents, p)
    ensures Separated(grown, p)
  {
    forall i, j | 0 <= i < p && |contents| <= j < |grown|
      ensures CallIds(grown[i]) !! ResponseIds(grown[j])
    {
      forall id | id in CallIds(grown[i])
        ensures id !in ResponseIds(grown[j])
      {
        assert grown[i] == contents[i] && Answers(contents, id);
        var k :| 0 <= k < |contents| && id in ResponseIds(contents[k]);
        assert ResponseIds(grown[k]) !! ResponseIds(grown[j]);
      }
    }
    GrowthKeepsSeparation(contents, grown, p);
  }

  /**
   A cut that splits no call from its result when it is made splits none later, whatever arrives, exactly when
   every call before it has its answer already.
   */
  lemma CutStaysCleanExactlyWhenAnswered(contents: seq<Content>, p: nat)
    requires p <= |contents| && Separated(contents, p) && AnsweredOnce(contents)
    ensures StaysSeparated(contents, p) <==> AllAnswered(contents, p)
  {
    if AllAnswered(contents, p) {
      forall grown | contents <= grown && AnsweredOnce(grown)
        ensures Separated(grown, p)
      {
        AnsweredStaysSeparated(contents, grown, p);
      }
    } else {
      var i, id :| 0 <= i < p && id in CallIds(contents[i]) && !Answers(contents, id);
      LateResultSplits(contents, p, i, id);
      assert contents <= contents + [ResultOf(id)];
    }
  }

  lemma SettledGrowth(contents: seq<Content>, grown: seq<Content>, cut: nat)
    requires contents <= grown && cut <= |contents| && Separated(contents, cut)
    requires Settled(contents) && Settled(grown)
    ensures Separated(grown, cut)
  {
    AnsweredStaysSeparated(contents, grown, cut);
  }

  lemma ResponseHasId(c: Content)
    requires HasResponse(c)
    ensures exists id :: id in ResponseIds(c)
  {
    var i :| 0 <= i < |Parts(c)| && Parts(c)[i].response.Some?;
    assert Parts(c)[i].response.value in ResponseIds(c);
  }

  /** A result right after the cut has its call before the cut. */
  lemma ResponseCrosses(contents: seq<Content>, p: nat)
    requires p < |contents| && Settled(contents)
    ensures HasResponse(contents[p]) ==> !Separated(contents, p)
  {
    if HasResponse(contents[p]) {
      ResponseHasId(contents[p]);
      var id :| id in ResponseIds(contents[p]);
      assert CalledBefore(contents, p, id);
      var i :| 0 <= i < p && id in CallIds(contents[i]);
      assert !(CallIds(contents[i]) !! ResponseIds(contents[p]));
    }
  }

  lemma WholeAfterGrowth(stored: Option<Checkpoint>, contents: seq<Content>, grown: seq<Content>)
    requires contents <= grown && Settled(contents) && Settled(grown)
    requires Applies(stored, contents) && Whole(stored, contents)
    ensures Applies(stored, grown) && Whole(stored, grown)
  {
    var p := stored.value.prefixCount;
    assert grown[..p] == contents[..p];
    SettledGrowth(contents, grown, p);
    if p < |grown| {
      ResponseCrosses(grown, p);
    }
  }

  lemma MergingKeepsCalls(summary: Summary, c: Content)
    requires c.Content?
    ensures CallIds(c) <= CallIds(c.(parts := [SummaryPart(summary)] + c.parts))
  {
    var merged := c.(parts := [SummaryPart(summary)] + c.parts);
    forall id | id in CallIds(c)
      ensures id in CallIds(merged)
    {
      var i :| 0 <= i < |Parts(c)| && Parts(c)[i].call.Some? && Parts(c)[i].call.value == id && id != "";
      assert Parts(merged)[i + 1] == Parts(c)[i];
    }
  }

  lemma SummaryKeepsCalls(summary: Summary, suffix: seq<Content>, k: nat)
    requires k < |suffix|
    ensures var w := k + Inserted(suffix);
      w < |WithSummary(summary, suffix)| && CallIds(suffix[k]) <= CallIds(WithSummary(summary, suffix)[w])
  {
    if k == 0 && Mergeable(suffix[0]) {
      MergingKeepsCalls(summary, suffix[0]);
    }
  }

  /** The working list carries the calls of the retained history at the same places. */
  lemma WorkingKeepsCalls(stored: Option<Checkpoint>, contents: seq<Content>, k: nat)
    requires Applies(stored, contents) && stored.value.prefixCount <= k < |contents|
    ensures var w := k - stored.value.prefixCount + Inserted(contents[stored.value.prefixCount..]);
      w < |Working(stored, contents)| && CallIds(contents[k]) <= CallIds(Working(stored, contents)[w])
  {
    var suffix := contents[stored.value.prefixCount..];
    SummaryKeepsCalls(stored.value.summary, suffix, k - stored.value.prefixCount);
    assert suffix[k - stored.value.prefixCount] == contents[k];
  }

  /** One round keeps the tail whole, whether it compacts or not. */
  lemma RoundKeepsWhole(settings: Settings, stored: Option<Checkpoint>, round: Round)
    requires Whole(stored, round.contents)
    ensures Whole(Compact(settings, stored, round).stored, round.contents)
  {
    NothingToCut(settings, stored, round);
    if Cuttable(stored, round.contents) {
      CheckpointAdvances(settings, stored, round);
      NewCutIsClean(settings, stored, round);
    }
  }

  /** After a round the checkpoint, if there is one, is for the history it saw. */
  lemma RoundKeepsApplying(settings: Settings, stored: Option<Checkpoint>, round: Round)
    requires (stored.Some? ==> Applies(stored, round.contents)) && round.summary != Some("")
    ensures var after := Compact(settings, stored, round).stored; after.Some? ==> Applies(after, round.contents)
  {
    NothingToCut(settings, stored, round);
    if Cuttable(stored, round.contents) {
      CheckpointAdvances(settings, stored, round);
    }
  }

  lemma NewCutIsClean(settings: Settings, stored: Option<Checkpoint>, round: Round)
    requires Cuttable(stored, round.contents) && Whole(stored, round.contents)
    ensures var p := NewPrefix(settings, stored, round);
      && 0 < p <= |round.contents|
      && Separated(round.contents, p)
      && (p < |round.contents| ==> !HasResponse(round.contents[p]))
  {
    var contents := round.contents;
    var working, cut := Working(stored, contents), WorkingCut(settings, stored, round);
    var p := NewPrefix(settings, stored, round);
    CheckpointAdvances(settings, stored, round);
    RetainedIsHistory(settings, stored, round);
    CutIsLeast(working, round.size, SuffixBudget(settings, round), Applies(stored, contents), 0);
    assert Safe(working, cut);
    forall i, j | 0 <= i < p <= j < |contents|
      ensures CallIds(contents[i]) !! ResponseIds(contents[j])
    {
      assert working[cut..][j - p] == contents[p..][j - p];
      if Applies(stored, contents) && i >= stored.value.prefixCount {
        WorkingKeepsCalls(stored, contents, i);
      }
    }
    if p < |contents| {
      assert working[cut..][0] == contents[p..][0];
    }
  }

  /**
   Requests of one session: the history only grows, each time it is settled, and a summary is never empty,
   since `Summarizer.Summarize` turns an empty one into an error.
   */
  ghost predicate Session(rounds: seq<Round>) {
    && (forall k :: 0 <= k < |rounds| ==> Settled(rounds[k].contents) && rounds[k].summary != Some(""))
    && (forall k :: 0 < k < |rounds| ==> rounds[k - 1].contents <= rounds[k].contents)
  }

  /** The checkpoint after the requests; projections gives what was projected before each of them. */
  function Run(settings: Settings, rounds: seq<Round>, projections: nat -> nat): Option<Checkpoint> {
    if rounds == [] then None
    else
      var n := |rounds| - 1;
      BeforeSending(settings, Run(settings, rounds[..n], projections), rounds[n], projections(n)).stored
  }

  ghost predicate Clean(stored: Option<Checkpoint>, contents: seq<Content>) {
    Whole(stored, contents) && (stored.Some? ==> Applies(stored, contents))
  }

  lemma RoundKeepsClean(settings: Settings, stored: Option<Checkpoint>, round: Round, projected: nat)
    requires Clean(stored, round.contents) && round.summary != Some("")
    ensures Clean(BeforeSending(settings, stored, round, projected).stored, round.contents)
  {
    RoundKeepsWhole(settings, stored, round);
    RoundKeepsApplying(settings, stored, round);
  }

  /**
   Over any number of requests, a tool result is never kept without its call: nothing retained answers a
   summarized call, and no retained tail starts with a result.
   */
  lemma {:induction false} CompactionNeverSplitsCalls(settings: Settings, rounds: seq<Round>, projections: nat -> nat)
    requires Session(rounds) && rounds != []
    ensures Clean(Run(settings, rounds, projections), rounds[|rounds| - 1].contents)
  {
    var n := |rounds| - 1;
    var stored := Run(settings, rounds[..n], projections);
    if n > 0 {
      CompactionNeverSplitsCalls(settings, rounds[..n], projections);
      if stored.Some? {
        WholeAfterGrowth(stored, rounds[n - 1].contents, rounds[n].contents);
      }
    }
    RoundKeepsClean(settings, stored, rounds[n], projections(n));
  }

  // Measured usage

  /** The prompt size a provider measured, for so many contents of which the last is known by its digest. */
  datatype Usage = Usage(version: int, promptTokens: int, contentsCount: int, last: Option<Content>)

  predicate ValidUsage(u: Usage, contents: seq<Content>) {
    && u.version == 1
    && u.promptTokens > 0
    && 0 < u.contentsCount <= |contents|
    && u.last == Some(contents[u.contentsCount - 1])
  }

  /** What the measurement and the contents added since then come to. */
  function Projected(u: Usage, contents: seq<Content>, size: Content -> nat): nat
    requires ValidUsage(u, contents)
  {
    u.promptTokens + RetainedTokens(contents, size, u.contentsCount)
  }

  /** A measurement is for a list only if the list is that long and has the same content at its end. */
  lemma MeasurementIsAnchored(u: Usage, contents: seq<Content>, size: Content -> nat)
    ensures ValidUsage(u, contents) <==>
      && u.version == 1 && u.promptTokens >= 1 && 1 <= u.contentsCount <= |contents|
      && u.last.Some? && u.last.value == contents[u.contentsCount - 1]
    ensures ValidUsage(u, contents) ==> Projected(u, contents, size) >= u.promptTokens
  {
  }

  /** Contents added after a request are projected on top of its measurement, each once. */
  lemma ProjectionIsExact(sent: seq<Content>, extra: seq<Content>, size: Content -> nat, measured: nat)
    requires sent != [] && measured > 0
    ensures var u := Usage(1, measured, |sent|, Some(sent[|sent| - 1]));
      ValidUsage(u, sent + extra) && Projected(u, sent + extra, size) == measured + RetainedTokens(extra, size, 0)
  {
    RetainedOfTail(sent + extra, size, |sent|, 0);
    assert (sent + extra)[|sent|..] == extra;
  }

  /** Nothing of the working list that was sent is different in the next one. */
  predicate KeptInPlace(rest: seq<Content>, extra: seq<Content>) {
    rest != [] || extra == [] || !Mergeable(extra[0])
  }

  /** The summary stands in front of a grown suffix as before, unless it now merges with what used not to be there. */
  lemma GrowthKeepsSummaryInPlace(summary: Summary, suffix: seq<Content>, extra: seq<Content>)
    ensures WithSummary(summary, suffix + extra) == WithSummary(summary, suffix) + extra <==>
      KeptInPlace(suffix, extra)
  {
    if suffix != [] {
      assert (suffix + extra)[1..] == suffix[1..] + extra;
    } else {
      assert suffix + extra == extra;
      if extra != [] && Mergeable(extra[0]) {
        assert |WithSummary(summary, extra)| == |extra|;
      }
    }
  }

  /** The record of a request that was measured. */
  function UsageOf(sent: seq<Content>, measured: int): Usage {
    Usage(1, measured, |sent|, if sent == [] then None else Some(sent[|sent| - 1]))
  }

  lemma SummaryAloneStands(summary: Summary, extra: seq<Content>)
    requires extra != [] && Mergeable(extra[0])
    ensures WithSummary(summary, extra)[0] == WithSummary(summary, [])[0] <==> extra[0] == Content(ROLE_USER, [])
  {
    var merged := [SummaryPart(summary)] + extra[0].parts;
    assert merged == [SummaryPart(summary)] <==> extra[0].parts == [] by {
      assert |merged| == 1 + |extra[0].parts|;
    }
  }

  lemma LastSent(sent: seq<Content>, extra: seq<Content>, measured: int)
    requires sent != [] && measured > 0
    ensures ValidUsage(UsageOf(sent, measured), sent + extra)
  {
    assert (sent + extra)[|sent| - 1] == sent[|sent| - 1];
  }

  /** A measurement of a summary with a retained rest is valid for what that becomes as the history grows. */
  lemma MeasurementServesExactly(summary: Summary, rest: seq<Content>, extra: seq<Content>, measured: int)
    requires measured > 0
    ensures ValidUsage(UsageOf(WithSummary(summary, rest), measured), WithSummary(summary, rest + extra)) <==>
      KeptInPlace(rest, extra) || extra[0] == Content(ROLE_USER, [])
  {
    GrowthKeepsSummaryInPlace(summary, rest, extra);
    if KeptInPlace(rest, extra) {
      LastSent(WithSummary(summary, rest), extra, measured);
    } else {
      assert rest + extra == extra;
      SummaryAloneStands(summary, extra);
    }
  }

  /**
   The working list after a compaction grows by exactly what is added to the history, unless everything was
   summarized and the summary merges with the first content added. The measurement of the compacted request serves
   for the next one in those cases, and where that first content is an empty one of the user.
   */
  lemma MeasurementSurvivesCompaction(settings: Settings, stored: Option<Checkpoint>, round: Round,
    extra: seq<Content>, measured: int)
    requires Cuttable(stored, round.contents) && !FitsAsItIs(settings, stored, round)
    requires round.saves && round.summary != Some("")
    ensures var p := NewPrefix(settings, stored, round);
      var after := Compact(settings, stored, round);
      && 0 <= p <= |round.contents| && after.sent.Ok?
      && (Working(after.stored, round.contents + extra) == after.sent.value + extra <==>
          KeptInPlace(round.contents[p..], extra))
      && (measured > 0 ==>
          (ValidUsage(UsageOf(after.sent.value, measured), Working(after.stored, round.contents + extra)) <==>
            KeptInPlace(round.contents[p..], extra) || extra[0] == Content(ROLE_USER, [])))
  {
    NothingToCut(settings, stored, round);
    CheckpointAdvances(settings, stored, round);
    var p := NewPrefix(settings, stored, round);
    CheckpointAppliesToGrown(round.contents, p, NewSummary(round), extra);
    GrowthKeepsSummaryInPlace(NewSummary(round), round.contents[p..], extra);
    if measured > 0 {
      MeasurementServesExactly(NewSummary(round), round.contents[p..], extra, measured);
    }
  }

  lemma CheckpointAppliesToGrown(contents: seq<Content>, p: nat, summary: Summary, extra: seq<Content>)
    requires 0 < p <= |contents| && summary != Written("")
    ensures Working(Some(Checkpoint(1, p, contents[..p], summary)), contents + extra) ==
      WithSummary(summary, contents[p..] + extra)
  {
    var grown := contents + extra;
    assert grown[..p] == contents[..p];
    assert grown[p..] == contents[p..] + extra;
  }

  const USER_TURN := Content("user", [Part(None, None, Plain("go"))])
  const CALL_TURN := Content("model", [Part(Some("c1"), None, Plain(""))])
  const RESULT_TURN := Content("user", [Part(None, Some("c1"), Plain(""))])

  /**
   Without the answer the promise fails, in a window of 10000 tokens that a fixed part of 9000 fills to the trigger:
   the call is summarized before its result arrives, and the result is left behind.
   */
  lemma UnansweredCallIsSplit(size: Content -> nat, projected: nat)
    requires size(CALL_TURN) > 0
    ensures var before := Round([USER_TURN, CALL_TURN], size, 9000, 0, Some("s"), true);
      var after := [USER_TURN, CALL_TURN, RESULT_TURN];
      var stored := BeforeSending(Settings(10000, 1, 512), None, before, projected).stored;
      && Applies(stored, after) && stored.value.prefixCount == 2
      && HasResponse(after[2]) && !Separated(after, 2)
  {
    var settings := Settings(10000, 1, 512);
    var before := Round([USER_TURN, CALL_TURN], size, 9000, 0, Some("s"), true);
    var contents := before.contents;
    assert TriggerTokens(settings, before) <= 9000 && SuffixBudget(settings, before) == 0;
    assert RetainedTokens(contents, size, 1) == size(CALL_TURN) + RetainedTokens(contents, size, 2);
    assert TokenFit(contents, size, 0, 2) == 2;
    var stored := Compact(settings, None, before).stored;
    assert stored == Some(Checkpoint(1, 2, contents[..2], Written("s")));
    var after := [USER_TURN, CALL_TURN, RESULT_TURN];
    assert after[..2] == contents[..2];
    assert Parts(RESULT_TURN)[0].response.value in ResponseIds(after[2]);
    assert Parts(CALL_TURN)[0].call.value in CallIds(after[1]);
  }

  /** The first content sent holds the summary, alone or before what it holds anyway; the rest follows untouched. */
  predicate Carries(sent: seq<Content>, summary: Summary, rest: seq<Content>) {
    && sent != [] && sent[0].Content? && sent[0].parts != []
    && sent[0].parts[0].body == Compacted(summary) && sent[0].parts[0].call.None? && sent[0].parts[0].response.None?
    && if rest != [] && rest[0].Content? && rest[0].role != ROLE_MODEL && !HasResponse(rest[0]) then
         sent[0].role == rest[0].role && sent[0].parts[1..] == rest[0].parts && sent[1..] == rest[1..]
       else
         sent[0].role == ROLE_USER && sent[0].parts[1..] == [] && sent[1..] == rest
  }

  lemma SummaryIsCarried(summary: Summary, rest: seq<Content>)
    ensures Carries(WithSummary(summary, rest), summary, rest)
  {
  }

  /** What the summarizer said is what is kept of the prefix; only when it failed is it the note that it could not. */
  predicate Speaks(checkpoint: Checkpoint, round: Round) {
    checkpoint.summary == match round.summary case Some(text) => Written(text) case None => Fallback
  }

  /**
   What is sent is the whole history, or the summary that is stored and after it exactly the history it does not
   stand for. A new checkpoint holds what the summarizer said of the contents it names.
   */
  ghost predicate Answered(before: Option<Checkpoint>, after: Option<Checkpoint>, sent: seq<Content>, round: Round) {
    && (sent == round.contents ||
        (&& Applies(after, round.contents)
         && Carries(sent, after.value.summary, round.contents[after.value.prefixCount..])))
    && (after != before ==>
          && after.Some? && Speaks(after.value, round)
          && after.value.prefixCount > Prefix(before, round.contents)
          && Applies(after, round.contents))
  }

  /**
   A request that does not fit with its summary is compacted, unless there is nothing to compact or the store fails:
   a longer prefix is summarized, and what is retained meets the target.
   */
  lemma CompactionShortens(settings: Settings, stored: Option<Checkpoint>, round: Round)
    requires Cuttable(stored, round.contents) && round.saves
    requires Applies(stored, round.contents) ==>
      InputTokens(round, Working(stored, round.contents)) >= TriggerTokens(settings, round)
    ensures var out := Compact(settings, stored, round);
      && out.sent.Ok? && out.stored.Some?
      && Prefix(stored, round.contents) < out.stored.value.prefixCount <= |round.contents|
      && var retained := round.contents[out.stored.value.prefixCount..];
         round.fixedTokens + settings.summaryTokens + RetainedTokens(retained, round.size, 0) <=
           Max(Percentage(InputBudget(settings, round), TARGET_PERCENT), round.fixedTokens + settings.summaryTokens)
  {
    NothingToCut(settings, stored, round);
    CheckpointAdvances(settings, stored, round);
    CompactionMeetsTarget(settings, stored, round);
  }

  lemma AdvanceAnswers(stored: Option<Checkpoint>, round: Round, p: nat)
    requires round.summary != Some("") && Prefix(stored, round.contents) < p <= |round.contents|
    ensures var out := Advanced(stored, round, p);
      if out.sent.Ok? then Answered(stored, out.stored, out.sent.value, round) else out.stored == stored
  {
    SummaryIsCarried(NewSummary(round), round.contents[p..]);
  }

  lemma WorkingAnswers(stored: Option<Checkpoint>, round: Round)
    ensures Answered(stored, stored, Working(stored, round.contents), round)
  {
    if Applies(stored, round.contents) {
      SummaryIsCarried(stored.value.summary, round.contents[stored.value.prefixCount..]);
    }
  }

  lemma CompactionAnswers(settings: Settings, stored: Option<Checkpoint>, round: Round)
    requires round.summary != Some("")
    ensures var out := Compact(settings, stored, round);
      if out.sent.Ok? then Answered(stored, out.stored, out.sent.value, round) else out.stored == stored
  {
    WorkingAnswers(stored, round);
    NothingToCut(settings, stored, round);
    if Cuttable(stored, round.contents) {
      CheckpointAdvances(settings, stored, round);
      AdvanceAnswers(stored, round, NewPrefix(settings, stored, round));
    }
  }

  lemma NothingToCut(settings: Settings, stored: Option<Checkpoint>, round: Round)
    ensures var cut := ChosenCut(settings, stored, round);
      Cuttable(stored, round.contents) <==> cut.Some? && cut.value > 0
  {
    if Cuttable(stored, round.contents) {
      CheckpointAdvances(settings, stored, round);
    }
  }

  /** The consistency errors never occur; the third is reported exactly for a summary with nothing beside it. */
  lemma ErrorsOfCompaction(settings: Settings, stored: Option<Checkpoint>, round: Round)
    ensures var sent := Compact(settings, stored, round).sent;
      && sent != Err(BadSummaryCount) && sent != Err(BadAdvance)
      && (sent == Err(OverBudget) <==>
          && !FitsAsItIs(settings, stored, round)
          && Applies(stored, round.contents)
          && |Working(stored, round.contents)| < 2)
  {
  }

  class ContextCompactor {
    const settings: Settings
    /** The checkpoint kept in the session's state. */
    var stored: Option<Checkpoint>
    var lastSentContentsCount: nat
    /** The digest of the last content sent, modelled as that content. */
    var lastSentLast: Option<Content>
    var measuredPromptTokens: int
    /** The usage record kept in the session's state. */
    var storedUsage: Option<Usage>

    constructor (settings: Settings)
      ensures this.settings == settings && stored == None && lastSentContentsCount == 0 && storedUsage == None
    {
      this.settings := settings;
      stored, lastSentContentsCount, lastSentLast, measuredPromptTokens := None, 0, None, 0;
      storedUsage := None;
    }

    /** The record of this run. */
    function Measured(): Usage
      reads this
    {
      Usage(1, measuredPromptTokens, lastSentContentsCount, lastSentLast)
    }

    /** afterModel: a positive count reported for a recorded request is kept, here and, if it can be, in the session. */
    method AfterModel(reported: Option<int>, saves: bool)
      modifies this`measuredPromptTokens, this`storedUsage
      ensures var taken := lastSentContentsCount != 0 && reported.Some? && reported.value > 0;
        && measuredPromptTokens == (if taken then reported.value else old(measuredPromptTokens))
        && storedUsage == (if taken && saves then Some(Measured()) else old(storedUsage))
    {
      if lastSentContentsCount == 0 {
        return;
      }
      if reported.None? || reported.value <= 0 {
        return;
      }
      measuredPromptTokens := reported.value;
      if saves {
        storedUsage := Some(Measured());
      }
    }

    /** projectedInputTokens: from this run's record, or the session's, or 0 when neither is for these contents. */
    method ProjectedInputTokens(contents: seq<Content>, size: Content -> nat) returns (projected: nat)
      ensures projected == ProjectionOf(contents, size)
    {
      var record := Measured();
      if !ValidUsage(record, contents) {
        if storedUsage.None? || !ValidUsage(storedUsage.value, contents) {
          return 0;
        }
        record := storedUsage.value;
      }
      projected := record.promptTokens;
      for i := record.contentsCount to |contents|
        invariant projected + RetainedTokens(contents, size, i) == Projected(record, contents, size)
      {
        projected := projected + size(contents[i]);
      }
    }

    /** beforeModel: a request is sent as it is exactly while both the estimate and the projection are below the trigger. */
    method BeforeModel(round: Round) returns (sent: Result<seq<Content>, Failure>)
      requires settings.maxContextTokens > 0
      modifies this
      ensures var projected := old(ProjectionOf(Working(stored, round.contents), round.size));
        && Outcome(sent, stored) == BeforeSending(settings, old(stored), round, projected)
        && (Max(InputTokens(round, round.contents), projected) < TriggerTokens(settings, round) ==>
              sent == Ok(round.contents) && stored == old(stored))
      ensures round.summary != Some("") ==>
        if sent.Ok? then Answered(old(stored), stored, sent.value, round) else stored == old(stored)
      ensures sent.Ok? ==> Recorded(sent.value)
    {
      var inputTokens := EstimateInputTokens(round, round.contents);
      var prepared, found, prefixCount, inserted := Prepare(round.contents);
      var projectedTokens := ProjectedInputTokens(prepared.value, round.size);
      if Max(inputTokens, projectedTokens) < TriggerTokens(settings, round) {
        RecordSentRequest(round.contents);
        return Ok(round.contents);
      }
      sent := CompactRequest(round);
    }

    function ProjectionOf(contents: seq<Content>, size: Content -> nat): nat
      reads this
    {
      if ValidUsage(Measured(), contents) then Projected(Measured(), contents, size)
      else if storedUsage.Some? && ValidUsage(storedUsage.value, contents) then Projected(storedUsage.value, contents, size)
      else 0
    }

    /** The record names exactly the contents sent last, and has no measurement yet. */
    predicate Recorded(contents: seq<Content>)
      reads this
    {
      && lastSentContentsCount == |contents|
      && lastSentLast == (if contents == [] then None else Some(contents[|contents| - 1]))
      && measuredPromptTokens == 0
    }

    method RecordSentRequest(contents: seq<Content>)
      modifies this`lastSentContentsCount, this`lastSentLast, this`measuredPromptTokens
      ensures Recorded(contents)
    {
      lastSentContentsCount, lastSentLast, measuredPromptTokens := 0, None, 0;
      if |contents| == 0 {
        return;
      }
      lastSentContentsCount := |contents|;
      lastSentLast := Some(contents[|contents| - 1]);
    }

    method LoadCheckpoint(contents: seq<Content>) returns (checkpoint: Option<Checkpoint>)
      ensures checkpoint == if Applies(stored, contents) then stored else None
      ensures checkpoint.Some? <==>
        && stored.Some? && stored.value.version == 1 && stored.value.summary != Written("")
        && 0 < stored.value.prefixCount <= |contents|
        && contents[..stored.value.prefixCount] == stored.value.digest
    {
      if stored.None? {
        return None;
      }
      var c := stored.value;
      if c.version != 1 || c.prefixCount <= 0 || c.prefixCount > |contents| || c.summary == Written("") {
        return None;
      }
      if contents[..c.prefixCount] != c.digest {
        return None;
      }
      return Some(c);
    }

    method EstimateInputTokens(round: Round, contents: seq<Content>) returns (tokens: nat)
      ensures tokens == InputTokens(round, contents)
    {
      tokens := round.fixedTokens;
      for i := 0 to |contents|
        invariant tokens + RetainedTokens(contents, round.size, i) == InputTokens(round, contents)
      {
        tokens := tokens + round.size(contents[i]);
      }
    }

    /** The contents to work on: the history, or the checkpoint's summary with what follows it. */
    method Prepare(contents: seq<Content>)
      returns (r: Result<seq<Content>, Failure>, found: bool, prefixCount: nat, inserted: int)
      ensures r == Ok(Working(stored, contents)) && found == Applies(stored, contents)
      ensures prefixCount == Prefix(stored, contents)
      ensures inserted == if found then Inserted(contents[prefixCount..]) else 0
    {
      var checkpoint := LoadCheckpoint(contents);
      if checkpoint.None? {
        return Ok(contents), false, 0, 0;
      }
      prefixCount := checkpoint.value.prefixCount;
      var working := WithSummary(checkpoint.value.summary, contents[prefixCount..]);
      inserted := |working| - (|contents| - prefixCount);
      if inserted < 0 || inserted > 1 {
        assert false;
        return Err(BadSummaryCount), true, prefixCount, inserted;
      }
      return Ok(working), true, prefixCount, inserted;
    }

    method CompactRequest(round: Round) returns (sent: Result<seq<Content>, Failure>)
      modifies this
      ensures Outcome(sent, stored) == Compact(settings, old(stored), round)
      ensures round.summary != Some("") ==>
        if sent.Ok? then Answered(old(stored), stored, sent.value, round) else stored == old(stored)
      ensures sent.Ok? ==> Recorded(sent.value)
    {
      if round.summary != Some("") {
        CompactionAnswers(settings, stored, round);
      }
      var prepared, found, prefixCount, inserted := Prepare(round.contents);
      var working := prepared.value;
      if found {
        var compactedTokens := EstimateInputTokens(round, working);
        if compactedTokens < TriggerTokens(settings, round) {
          RecordSentRequest(working);
          return Ok(working);
        }
      }
      var cut := CompactionCut(working, round.size, SuffixBudget(settings, round), found);
      assert cut == ChosenCut(settings, stored, round);
      if cut.Some? && cut.value > 0 {
        assert Cuttable(stored, round.contents) by {
          NothingToCut(settings, stored, round);
        }
        CheckpointAdvances(settings, stored, round);
      }
      sent := Finish(round, working, found, prefixCount, inserted, cut);
    }

    method Finish(round: Round, working: seq<Content>, found: bool, prefixCount: nat, inserted: int, cut: Option<nat>)
      returns (sent: Result<seq<Content>, Failure>)
      requires working == Working(stored, round.contents)
      requires !found ==> prefixCount == 0 && inserted == 0
      requires cut.Some? && cut.value > 0 ==>
        && HistoryCut(stored, round.contents, cut.value) == prefixCount + cut.value - inserted
        && prefixCount < prefixCount + cut.value - inserted <= |round.contents|
      modifies this
      ensures Outcome(sent, stored) == CutDown(old(stored), round, cut)
      ensures sent.Ok? ==> Recorded(sent.value)
    {
      if cut.None? {
        return Err(OverBudget);
      }
      if cut.value <= 0 {
        RecordSentRequest(working);
        return Ok(working);
      }
      sent := Advance(round, prefixCount, cut.value, found, inserted);
    }

    /** The second half of compactRequest, from the cut on. */
    method Advance(round: Round, prefixCount: nat, cut: nat, found: bool, inserted: int)
      returns (sent: Result<seq<Content>, Failure>)
      requires !found ==> prefixCount == 0 && inserted == 0
      requires prefixCount < prefixCount + cut - inserted <= |round.contents|
      modifies this
      ensures Outcome(sent, stored) == Advanced(old(stored), round, prefixCount + cut - inserted)
      ensures sent.Ok? ==> Recorded(sent.value)
    {
      var newPrefixCount: int := cut;
      if found {
        newPrefixCount := prefixCount + cut - inserted;
      }
      if newPrefixCount <= prefixCount || newPrefixCount > |round.contents| {
        assert false;
        return Err(BadAdvance);
      }
      var summary := Fallback;
      if round.summary.Some? {
        summary := Written(round.summary.value);
      }
      if !round.saves {
        return Err(SaveFailed);
      }
      stored := Some(Checkpoint(1, newPrefixCount, round.contents[..newPrefixCount], summary));
      var contents := WithSummary(summary, round.contents[newPrefixCount..]);
      RecordSentRequest(contents);
      return Ok(contents);
    }
  }
}
