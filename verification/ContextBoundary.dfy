/** Where a conversation may be cut so that its older part can be replaced by a summary. */
module ContextBoundary {
  import opened Wrappers

  /** The text of a compacted prefix: what the summarizer wrote, or the fixed note that it could not. */
  datatype Summary = Written(text: string) | Fallback

  /** What else a part holds; a summary stands under a fixed heading. */
  datatype Body = Plain(text: string) | Compacted(summary: Summary)

  /** A part may carry a function call or a function response, each with its call's id. */
  datatype Part = Part(call: Option<string>, response: Option<string>, body: Body)

  datatype Content = Nil | Content(role: string, parts: seq<Part>)

  function Parts(c: Content): seq<Part> {
    if c.Nil? then [] else c.parts
  }

  /** The ids that bind a call to its result; an empty id binds nothing. */
  function CallIds(c: Content): set<string> {
    set i | 0 <= i < |Parts(c)| && Parts(c)[i].call.Some? && Parts(c)[i].call.value != "" :: Parts(c)[i].call.value
  }

  function ResponseIds(c: Content): set<string> {
    set i | 0 <= i < |Parts(c)| && Parts(c)[i].response.Some? :: Parts(c)[i].response.value
  }

  predicate HasResponse(c: Content) {
    exists i :: 0 <= i < |Parts(c)| && Parts(c)[i].response.Some?
  }

  /** No result at or after the cut belongs to a call before it. */
  predicate Separated(contents: seq<Content>, cut: nat) {
    forall i, j :: 0 <= i < cut <= j < |contents| ==> CallIds(contents[i]) !! ResponseIds(contents[j])
  }

  /** What safeContextCompactionBoundary decides. */
  predicate Safe(contents: seq<Content>, cut: int) {
    cut <= 0 || cut >= |contents| || (!HasResponse(contents[cut]) && Separated(contents, cut))
  }

  function PrefixCalls(contents: seq<Content>, n: nat): set<string>
    requires n <= |contents|
  {
    if n == 0 then {} else PrefixCalls(contents, n - 1) + CallIds(contents[n - 1])
  }

  lemma {:induction false} PrefixCallsAreCalls(contents: seq<Content>, n: nat, id: string)
    requires n <= |contents|
    ensures id in PrefixCalls(contents, n) <==> exists i :: 0 <= i < n && id in CallIds(contents[i])
  {
    if n > 0 {
      PrefixCallsAreCalls(contents, n - 1, id);
    }
  }

  lemma SeparatedByPrefixCalls(contents: seq<Content>, cut: nat)
    requires cut <= |contents|
    ensures Separated(contents, cut) <==>
      forall j :: cut <= j < |contents| ==> PrefixCalls(contents, cut) !! ResponseIds(contents[j])
  {
    forall id: string
      ensures id in PrefixCalls(contents, cut) <==> exists i :: 0 <= i < cut && id in CallIds(contents[i])
    {
      PrefixCallsAreCalls(contents, cut, id);
    }
  }

  /** The calls of one content, gathered part by part. */
  method GatherCalls(content: Content, prefixCalls: set<string>) returns (r: set<string>)
    ensures r == prefixCalls + CallIds(content)
  {
    r := prefixCalls;
    var parts := Parts(content);
    for k := 0 to |parts|
      invariant r == prefixCalls + set i | 0 <= i < k && parts[i].call.Some? && parts[i].call.value != "" ::
                  parts[i].call.value
    {
      if parts[k].call.Some? && parts[k].call.value != "" {
        r := r + {parts[k].call.value};
      }
    }
  }

  method CrossesInto(content: Content, prefixCalls: set<string>) returns (crosses: bool)
    ensures crosses <==> !(prefixCalls !! ResponseIds(content))
  {
    var parts := Parts(content);
    for k := 0 to |parts|
      invariant forall i :: 0 <= i < k && parts[i].response.Some? ==> parts[i].response.value !in prefixCalls
    {
      if parts[k].response.None? {
        continue;
      }
      if parts[k].response.value in prefixCalls {
        assert parts[k].response.value in ResponseIds(content);
        return true;
      }
    }
    return false;
  }

  method ContentHasFunctionResponse(content: Content) returns (has: bool)
    ensures has == HasResponse(content)
  {
    var parts := Parts(content);
    for k := 0 to |parts|
      invariant forall i :: 0 <= i < k ==> parts[i].response.None?
    {
      if parts[k].response.Some? {
        return true;
      }
    }
    return false;
  }

  method SafeBoundary(contents: seq<Content>, cut: int) returns (safe: bool)
    ensures safe == Safe(contents, cut)
  {
    if cut <= 0 || cut >= |contents| {
      return true;
    }
    var startsWithResponse := ContentHasFunctionResponse(contents[cut]);
    if startsWithResponse {
      return false;
    }
    SeparatedByPrefixCalls(contents, cut);
    var prefixCalls: set<string> := {};
    for i := 0 to cut
      invariant prefixCalls == PrefixCalls(contents, i)
    {
      prefixCalls := GatherCalls(contents[i], prefixCalls);
    }
    if |prefixCalls| == 0 {
      return true;
    }
    for j := cut to |contents|
      invariant forall k :: cut <= k < j ==> prefixCalls !! ResponseIds(contents[k])
    {
      var crosses := CrossesInto(contents[j], prefixCalls);
      if crosses {
        return false;
      }
    }
    return true;
  }

  // The cut

  /** The estimated size of what would be retained from index i on. */
  function RetainedTokens(contents: seq<Content>, size: Content -> nat, i: nat): nat
    requires i <= |contents|
    decreases |contents| - i
  {
    if i == |contents| then 0 else size(contents[i]) + RetainedTokens(contents, size, i + 1)
  }

  /** The longest tail within the budget, seen from index i. */
  function TokenFit(contents: seq<Content>, size: Content -> nat, budget: nat, i: nat): (fit: nat)
    requires i <= |contents|
    ensures fit <= i
  {
    if i == 0 || RetainedTokens(contents, size, i - 1) > budget then i
    else TokenFit(contents, size, budget, i - 1)
  }

  function FirstSafe(contents: seq<Content>, from: nat): (cut: nat)
    ensures cut <= |contents|
    decreases |contents| - from
  {
    if from >= |contents| then |contents|
    else if Safe(contents, from) then from
    else FirstSafe(contents, from + 1)
  }

  function MinimumCut(hasCheckpoint: bool): nat {
    if hasCheckpoint then 2 else 1
  }

  function Cut(contents: seq<Content>, size: Content -> nat, budget: nat, hasCheckpoint: bool): nat {
    FirstSafe(contents, Max(TokenFit(contents, size, budget, |contents|), MinimumCut(hasCheckpoint)))
  }

  /** A cut that meets the minimum, leaves a tail within the budget and splits no call from its result. */
  predicate Acceptable(contents: seq<Content>, size: Content -> nat, budget: nat, hasCheckpoint: bool, cut: nat) {
    && MinimumCut(hasCheckpoint) <= cut <= |contents|
    && RetainedTokens(contents, size, cut) <= budget
    && Safe(contents, cut)
  }

  /** compactionCut; None is the error of a checkpoint with nothing left to summarize beside it. */
  method CompactionCut(contents: seq<Content>, size: Content -> nat, budget: nat, hasCheckpoint: bool)
    returns (result: Option<nat>)
    ensures result ==
      if hasCheckpoint && |contents| < 2 then None else Some(Cut(contents, size, budget, hasCheckpoint))
  {
    var cut := |contents|;
    var suffixTokens := 0;
    var index := |contents|;
    while index > 0
      invariant 0 <= index <= |contents| && cut == index
      invariant suffixTokens == RetainedTokens(contents, size, index)
      invariant TokenFit(contents, size, budget, |contents|) == TokenFit(contents, size, budget, index)
    {
      var contentTokens := size(contents[index - 1]);
      if suffixTokens + contentTokens > budget {
        break;
      }
      suffixTokens := suffixTokens + contentTokens;
      index := index - 1;
      cut := index;
    }
    assert cut == TokenFit(contents, size, budget, |contents|);
    cut := Max(cut, MinimumCut(hasCheckpoint));
    ghost var least := cut;
    while cut < |contents|
      invariant FirstSafe(contents, cut) == FirstSafe(contents, least)
      decreases |contents| - cut
    {
      var safe := SafeBoundary(contents, cut);
      if safe {
        break;
      }
      cut := cut + 1;
    }
    if cut > |contents| {
      cut := |contents|;
    }
    if hasCheckpoint && |contents| < 2 {
      return None;
    }
    return Some(cut);
  }

  /** What is retained counts every content once, with its own size. */
  lemma {:induction false} RetainedAdds(a: seq<Content>, c: Content, b: seq<Content>, size: Content -> nat)
    ensures RetainedTokens(a + [c] + b, size, |a|) == size(c) + RetainedTokens(a + [c] + b, size, |a| + 1)
    ensures RetainedTokens(a, size, |a|) == 0
  {
    assert (a + [c] + b)[|a|] == c;
  }

  lemma {:induction false} RetainedShrinks(contents: seq<Content>, size: Content -> nat, i: nat, j: nat)
    requires i <= j <= |contents|
    ensures RetainedTokens(contents, size, j) <= RetainedTokens(contents, size, i)
    decreases j - i
  {
    if i < j {
      RetainedShrinks(contents, size, i + 1, j);
    }
  }

  lemma {:induction false} TokenFitIsLeast(contents: seq<Content>, size: Content -> nat, budget: nat, i: nat, c: nat)
    requires i <= |contents| && RetainedTokens(contents, size, i) <= budget && c <= i
    ensures var fit := TokenFit(contents, size, budget, i);
      c >= fit <==> RetainedTokens(contents, size, c) <= budget
  {
    if i > 0 {
      if RetainedTokens(contents, size, i - 1) > budget {
        if c < i {
          RetainedShrinks(contents, size, c, i - 1);
        }
      } else {
        if c == i {
          RetainedShrinks(contents, size, TokenFit(contents, size, budget, i - 1), i);
        } else {
          TokenFitIsLeast(contents, size, budget, i - 1, c);
        }
      }
    }
  }

  lemma {:induction false} FirstSafeIsLeast(contents: seq<Content>, from: nat, c: nat)
    requires from <= |contents|
    ensures from <= FirstSafe(contents, from) && Safe(contents, FirstSafe(contents, from))
    ensures from <= c < FirstSafe(contents, from) ==> !Safe(contents, c)
    decreases |contents| - from
  {
    if from < |contents| && !Safe(contents, from) {
      FirstSafeIsLeast(contents, from + 1, c);
    }
  }

  /** The cut is the least acceptable one, or everything when there is none, and its tail is within the budget. */
  lemma CutIsLeast(contents: seq<Content>, size: Content -> nat, budget: nat, hasCheckpoint: bool, c: nat)
    requires |contents| >= MinimumCut(hasCheckpoint)
    ensures var cut := Cut(contents, size, budget, hasCheckpoint);
      && Acceptable(contents, size, budget, hasCheckpoint, cut)
      && (Acceptable(contents, size, budget, hasCheckpoint, c) ==> cut <= c)
  {
    var fit := TokenFit(contents, size, budget, |contents|);
    var cut := Cut(contents, size, budget, hasCheckpoint);
    FirstSafeIsLeast(contents, Max(fit, MinimumCut(hasCheckpoint)), c);
    TokenFitIsLeast(contents, size, budget, |contents|, cut);
    if c <= |contents| {
      TokenFitIsLeast(contents, size, budget, |contents|, c);
    }
  }
}
