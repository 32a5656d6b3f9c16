/**
 Keeping long-running delegations out of the responses that carry ordinary tool calls. A response that mixes
 both is split: the ordinary part is delivered at once, the delegations wait for the next model call.
 */
module ToolBatch {
  import opened Wrappers
  import opened DelegationSchedule

  datatype Call = Call(id: string, name: string)

  /** An item of the provider context preserved in a part's thought signature. */
  datatype ContextItem = CallItem(id: string, raw: string) | OtherItem(raw: string) | Unreadable

  datatype Signature = Plain(text: string) | Preserved(output: seq<ContextItem>) | Garbled

  /** Absent is a nil part; a present one may carry a function call. */
  datatype Part = Absent | Present(call: Option<Call>, signature: Signature, rest: string)

  datatype Response = Response(
    partial: bool,
    parts: Option<seq<Part>>,
    modelVersion: string,
    turnComplete: bool,
    finishReason: string,
    usage: Option<int>)

  datatype Failure = FromModel(message: string) | SplitFailed | AlreadyPending | Cancelled

  /** What an iteration yields: an error, or a response that may be nil. */
  datatype Reply = Failed(failure: Failure) | Replied(response: Option<Response>)

  datatype Split = Split(immediate: Option<Response>, deferred: Option<Response>)

  predicate IsDelegation(part: Part, delegations: set<string>) {
    part.Present? && part.call.Some? && part.call.value.name in delegations
  }

  predicate IsOrdinaryCall(part: Part, delegations: set<string>) {
    part.Present? && part.call.Some? && part.call.value.name !in delegations
  }

  predicate Mixed(parts: seq<Part>, delegations: set<string>) {
    && (exists i :: 0 <= i < |parts| && IsDelegation(parts[i], delegations))
    && (exists i :: 0 <= i < |parts| && IsOrdinaryCall(parts[i], delegations))
  }

  function Delegations(parts: seq<Part>, delegations: set<string>): seq<Part> {
    if parts == [] then []
    else
      var last := parts[|parts| - 1];
      var rest := Delegations(parts[..|parts| - 1], delegations);
      if IsDelegation(last, delegations) then rest + [last] else rest
  }

  function Others(parts: seq<Part>, delegations: set<string>): seq<Part> {
    if parts == [] then []
    else
      var last := parts[|parts| - 1];
      var rest := Others(parts[..|parts| - 1], delegations);
      if IsDelegation(last, delegations) then rest else rest + [last]
  }

  function Ids(parts: seq<Part>): set<string> {
    set i | 0 <= i < |parts| && parts[i].Present? && parts[i].call.Some? :: parts[i].call.value.id
  }

  function Calls(parts: seq<Part>): seq<Call> {
    if parts == [] then []
    else
      var last := parts[|parts| - 1];
      var rest := Calls(parts[..|parts| - 1]);
      if last.Present? && last.call.Some? then rest + [last.call.value] else rest
  }

  // Preserved provider context

  function Kept(items: seq<ContextItem>, excluded: set<string>): seq<ContextItem> {
    if items == [] then []
    else
      var last := items[|items| - 1];
      var rest := Kept(items[..|items| - 1], excluded);
      if last.CallItem? && last.id in excluded then rest else rest + [last]
  }

  predicate Decodes(part: Part) {
    part.Present? ==> !part.signature.Garbled? && (part.signature.Preserved? ==> Unreadable !in part.signature.output)
  }

  function Filtered(part: Part, excluded: set<string>): Part {
    if part.Present? && part.signature.Preserved?
    then part.(signature := Preserved(Kept(part.signature.output, excluded)))
    else part
  }

  function FilteredAll(parts: seq<Part>, excluded: set<string>): (r: seq<Part>)
    ensures |r| == |parts| && forall i :: 0 <= i < |parts| ==> r[i] == Filtered(parts[i], excluded)
  {
    seq(|parts|, i requires 0 <= i < |parts| => Filtered(parts[i], excluded))
  }

  lemma {:induction false} KeptIsAllOthers(items: seq<ContextItem>, excluded: set<string>)
    ensures multiset(Kept(items, excluded)) <= multiset(items)
    ensures forall item :: item in Kept(items, excluded) <==>
      item in items && !(item.CallItem? && item.id in excluded)
  {
    if items != [] {
      KeptIsAllOthers(items[..|items| - 1], excluded);
      assert items == items[..|items| - 1] + [items[|items| - 1]];
    }
  }

  method KeepItems(items: seq<ContextItem>, excluded: set<string>) returns (result: Option<seq<ContextItem>>)
    ensures result == if Unreadable in items then None else Some(Kept(items, excluded))
  {
    var kept: seq<ContextItem> := [];
    for i := 0 to |items|
      invariant Unreadable !in items[..i]
      invariant kept == Kept(items[..i], excluded)
    {
      assert items[..i + 1][..i] == items[..i];
      if items[i] == Unreadable {
        assert items[i] in items;
        return None;
      }
      if !(items[i].CallItem? && items[i].id in excluded) {
        kept := kept + [items[i]];
      }
    }
    assert items[..|items|] == items;
    return Some(kept);
  }

  /** FilterPreservedResponseFunctionCalls, on the cloned parts of the immediate response. */
  method FilterPreserved(parts: seq<Part>, excluded: set<string>) returns (result: Option<seq<Part>>)
    requires excluded != {}
    ensures result.Some? <==> forall i :: 0 <= i < |parts| ==> Decodes(parts[i])
    ensures result.Some? ==> result.value == FilteredAll(parts, excluded)
  {
    var filtered := parts;
    for i := 0 to |parts|
      invariant |filtered| == |parts|
      invariant forall k :: 0 <= k < i ==> Decodes(parts[k]) && filtered[k] == Filtered(parts[k], excluded)
      invariant forall k :: i <= k < |parts| ==> filtered[k] == parts[k]
    {
      var part := parts[i];
      if part.Absent? || part.signature.Plain? {
        continue;
      }
      if part.signature.Garbled? {
        assert !Decodes(parts[i]);
        return None;
      }
      var kept := KeepItems(part.signature.output, excluded);
      if kept.None? {
        assert !Decodes(parts[i]);
        return None;
      }
      filtered := filtered[i := part.(signature := Preserved(kept.value))];
    }
    assert filtered == FilteredAll(parts, excluded);
    return Some(filtered);
  }

  // The split of one response

  predicate Splits(response: Option<Response>, delegations: set<string>) {
    response.Some? && !response.value.partial && response.value.parts.Some?
    && Mixed(response.value.parts.value, delegations)
  }

  predicate Splittable(response: Option<Response>, delegations: set<string>) {
    Splits(response, delegations) ==>
      forall part :: part in Others(response.value.parts.value, delegations) ==> Decodes(part)
  }

  function Immediate(response: Response, delegations: set<string>): Response
    requires response.parts.Some?
  {
    var parts := response.parts.value;
    response.(parts := Some(FilteredAll(Others(parts, delegations), Ids(Delegations(parts, delegations)))))
  }

  function Deferred(response: Response, delegations: set<string>): Response
    requires response.parts.Some?
  {
    Response(false, Some(Delegations(response.parts.value, delegations)), response.modelVersion, true,
             response.finishReason, None)
  }

  /** How the wrapper treats one item of the wrapped model's stream. */
  function Divide(reply: Reply, delegations: set<string>): Piece<Reply> {
    if reply.Failed? then Ending(reply)
    else if !Splits(reply.response, delegations) then Whole(reply)
    else if !Splittable(reply.response, delegations) then Ending(Failed(SplitFailed))
    else
      Halves(Replied(Some(Immediate(reply.response.value, delegations))),
             Replied(Some(Deferred(reply.response.value, delegations))))
  }

  method SplitMixedToolBatch(response: Option<Response>, delegations: set<string>)
    returns (result: Option<Split>)
    ensures result.Some? <==> Splittable(response, delegations)
    ensures result.Some? && !Splits(response, delegations) ==> result.value == Split(response, None)
    ensures result.Some? && Splits(response, delegations) ==>
      result.value == Split(Some(Immediate(response.value, delegations)), Some(Deferred(response.value, delegations)))
  {
    if response.None? || response.value.partial || response.value.parts.None? {
      return Some(Split(response, None));
    }
    var parts := response.value.parts.value;
    var hasDelegation, hasOrdinaryCall := false, false;
    for i := 0 to |parts|
      invariant hasDelegation <==> exists k :: 0 <= k < i && IsDelegation(parts[k], delegations)
      invariant hasOrdinaryCall <==> exists k :: 0 <= k < i && IsOrdinaryCall(parts[k], delegations)
    {
      if parts[i].Absent? || parts[i].call.None? {
        continue;
      }
      if parts[i].call.value.name in delegations {
        hasDelegation := true;
      } else {
        hasOrdinaryCall := true;
      }
    }
    if !hasDelegation || !hasOrdinaryCall {
      return Some(Split(response, None));
    }
    result := Separate(response.value, delegations);
  }

  /** The second half of splitMixedToolBatch: both responses are built from the mixed one. */
  method Separate(response: Response, delegations: set<string>) returns (result: Option<Split>)
    requires Splits(Some(response), delegations)
    ensures result.Some? <==> Splittable(Some(response), delegations)
    ensures result.Some? ==>
      result.value == Split(Some(Immediate(response, delegations)), Some(Deferred(response, delegations)))
  {
    var parts := response.parts.value;
    var immediateParts: seq<Part>, deferredParts: seq<Part>, deferredIds: set<string> := [], [], {};
    for i := 0 to |parts|
      invariant immediateParts == Others(parts[..i], delegations)
      invariant deferredParts == Delegations(parts[..i], delegations)
      invariant deferredIds == Ids(deferredParts)
    {
      assert parts[..i + 1][..i] == parts[..i];
      if IsDelegation(parts[i], delegations) {
        IdsSnoc(deferredParts, parts[i]);
        deferredParts := deferredParts + [parts[i]];
        deferredIds := deferredIds + {parts[i].call.value.id};
      } else {
        immediateParts := immediateParts + [parts[i]];
      }
    }
    assert parts[..|parts|] == parts;
    MixedHasBoth(parts, delegations);
    assert IsDelegation(deferredParts[0], delegations);
    assert deferredParts[0].call.value.id in deferredIds;
    var filtered := FilterPreserved(immediateParts, deferredIds);
    if filtered.None? {
      return None;
    }
    var immediate := response.(parts := filtered);
    var deferred := Response(false, Some(deferredParts), response.modelVersion, true, response.finishReason, None);
    return Some(Split(Some(immediate), Some(deferred)));
  }

  lemma IdsSnoc(parts: seq<Part>, part: Part)
    requires part.Present? && part.call.Some?
    ensures Ids(parts + [part]) == Ids(parts) + {part.call.value.id}
  {
    forall id | id in Ids(parts)
      ensures id in Ids(parts + [part])
    {
      var i :| 0 <= i < |parts| && parts[i].Present? && parts[i].call.Some? && parts[i].call.value.id == id;
      assert (parts + [part])[i] == parts[i];
    }
    assert (parts + [part])[|parts|] == part;
  }

  lemma {:induction false} DelegationsAreDelegations(parts: seq<Part>, delegations: set<string>)
    ensures forall part :: part in Delegations(parts, delegations) <==> part in parts && IsDelegation(part, delegations)
    ensures forall part :: part in Others(parts, delegations) <==> part in parts && !IsDelegation(part, delegations)
    ensures multiset(Delegations(parts, delegations)) + multiset(Others(parts, delegations)) == multiset(parts)
  {
    if parts != [] {
      DelegationsAreDelegations(parts[..|parts| - 1], delegations);
      assert parts == parts[..|parts| - 1] + [parts[|parts| - 1]];
    }
  }

  lemma MixedHasBoth(parts: seq<Part>, delegations: set<string>)
    requires Mixed(parts, delegations)
    ensures |Delegations(parts, delegations)| > 0
    ensures forall part :: part in Delegations(parts, delegations) ==> IsDelegation(part, delegations)
    ensures exists part :: part in Others(parts, delegations) && IsOrdinaryCall(part, delegations)
  {
    DelegationsAreDelegations(parts, delegations);
    var i :| 0 <= i < |parts| && IsDelegation(parts[i], delegations);
    assert parts[i] in Delegations(parts, delegations);
    var j :| 0 <= j < |parts| && IsOrdinaryCall(parts[j], delegations);
    assert parts[j] in Others(parts, delegations);
  }

  // Laws of the split

  /** The calls whose names are, or are not, delegations, in order. */
  function Select(calls: seq<Call>, delegations: set<string>, wanted: bool): seq<Call> {
    if calls == [] then []
    else
      var last := calls[|calls| - 1];
      var rest := Select(calls[..|calls| - 1], delegations, wanted);
      if (last.name in delegations) == wanted then rest + [last] else rest
  }

  lemma {:induction false} SelectIsPartition(calls: seq<Call>, delegations: set<string>)
    ensures multiset(Select(calls, delegations, true)) + multiset(Select(calls, delegations, false)) == multiset(calls)
  {
    if calls != [] {
      SelectIsPartition(calls[..|calls| - 1], delegations);
      assert calls == calls[..|calls| - 1] + [calls[|calls| - 1]];
    }
  }

  lemma SelectSnoc(calls: seq<Call>, call: Call, delegations: set<string>, wanted: bool)
    ensures var rest := Select(calls, delegations, wanted);
      Select(calls + [call], delegations, wanted) ==
        if (call.name in delegations) == wanted then rest + [call] else rest
  {
  }

  lemma CallsSnoc(parts: seq<Part>, part: Part)
    ensures Calls(parts + [part]) ==
      if part.Present? && part.call.Some? then Calls(parts) + [part.call.value] else Calls(parts)
  {
  }

  lemma {:induction false} CallsOfDelegations(parts: seq<Part>, delegations: set<string>)
    ensures Calls(Delegations(parts, delegations)) == Select(Calls(parts), delegations, true)
  {
    if parts != [] {
      var init, last := parts[..|parts| - 1], parts[|parts| - 1];
      CallsOfDelegations(init, delegations);
      CallsSnoc(Delegations(init, delegations), last);
      if last.Present? && last.call.Some? {
        SelectSnoc(Calls(init), last.call.value, delegations, true);
      }
    }
  }

  lemma {:induction false} CallsOfOthers(parts: seq<Part>, delegations: set<string>)
    ensures Calls(Others(parts, delegations)) == Select(Calls(parts), delegations, false)
  {
    if parts != [] {
      var init, last := parts[..|parts| - 1], parts[|parts| - 1];
      CallsOfOthers(init, delegations);
      CallsSnoc(Others(init, delegations), last);
      if last.Present? && last.call.Some? {
        SelectSnoc(Calls(init), last.call.value, delegations, false);
      }
    }
  }

  lemma {:induction false} FilteringKeepsCalls(parts: seq<Part>, excluded: set<string>)
    ensures Calls(FilteredAll(parts, excluded)) == Calls(parts)
  {
    if parts != [] {
      var init := parts[..|parts| - 1];
      FilteringKeepsCalls(init, excluded);
      assert FilteredAll(parts, excluded)[..|parts| - 1] == FilteredAll(init, excluded);
    }
  }

  lemma ImmediateIsUnmixed(response: Response, delegations: set<string>)
    requires response.parts.Some?
    ensures !Splits(Some(Immediate(response, delegations)), delegations)
  {
    var parts := response.parts.value;
    var now := Immediate(response, delegations).parts.value;
    DelegationsAreDelegations(parts, delegations);
    forall i | 0 <= i < |now|
      ensures !IsDelegation(now[i], delegations)
    {
      assert Others(parts, delegations)[i] in Others(parts, delegations);
    }
  }

  /** The deferred half holds delegations only, and at least one call. */
  lemma DeferredHoldsDelegations(response: Response, delegations: set<string>)
    requires Splits(Some(response), delegations)
    ensures !Splits(Some(Deferred(response, delegations)), delegations)
    ensures |Calls(Deferred(response, delegations).parts.value)| > 0
  {
    var later := Delegations(response.parts.value, delegations);
    MixedHasBoth(response.parts.value, delegations);
    assert later[|later| - 1] in later;
    forall i | 0 <= i < |later|
      ensures !IsOrdinaryCall(later[i], delegations)
    {
      assert later[i] in later;
    }
  }

  /** A split loses nothing: each half holds the calls of its kind in their order, and all other parts come now. */
  lemma SplitIsPartition(response: Response, delegations: set<string>)
    requires response.parts.Some?
    ensures var calls := Calls(response.parts.value);
      var now, later := Immediate(response, delegations).parts.value, Deferred(response, delegations).parts.value;
      && Calls(now) == Select(calls, delegations, false)
      && Calls(later) == Select(calls, delegations, true)
      && multiset(Calls(now)) + multiset(Calls(later)) == multiset(calls)
      && |now| + |later| == |response.parts.value|
  {
    var parts := response.parts.value;
    CallsOfDelegations(parts, delegations);
    CallsOfOthers(parts, delegations);
    SelectIsPartition(Calls(parts), delegations);
    FilteringKeepsCalls(Others(parts, delegations), Ids(Delegations(parts, delegations)));
    PartsAreCounted(parts, delegations);
  }

  lemma {:induction false} PartsAreCounted(parts: seq<Part>, delegations: set<string>)
    ensures |Others(parts, delegations)| + |Delegations(parts, delegations)| == |parts|
  {
    if parts != [] {
      PartsAreCounted(parts[..|parts| - 1], delegations);
    }
  }

  /**
   Both halves are whole responses of the same model; the deferred one ends the turn, and the usage is reported once,
   with the ordinary one, which is otherwise as it came.
   */
  lemma HalvesAreComplete(response: Response, delegations: set<string>)
    requires Splits(Some(response), delegations)
    ensures var now, later := Immediate(response, delegations), Deferred(response, delegations);
      && now == response.(parts := now.parts) && now.parts.Some? && later.parts.Some?
      && !later.partial && later.turnComplete && later.usage == None
      && later.modelVersion == response.modelVersion && later.finishReason == response.finishReason
      && forall i :: 0 <= i < |later.parts.value| ==> later.parts.value[i] in response.parts.value
  {
    DelegationsAreDelegations(response.parts.value, delegations);
    var later := Delegations(response.parts.value, delegations);
    forall i | 0 <= i < |later|
      ensures later[i] in response.parts.value
    {
      assert later[i] in later;
    }
  }

  /** The context preserved beside the ordinary half mentions no deferred call, and drops nothing else. */
  lemma ContextForgetsDeferredCalls(response: Response, delegations: set<string>, i: nat, item: ContextItem)
    requires Splits(Some(response), delegations)
    requires i < |Others(response.parts.value, delegations)|
    requires Others(response.parts.value, delegations)[i].Present?
    requires Others(response.parts.value, delegations)[i].signature.Preserved?
    ensures var before := Others(response.parts.value, delegations)[i];
      var after := Immediate(response, delegations).parts.value[i];
      var deferred := Ids(Deferred(response, delegations).parts.value);
      && after == before.(signature := after.signature) && after.signature.Preserved?
      && (item in after.signature.output <==>
          item in before.signature.output && !(item.CallItem? && item.id in deferred))
  {
    var before := Others(response.parts.value, delegations)[i];
    KeptIsAllOthers(before.signature.output, Ids(Delegations(response.parts.value, delegations)));
  }

  // Laws of runs

  function CallsOf(reply: Reply): seq<Call> {
    if reply.Replied? && reply.response.Some? && !reply.response.value.partial && reply.response.value.parts.Some?
    then Calls(reply.response.value.parts.value)
    else []
  }

  function BatchRules(delegations: set<string>): Rules<Reply, Call> {
    Rules(reply => Divide(reply, delegations), reply => multiset(CallsOf(reply)), Failed(Cancelled))
  }

  predicate Unmixed(reply: Reply, delegations: set<string>) {
    reply.Replied? ==> !Splits(reply.response, delegations)
  }

  lemma PiecesAreUnmixed(reply: Reply, delegations: set<string>)
    ensures forall piece :: piece in Expand(Divide(reply, delegations)) ==>
      Unmixed(piece, delegations) && (piece == Failed(AlreadyPending) ==> piece == reply)
  {
    if Divide(reply, delegations).Halves? {
      ImmediateIsUnmixed(reply.response.value, delegations);
      DeferredHoldsDelegations(reply.response.value, delegations);
    }
  }

  lemma {:induction false} ExpansionIsUnmixed(replies: seq<Reply>, delegations: set<string>, piece: Reply)
    requires piece in ExpandAll(BatchRules(delegations), replies)
    ensures Unmixed(piece, delegations) && (piece == Failed(AlreadyPending) ==> piece in replies)
  {
    var init, last := replies[..|replies| - 1], replies[|replies| - 1];
    if piece in ExpandAll(BatchRules(delegations), init) {
      ExpansionIsUnmixed(init, delegations, piece);
    } else {
      PiecesAreUnmixed(last, delegations);
    }
  }

  lemma BatchesHoldDelegations(delegations: set<string>)
    ensures BatchesCarryCalls(BatchRules(delegations))
  {
    var rules := BatchRules(delegations);
    forall reply | rules.split(reply).Halves?
      ensures rules.calls(rules.split(reply).later) != multiset{}
    {
      DeferredHoldsDelegations(reply.response.value, delegations);
      assert rules.split(reply) == Divide(reply, delegations);
      var later := rules.split(reply).later;
      assert CallsOf(later)[0] in multiset(CallsOf(later));
    }
  }

  lemma HalvesCount(response: Response, delegations: set<string>, call: Call)
    requires response.parts.Some?
    ensures multiset(Calls(Immediate(response, delegations).parts.value))[call] +
      multiset(Calls(Deferred(response, delegations).parts.value))[call] == multiset(Calls(response.parts.value))[call]
  {
    SplitIsPartition(response, delegations);
  }

  /** A split delivers every call of the response: now or in the batch held back. */
  lemma PiecesKeepCalls(reply: Reply, delegations: set<string>, call: Call)
    requires reply.Replied? ==> Splittable(reply.response, delegations)
    ensures Count(BatchRules(delegations), Expand(Divide(reply, delegations)), call) == multiset(CallsOf(reply))[call]
  {
    var rules, piece := BatchRules(delegations), Divide(reply, delegations);
    if piece.Halves? {
      HalvesCount(reply.response.value, delegations, call);
      CountPair(rules, piece.now, piece.later, call);
    } else {
      assert [reply][..0] == [];
    }
  }

  lemma CountPair<R, C>(rules: Rules<R, C>, a: R, b: R, call: C)
    ensures Count(rules, [a, b], call) == rules.calls(a)[call] + rules.calls(b)[call]
  {
    assert [a][..0] == [];
    assert Count(rules, [a], call) == rules.calls(a)[call];
    assert [a, b][..1] == [a];
  }

  lemma {:induction false} ExpansionKeepsCalls(replies: seq<Reply>, delegations: set<string>, call: Call)
    requires forall reply :: reply in replies && reply.Replied? ==> Splittable(reply.response, delegations)
    ensures Count(BatchRules(delegations), ExpandAll(BatchRules(delegations), replies), call) ==
      Count(BatchRules(delegations), replies, call)
  {
    if replies != [] {
      var rules, init, last := BatchRules(delegations), replies[..|replies| - 1], replies[|replies| - 1];
      ExpansionKeepsCalls(init, delegations, call);
      CountConcat(rules, ExpandAll(rules, init), Expand(Divide(last, delegations)), call);
      assert last in replies;
      PiecesKeepCalls(last, delegations, call);
    }
  }

  /** Every complete response read can be split: its preserved context decodes. */
  predicate ReadsDecode(s: Scheduler<Reply>, delegations: set<string>) {
    forall reply :: reply in s.consumed && reply.Replied? ==> Splittable(reply.response, delegations)
  }

  /** A reply is passed on with all its calls, or, when it cannot be split, with none of the calls it has. */
  lemma PieceCounts(reply: Reply, delegations: set<string>, call: Call)
    ensures var passed := Count(BatchRules(delegations), Expand(Divide(reply, delegations)), call);
      passed <= multiset(CallsOf(reply))[call] &&
      (reply.Replied? && !Splittable(reply.response, delegations) ==> passed == 0)
  {
    if reply.Replied? && !Splittable(reply.response, delegations) {
      CountOne(BatchRules(delegations), Failed(SplitFailed), call);
    } else {
      PiecesKeepCalls(reply, delegations, call);
    }
  }

  lemma UnsplittableHasCalls(reply: Reply, delegations: set<string>) returns (call: Call)
    requires reply.Replied? && !Splittable(reply.response, delegations)
    ensures multiset(CallsOf(reply))[call] > 0
  {
    DeferredHoldsDelegations(reply.response.value, delegations);
    SplitIsPartition(reply.response.value, delegations);
    var deferred := Calls(Deferred(reply.response.value, delegations).parts.value);
    call := deferred[0];
    assert call in multiset(deferred);
  }

  lemma {:induction false} ExpansionAddsNothing(replies: seq<Reply>, delegations: set<string>, call: Call)
    ensures Count(BatchRules(delegations), ExpandAll(BatchRules(delegations), replies), call) <=
      Count(BatchRules(delegations), replies, call)
  {
    if replies != [] {
      var rules, init, last := BatchRules(delegations), replies[..|replies| - 1], replies[|replies| - 1];
      ExpansionAddsNothing(init, delegations, call);
      CountConcat(rules, ExpandAll(rules, init), Expand(Divide(last, delegations)), call);
      PieceCounts(last, delegations, call);
    }
  }

  /** A reply that cannot be split takes its calls with it. */
  lemma {:induction false} ExpansionLoses(replies: seq<Reply>, delegations: set<string>, reply: Reply, call: Call)
    requires reply in replies && reply.Replied? && !Splittable(reply.response, delegations)
    requires multiset(CallsOf(reply))[call] > 0
    ensures Count(BatchRules(delegations), ExpandAll(BatchRules(delegations), replies), call) <
      Count(BatchRules(delegations), replies, call)
  {
    var rules, init, last := BatchRules(delegations), replies[..|replies| - 1], replies[|replies| - 1];
    CountConcat(rules, ExpandAll(rules, init), Expand(Divide(last, delegations)), call);
    PieceCounts(last, delegations, call);
    if reply in init {
      ExpansionLoses(init, delegations, reply, call);
    } else {
      ExpansionAddsNothing(init, delegations, call);
    }
  }

  /** Of these replies, each function call is yielded once or still waits. */
  ghost predicate DeliversCallsOf(rules: Rules<Reply, Call>, s: Scheduler<Reply>, replies: seq<Reply>) {
    forall call ::
      Count(rules, s.delivered, call) + Count(rules, Waiting(s.pending), call) == Count(rules, replies, call)
  }

  /**
   Over all sequential calls, each function call of the complete responses that were read is yielded exactly once
   or still waits, exactly when no cancelled call takes a waiting batch and every mixed response can be split.
   */
  lemma EveryCallIsDeliveredOnce(delegations: set<string>, requests: seq<Request<Reply>>)
    ensures var rules := BatchRules(delegations);
      var s := Run(rules, requests);
      DeliversCallsOf(rules, s, s.consumed) <==> KeepsBatches(rules, requests) && ReadsDecode(s, delegations)
  {
    var rules := BatchRules(delegations);
    var s := Run(rules, requests);
    OnlyCancellationTakesBatches(delegations, requests);
    if !ReadsDecode(s, delegations) {
      var reply :| reply in s.consumed && reply.Replied? && !Splittable(reply.response, delegations);
      var call := UnsplittableHasCalls(reply, delegations);
      ExpansionLoses(s.consumed, delegations, reply, call);
      CallsAreConserved(rules, requests, call);
    } else if !KeepsBatches(rules, requests) {
      var call := LostBatchHasCalls(rules, s.lost);
      ExpansionAddsNothing(s.consumed, delegations, call);
      CallsAreConserved(rules, requests, call);
    } else {
      forall call
        ensures Count(rules, s.delivered, call) + Count(rules, Waiting(s.pending), call) ==
          Count(rules, s.consumed, call)
      {
        ExpansionKeepsCalls(s.consumed, delegations, call);
        CallsAreConserved(rules, requests, call);
      }
    }
  }

  lemma LostBatchHasCalls(rules: Rules<Reply, Call>, lost: seq<Reply>) returns (call: Call)
    requires lost != [] && CarriesCalls(rules, lost)
    ensures Count(rules, lost, call) > 0
  {
    var last := lost[|lost| - 1];
    call :| call in rules.calls(last);
  }

  ghost predicate HasNoCalls(rules: Rules<Reply, Call>, replies: seq<Reply>) {
    forall call :: Count(rules, replies, call) == 0
  }

  /** What is offered is read or left unread, and no more is yielded or waits than was read. */
  ghost predicate ReadOrUnread(rules: Rules<Reply, Call>, requests: seq<Request<Reply>>, call: Call) {
    var s := Run(rules, requests);
    && Count(rules, Offered(rules, requests), call) ==
         Count(rules, s.consumed, call) + Count(rules, Unread(rules, requests), call)
    && Count(rules, s.delivered, call) + Count(rules, Waiting(s.pending), call) <= Count(rules, s.consumed, call)
  }

  lemma SplitsAddUp(rules: Rules<Reply, Call>, requests: seq<Request<Reply>>)
    requires forall call :: ReadOrUnread(rules, requests, call)
    ensures var s := Run(rules, requests);
      DeliversCallsOf(rules, s, Offered(rules, requests)) <==>
        DeliversCallsOf(rules, s, s.consumed) && HasNoCalls(rules, Unread(rules, requests))
  {
    var s, offered, unread := Run(rules, requests), Offered(rules, requests), Unread(rules, requests);
    if DeliversCallsOf(rules, s, offered) {
      forall call
        ensures Count(rules, unread, call) == 0
        ensures Count(rules, s.delivered, call) + Count(rules, Waiting(s.pending), call) == Count(rules, s.consumed, call)
      {
        assert ReadOrUnread(rules, requests, call);
        assert Count(rules, s.delivered, call) + Count(rules, Waiting(s.pending), call) == Count(rules, offered, call);
      }
    }
    if DeliversCallsOf(rules, s, s.consumed) && HasNoCalls(rules, unread) {
      forall call
        ensures Count(rules, s.delivered, call) + Count(rules, Waiting(s.pending), call) == Count(rules, offered, call)
      {
        assert ReadOrUnread(rules, requests, call);
        assert Count(rules, unread, call) == 0;
      }
    }
  }

  /**
   Of everything the wrapped model streams to the calls, each function call arrives exactly when, besides, nothing
   that is left unread after a split, an error or an impatient caller holds a call.
   */
  lemma WholeStreamsAreDelivered(delegations: set<string>, requests: seq<Request<Reply>>)
    ensures var rules := BatchRules(delegations);
      var s := Run(rules, requests);
      DeliversCallsOf(rules, s, Offered(rules, requests)) <==>
        && KeepsBatches(rules, requests) && ReadsDecode(s, delegations)
        && HasNoCalls(rules, Unread(rules, requests))
  {
    var rules := BatchRules(delegations);
    EveryCallIsDeliveredOnce(delegations, requests);
    forall call
      ensures ReadOrUnread(rules, requests, call)
    {
      OfferedIsReadOrUnread(rules, requests, call);
      CallsAreConserved(rules, requests, call);
      ExpansionAddsNothing(Run(rules, requests).consumed, delegations, call);
    }
    SplitsAddUp(rules, requests);
  }

  /** No reply yielded or waiting mixes the two kinds, and no deferred batch is ever refused. */
  lemma KindsNeverMix(delegations: set<string>, requests: seq<Request<Reply>>, reply: Reply)
    ensures var s := Run(BatchRules(delegations), requests);
      reply in s.delivered + Waiting(s.pending) ==>
        Unmixed(reply, delegations) && (reply == Failed(AlreadyPending) ==> reply in s.consumed)
  {
    var rules := BatchRules(delegations);
    var s := Run(rules, requests);
    RepliesComeFromExpansion(rules, requests, reply);
    if reply in ExpandAll(rules, s.consumed) {
      ExpansionIsUnmixed(s.consumed, delegations, reply);
    }
  }

  /** A batch held back is taken without being yielded only, and always, by a call that was already cancelled. */
  lemma OnlyCancellationTakesBatches(delegations: set<string>, requests: seq<Request<Reply>>)
    ensures var rules := BatchRules(delegations);
      var s := Run(rules, requests);
      CarriesCalls(rules, s.lost) && (s.lost == [] <==> KeepsBatches(rules, requests))
  {
    BatchesHoldDelegations(delegations);
    LostExactlyToCancellation(BatchRules(delegations), requests);
  }

  const EDIT: Call := Call("1", "edit")
  const DELEGATE: Call := Call("2", "delegate")

  /** A complete response with an ordinary call, which carries the signature, and a delegation. */
  function MixedResponse(signature: Signature): Response {
    Response(false, Some([CallPart(EDIT, signature), CallPart(DELEGATE, Plain(""))]), "", true, "", None)
  }

  function CallPart(call: Call, signature: Signature): Part {
    Present(Some(call), signature, "")
  }

  lemma SeparateSnoc(parts: seq<Part>, last: Part, delegations: set<string>)
    ensures Others(parts + [last], delegations) ==
      Others(parts, delegations) + if IsDelegation(last, delegations) then [] else [last]
    ensures Delegations(parts + [last], delegations) ==
      Delegations(parts, delegations) + if IsDelegation(last, delegations) then [last] else []
  {
    assert (parts + [last])[..|parts|] == parts;
  }

  lemma PairSeparates(a: Part, b: Part, delegations: set<string>)
    requires IsOrdinaryCall(a, delegations) && IsDelegation(b, delegations)
    ensures Others([a, b], delegations) == [a] && Delegations([a, b], delegations) == [b]
  {
    SeparateSnoc([], a, delegations);
    SeparateSnoc([a], b, delegations);
    assert [] + [a] == [a] && [a] + [b] == [a, b];
  }

  lemma PairIsMixed(a: Part, b: Part, delegations: set<string>)
    requires IsOrdinaryCall(a, delegations) && IsDelegation(b, delegations)
    ensures Mixed([a, b], delegations)
  {
    assert IsOrdinaryCall([a, b][0], delegations) && IsDelegation([a, b][1], delegations);
  }

  lemma CallsOfOne(part: Part)
    requires part.Present? && part.call.Some?
    ensures Calls([part]) == [part.call.value]
  {
    assert [part][..0] == [];
  }

  lemma PairSplits(response: Response, a: Part, b: Part, delegations: set<string>)
    requires !response.partial && response.parts == Some([a, b]) && Decodes(a)
    requires IsOrdinaryCall(a, delegations) && IsDelegation(b, delegations)
    ensures var piece := Divide(Replied(Some(response)), delegations);
      piece.Halves? && CallsOf(piece.now) == [a.call.value] && CallsOf(piece.later) == [b.call.value]
  {
    PairIsMixed(a, b, delegations);
    PairSeparates(a, b, delegations);
    var excluded := Ids([b]);
    assert FilteredAll([a], excluded) == [Filtered(a, excluded)];
    CallsOfOne(Filtered(a, excluded));
    CallsOfOne(b);
  }

  /** A mixed response, then a call that is cancelled before it starts: the delegation is neither yielded nor waits. */
  lemma CancelledCallLosesDelegation() returns (requests: seq<Request<Reply>>)
    ensures requests == ReadThenCancelled(Replied(Some(MixedResponse(Plain("")))))
    ensures var rules := BatchRules({"delegate"});
      var s := Run(rules, requests);
      && Count(rules, s.consumed, DELEGATE) == 1
      && Count(rules, s.delivered, DELEGATE) == 0 && s.pending == None
      && Count(rules, s.lost, DELEGATE) == 1
  {
    var rules, reply := BatchRules({"delegate"}), Replied(Some(MixedResponse(Plain(""))));
    requests := ReadThenCancelled(reply);
    PairSplits(MixedResponse(Plain("")), CallPart(EDIT, Plain("")), CallPart(DELEGATE, Plain("")), {"delegate"});
    CancelledCallTakesBatch(rules, reply);
    HalvesCounted(rules, reply, {"delegate"});
  }

  lemma CallsOfPair(a: Part, b: Part)
    requires a.Present? && a.call.Some? && b.Present? && b.call.Some?
    ensures Calls([a, b]) == [a.call.value, b.call.value]
  {
    CallsOfOne(a);
    CallsSnoc([a], b);
    assert [a] + [b] == [a, b];
  }

  /** A reply that ends its call with an error is read, and nothing of it arrives. */
  lemma ErrorTakesReply<R, C>(rules: Rules<R, C>, reply: R, failure: R)
    requires rules.split(reply) == Ending(failure)
    ensures Run(rules, [Request([reply], false, 1)]) == Scheduler(None, [failure], [reply], [])
  {
    var request := Request([reply], false, 1);
    assert [request][..0] == [];
    assert Run(rules, [request]) == Next(Idle(), rules, request);
  }

  /** A mixed response whose preserved context does not decode: no call is cancelled, and both its calls are lost. */
  lemma UnreadableContextLosesCalls() returns (requests: seq<Request<Reply>>)
    ensures requests == [Request([Replied(Some(MixedResponse(Garbled)))], false, 1)]
    ensures var rules := BatchRules({"delegate"});
      var s := Run(rules, requests);
      && KeepsBatches(rules, requests) && s.lost == [] && s.pending == None
      && Count(rules, s.consumed, DELEGATE) == 1 && Count(rules, s.delivered, DELEGATE) == 0
      && Count(rules, s.consumed, EDIT) == 1 && Count(rules, s.delivered, EDIT) == 0
  {
    var rules, reply := BatchRules({"delegate"}), Replied(Some(MixedResponse(Garbled)));
    var edit, delegate := CallPart(EDIT, Garbled), CallPart(DELEGATE, Plain(""));
    requests := [Request([reply], false, 1)];
    PairIsMixed(edit, delegate, {"delegate"});
    PairSeparates(edit, delegate, {"delegate"});
    assert edit in Others([edit, delegate], {"delegate"}) && !Decodes(edit);
    ErrorTakesReply(rules, reply, Failed(SplitFailed));
    assert requests[..0] == [];
    CallsOfPair(edit, delegate);
    CountOne(rules, reply, DELEGATE);
    CountOne(rules, reply, EDIT);
    CountOne(rules, Failed(SplitFailed), DELEGATE);
    CountOne(rules, Failed(SplitFailed), EDIT);
  }

  lemma HalvesCounted(rules: Rules<Reply, Call>, reply: Reply, delegations: set<string>)
    requires rules == BatchRules(delegations) && Divide(reply, delegations).Halves?
    requires CallsOf(Divide(reply, delegations).now) == [EDIT] && CallsOf(Divide(reply, delegations).later) == [DELEGATE]
    ensures Count(rules, [Divide(reply, delegations).now, rules.refusal], DELEGATE) == 0
    ensures Count(rules, [Divide(reply, delegations).later], DELEGATE) == 1
    ensures Count(rules, [reply], DELEGATE) == 1
  {
    var now, later := Divide(reply, delegations).now, Divide(reply, delegations).later;
    CountPair(rules, now, rules.refusal, DELEGATE);
    CountOne(rules, later, DELEGATE);
    CountOne(rules, reply, DELEGATE);
    CountPair(rules, now, later, DELEGATE);
    PiecesKeepCalls(reply, delegations, DELEGATE);
  }

  lemma CountOne<R, C>(rules: Rules<R, C>, a: R, call: C)
    ensures Count(rules, [a], call) == rules.calls(a)[call]
  {
    assert [a][..0] == [];
  }

  lemma Regroup<T>(a: seq<T>, x: T, b: seq<T>)
    ensures a + ([x] + b) == (a + [x]) + b
  {
  }

  class MixedToolBatchModel {
    var pending: Option<Response>
    const delegations: set<string>

    constructor (delegations: set<string>)
      ensures this.delegations == delegations && pending == None
    {
      this.delegations := delegations;
      pending := None;
    }

    ghost function Held(): Option<Reply>
      reads this
    {
      if pending.Some? then Some(Replied(pending)) else None
    }

    method TakePending() returns (taken: Option<Response>)
      modifies this
      ensures taken == old(pending) && pending == None
    {
      taken := pending;
      pending := None;
    }

    method StorePending(response: Response) returns (ok: bool)
      modifies this
      ensures ok == old(pending).None?
      ensures pending == if ok then Some(response) else old(pending)
    {
      if pending.Some? {
        return false;
      }
      pending := Some(response);
      return true;
    }

    method GenerateContent(request: Request<Reply>) returns (yielded: seq<Reply>)
      modifies this
      ensures (yielded, Held()) == Generate(BatchRules(delegations), old(Held()), request)
      ensures old(pending).Some? ==>
        pending.None? && yielded == [if request.cancelled then Failed(Cancelled) else Replied(old(pending))]
    {
      var taken := TakePending();
      if taken.Some? {
        if request.cancelled {
          return [Failed(Cancelled)];
        }
        return [Replied(taken)];
      }
      yielded := Stream(request);
    }

    method Stream(request: Request<Reply>) returns (yielded: seq<Reply>)
      requires pending.None?
      modifies this
      ensures (yielded, Held()) == Streamed(BatchRules(delegations), request.inner, request.patience)
    {
      yielded := [];
      var inner := request.inner;
      ghost var rules := BatchRules(delegations);
      ghost var (all, left) := Streamed(rules, inner, request.patience);
      assert inner[0..] == inner && [] + all == all;
      for i := 0 to |inner|
        invariant pending.None?
        invariant i == 0 || i < request.patience
        invariant yielded + Streamed(rules, inner[i..], request.patience - i).0 == all
        invariant Streamed(rules, inner[i..], request.patience - i).1 == left
      {
        assert inner[i..][0] == inner[i] && inner[i..][1..] == inner[i + 1..];
        if inner[i].Failed? {
          return yielded + [inner[i]];
        }
        var split := SplitMixedToolBatch(inner[i].response, delegations);
        if split.None? {
          return yielded + [Failed(SplitFailed)];
        }
        if split.value.deferred.Some? {
          var stored := StorePending(split.value.deferred.value);
          if !stored {
            assert false;
            return yielded + [Failed(AlreadyPending)];
          }
          return yielded + [Replied(split.value.immediate)];
        }
        assert rules.split(inner[i]) == Whole(inner[i]);
        if i + 1 >= request.patience {
          return yielded + [inner[i]];
        }
        Regroup(yielded, inner[i], Streamed(rules, inner[i + 1..], request.patience - i - 1).0);
        yielded := yielded + [inner[i]];
      }
      assert yielded + [] == yielded;
    }
  }
}
