/** The engine's approval methods over the table of an active run. */
module ApprovalTable {
  import opened Wrappers
  import opened Approvals

  /** Why a decision that cannot be recorded is refused, in the order the checks are made. */
  function Refusal(t: Table, id: string, reason: string): Failure {
    if |reason| > MAX_REASON then InvalidInput
    else if t.failed then TooMany
    else if id !in t.pending || t.pending[id].order != 0 then NotPending
    else InvalidInput
  }

  class ActiveRun {
    var pendingApprovals: map<string, Entry>
    var nextApprovalResolution: nat
    var approvalFailure: bool
    /** Entries made so far; an entry's number is its identity. */
    var admitted: nat
    ghost var log: seq<Event>
    ghost var consumed: seq<Resolution>
    /** The decisions waiters hold and have not acted on. */
    var handed: seq<Resolution>

    ghost function View(): Table
      reads this
    {
      Table(pendingApprovals, nextApprovalResolution, approvalFailure, admitted, log, consumed, handed)
    }

    ghost predicate Valid()
      reads this
    {
      Sound(View())
    }

    constructor ()
      ensures View() == EMPTY && Valid()
    {
      pendingApprovals, nextApprovalResolution, approvalFailure, admitted := map[], 0, false, 0;
      log, consumed, handed := [], [], [];
      new;
      assert Unresolved(pendingApprovals) == {};
    }

    method UnresolvedToolApprovalCount(approvals: map<string, Entry>) returns (count: nat)
      ensures count == |Unresolved(approvals)|
      ensures count == |set id | id in approvals && approvals[id].order == 0|
    {
      count := 0;
      var rest := approvals.Keys;
      assert Unresolved(approvals) * rest == Unresolved(approvals);
      while rest != {}
        invariant rest <= approvals.Keys
        invariant count + |Unresolved(approvals) * rest| == |Unresolved(approvals)|
        decreases |rest|
      {
        var id :| id in rest;
        OneFewer(Unresolved(approvals), rest, id);
        if approvals[id].order == 0 {
          count := count + 1;
        }
        rest := rest - {id};
      }
      assert Unresolved(approvals) * rest == {};
    }

    method RegisterPendingToolApproval(request: Request) returns (r: Result<nat, Failure>)
      modifies this
      ensures View() == Next(old(View()), Register(request))
      ensures r == if approvalFailure then Err(TooMany) else Ok(pendingApprovals[request.id].token)
      ensures approvalFailure <==>
        old(approvalFailure) || (request.id !in old(pendingApprovals) && Full(old(pendingApprovals)))
      ensures if approvalFailure || request.id in old(pendingApprovals)
        then pendingApprovals == old(pendingApprovals) && log == old(log)
        else
          && pendingApprovals == old(pendingApprovals)[request.id := Entry(old(admitted), request, UNRESOLVED, 0)]
          && log == old(log) + [Requested(request)]
    {
      if approvalFailure {
        return Err(TooMany);
      }
      if request.id in pendingApprovals {
        return Ok(pendingApprovals[request.id].token);
      }
      var count := UnresolvedToolApprovalCount(pendingApprovals);
      if count >= MAX_PENDING {
        approvalFailure := true;
        return Err(TooMany);
      }
      pendingApprovals := pendingApprovals[request.id := Entry(admitted, request, UNRESOLVED, 0)];
      admitted := admitted + 1;
      log := log + [Requested(request)];
      return Ok(pendingApprovals[request.id].token);
    }

    method FindOption(options: seq<Choice>, optionId: string) returns (i: nat)
      ensures i == OptionIndex(options, optionId)
    {
      i := 0;
      while i < |options| && options[i].id != optionId
        invariant i <= |options|
        invariant i + OptionIndex(options[i..], optionId) == OptionIndex(options, optionId)
      {
        assert options[i..][1..] == options[i + 1..];
        i := i + 1;
      }
    }

    method ApplyOption(request: Request, approved: bool, optionId: string) returns (decision: Option<bool>)
      ensures decision == Decide(request, approved, optionId)
      ensures decision.Some? <==> Offered(request, optionId)
      ensures decision.Some? ==> Meant(request, approved, optionId, decision.value)
    {
      DecideIsMeant(request, approved, optionId);
      if optionId == "" {
        return Some(approved);
      }
      var i := FindOption(request.options, optionId);
      if i == |request.options| {
        return None;
      }
      return Some(ALLOW <= request.options[i].kind);
    }

    method ResolveToolApproval(id: string, approved: bool, reason: string, optionId: string)
      returns (r: Result<Resolution, Failure>)
      modifies this
      ensures View() == Next(old(View()), Resolve(id, approved, reason, optionId))
      ensures r.Ok? <==>
        && |reason| <= 2000 && !old(approvalFailure)
        && id in old(pendingApprovals) && old(pendingApprovals)[id].order == 0
        && Offered(old(pendingApprovals)[id].request, optionId)
      ensures r.Err? ==> r.error == Refusal(old(View()), id, reason) && View() == old(View())
      ensures r.Ok? ==> var request := old(pendingApprovals)[id].request;
        && Meant(request, approved, optionId, r.value.approved)
        && r.value == Resolution(request.id, request.toolCallId, r.value.approved,
             if r.value.approved then "" else reason, optionId)
        && pendingApprovals ==
             old(pendingApprovals)[id := Entry(old(pendingApprovals)[id].token, request, r.value, old(nextApprovalResolution) + 1)]
        && nextApprovalResolution == old(nextApprovalResolution) + 1
      ensures r.Ok? ==> r.value == pendingApprovals[id].resolution && log == old(log) + [Resolved(r.value)]
    {
      if |reason| > MAX_REASON {
        return Err(InvalidInput);
      }
      if approvalFailure {
        return Err(TooMany);
      }
      if id !in pendingApprovals || pendingApprovals[id].order != 0 {
        return Err(NotPending);
      }
      var request := pendingApprovals[id].request;
      var decision := ApplyOption(request, approved, optionId);
      if decision.None? {
        return Err(InvalidInput);
      }
      var resolution := MakeResolution(request, decision.value, reason, optionId);
      Record(id, resolution);
      return Ok(resolution);
    }

    method Record(id: string, resolution: Resolution)
      requires id in pendingApprovals
      modifies this
      ensures View() == Settle(old(View()), id, resolution)
    {
      nextApprovalResolution := nextApprovalResolution + 1;
      var entry := pendingApprovals[id].(resolution := resolution, order := nextApprovalResolution);
      pendingApprovals := pendingApprovals[id := entry];
      log := log + [Resolved(resolution)];
    }

    method RemovePendingToolApproval(id: string, token: nat)
      modifies this
      ensures View() == Next(old(View()), Remove(id, token))
      ensures pendingApprovals ==
        if id in old(pendingApprovals) && old(pendingApprovals)[id].token == token then old(pendingApprovals) - {id}
        else old(pendingApprovals)
      ensures log == old(log) && handed == old(handed) && approvalFailure == old(approvalFailure)
    {
      if id !in pendingApprovals || pendingApprovals[id].token != token {
        return;
      }
      pendingApprovals := pendingApprovals - {id};
    }

    method PublishToolApprovalStarted(decision: Resolution, index: nat)
      requires index < |handed| && handed[index] == decision
      modifies this
      ensures View() == Next(old(View()), Start(index))
      ensures handed == old(handed)[..index] + old(handed)[index + 1..] && pendingApprovals == old(pendingApprovals)
      ensures log == if decision.approved then old(log) + [Started(decision.id, decision.toolCallId)] else old(log)
    {
      handed := Without(handed, index);
      if !decision.approved {
        return;
      }
      log := log + [Started(decision.id, decision.toolCallId)];
    }

    /** One look at the table by a waiter, under the lock. None is to wait until something is decided. */
    method Look(ids: set<string>, contextDone: bool) returns (answer: Option<Result<Resolution, Failure>>)
      requires SoundEntries(View())
      modifies this
      ensures View() == Next(old(View()), Poll(ids, contextDone))
      ensures answer == Answer(old(View()), ids, contextDone)
      ensures LooksRight(old(View()), View(), ids, contextDone, answer)
    {
      if |ids| == 0 {
        return Some(Err(NotPending));
      }
      if approvalFailure {
        return Some(Err(TooMany));
      }
      if contextDone {
        return Some(Err(ContextDone));
      }
      var missing, next := FindEarliest(ids);
      AnswerFound(View(), ids, missing, next);
      PollTakesEarliest(View(), ids, false);
      if missing {
        return Some(Err(NotPending));
      }
      if next.None? {
        return None;
      }
      var resolution := pendingApprovals[next.value].resolution;
      Take(resolution);
      return Some(Ok(resolution));
    }

    method Take(resolution: Resolution)
      requires resolution.id in pendingApprovals && pendingApprovals[resolution.id].order != 0
      requires resolution == pendingApprovals[resolution.id].resolution
      modifies this
      ensures Took(old(View()), View(), resolution)
    {
      pendingApprovals := pendingApprovals - {resolution.id};
      consumed, handed := consumed + [resolution], handed + [resolution];
    }

    /** The loop over a waiter's approvals, in any order: whether one is missing, or else the earliest decided. */
    method FindEarliest(ids: set<string>) returns (missing: bool, next: Option<string>)
      ensures missing <==> exists id :: id in ids && id !in pendingApprovals
      ensures !missing ==> Found(View(), ids, next)
    {
      missing, next := false, None;
      var rest := ids;
      ghost var seen: set<string> := {};
      while rest != {}
        invariant rest + seen == ids
        invariant forall id :: id in seen ==> id in pendingApprovals
        invariant Found(View(), seen, next)
        decreases |rest|
      {
        var id :| id in rest;
        if id !in pendingApprovals {
          return true, None;
        }
        FoundMore(View(), seen, next, id);
        if pendingApprovals[id].order != 0 &&
          (next.None? || pendingApprovals[id].order < pendingApprovals[next.value].order) {
          next := Some(id);
        }
        rest := rest - {id};
        seen := seen + {id};
      }
      assert seen == ids;
    }

    /** A step of someone else. */
    method Perform(step: Step)
      requires Valid()
      modifies this
      ensures Valid() && View() == Next(old(View()), step)
    {
      NextKeepsSound(View(), step);
      match step {
        case Register(request) => var _ := RegisterPendingToolApproval(request);
        case Resolve(id, approved, reason, optionId) => var _ := ResolveToolApproval(id, approved, reason, optionId);
        case Poll(ids, contextDone) => var _ := Look(ids, contextDone);
        case Remove(id, token) => RemovePendingToolApproval(id, token);
        case Start(index) =>
          if index < |handed| {
            PublishToolApprovalStarted(handed[index], index);
          }
      }
    }

    method PerformAll(steps: seq<Step>)
      requires Valid()
      modifies this
      ensures Valid() && View() == Run(old(View()), steps)
      ensures old(consumed) <= consumed
    {
      for k := 0 to |steps|
        invariant Valid() && Run(View(), steps[k..]) == Run(old(View()), steps)
        invariant old(consumed) <= consumed
      {
        ConsumedGrows(View(), steps[k]);
        Perform(steps[k]);
        assert steps[k..][0] == steps[k] && steps[k..][1..] == steps[k + 1..];
      }
    }

    /** One turn of a waiter: the others act, and it looks. */
    method TakeTurn(ids: set<string>, turn: Turn) returns (answer: Option<Result<Resolution, Failure>>)
      requires Valid()
      modifies this
      ensures Valid() && LookedAfter(Run(old(View()), turn.others), View(), ids, turn.contextDone, answer)
      ensures answer.None? ==> View() == Run(old(View()), turn.others)
      ensures old(consumed) <= consumed
      ensures answer.Some? && answer.value.Ok? ==> answer.value.value.id in ids && answer.value.value in consumed
    {
      PerformAll(turn.others);
      PollTakesEarliest(View(), ids, turn.contextDone);
      NextKeepsSound(View(), Poll(ids, turn.contextDone));
      answer := Look(ids, turn.contextDone);
    }

    /**
     waitForNextToolApproval. Each turn of the schedule is what others do before this waiter looks again; None
     means that it is still waiting when the schedule ends. The waiter answers with the first look that decides
     anything, and until then leaves the table to the others.
     */
    method WaitForNextToolApproval(ids: set<string>, schedule: seq<Turn>, from: nat)
      returns (answer: Option<Result<Resolution, Failure>>, next: nat)
      requires Valid() && from <= |schedule|
      modifies this
      ensures Valid() && from <= next <= |schedule|
      ensures var wait := WaitFrom(old(View()), ids, schedule, from);
        && answer == wait.answer && next == wait.next
        && if answer.None? then View() == wait.seen else LookedAfter(wait.seen, View(), ids, wait.contextDone, answer)
      ensures old(consumed) <= consumed
      ensures answer.Some? && answer.value.Ok? ==> answer.value.value.id in ids && answer.value.value in consumed
    {
      next := from;
      ghost var start := View();
      while next < |schedule|
        invariant Valid() && from <= next <= |schedule|
        invariant WaitFrom(View(), ids, schedule, next) == WaitFrom(start, ids, schedule, from)
        invariant old(consumed) <= consumed
      {
        answer := TakeTurn(ids, schedule[next]);
        next := next + 1;
        if answer.Some? {
          return;
        }
      }
      answer := None;
    }

    method WaitForToolApprovals(requests: seq<Request>, schedule: seq<Turn>)
      returns (r: Option<Result<seq<Resolution>, Failure>>)
      requires Valid()
      modifies this
      ensures Valid()
      ensures r.Some? && r.value.Ok? ==> Aligned(requests, r.value.value, consumed)
    {
      var resultIndex := IndexRequests(requests);
      var remaining := resultIndex.Keys;
      var result := seq(|requests|, i => UNRESOLVED);
      var turn := 0;
      while remaining != {}
        invariant Valid() && turn <= |schedule|
        invariant remaining <= resultIndex.Keys
        invariant Slots(requests, resultIndex, remaining, result, consumed)
        decreases |remaining|
      {
        ghost var before := consumed;
        var answer;
        answer, turn := WaitForNextToolApproval(remaining, schedule, turn);
        if answer.None? {
          return None;
        }
        if answer.value.Err? {
          return Some(Err(answer.value.error));
        }
        var decision := answer.value.value;
        SlotFilled(requests, resultIndex, remaining, result, before, consumed, decision);
        result := result[resultIndex[decision.id] := decision];
        remaining := remaining - {decision.id};
      }
      return Some(Ok(result));
    }

    static method IndexRequests(requests: seq<Request>) returns (resultIndex: map<string, nat>)
      ensures Indexed(requests, resultIndex)
    {
      resultIndex := map[];
      for index := 0 to |requests|
        invariant Indexed(requests[..index], resultIndex)
      {
        IndexedSnoc(requests[..index], requests[index], resultIndex);
        assert requests[..index + 1] == requests[..index] + [requests[index]];
        resultIndex := resultIndex[requests[index].id := index];
      }
      assert requests[..|requests|] == requests;
    }
  }

  predicate Full(pending: map<string, Entry>) {
    |set id | id in pending && pending[id].order == 0| >= 32
  }

  /** What a look answers, reason by reason, and that only an answer with a decision changes the table. */
  predicate LooksRight(t: Table, u: Table, ids: set<string>, contextDone: bool,
    answer: Option<Result<Resolution, Failure>>)
  {
    if ids == {} then answer == Some(Err(NotPending)) && u == t
    else if t.failed then answer == Some(Err(TooMany)) && u == t
    else if contextDone then answer == Some(Err(ContextDone)) && u == t
    else if exists id :: id in ids && id !in t.pending then answer == Some(Err(NotPending)) && u == t
    else if forall id :: id in ids ==> t.pending[id].order == 0 then answer == None && u == t
    else
      && answer.Some? && answer.value.Ok? && answer.value.value.id in ids
      && var id := answer.value.value.id;
         && t.pending[id].order != 0 && answer.value.value == t.pending[id].resolution
         && (forall other :: other in ids && t.pending[other].order != 0 ==> t.pending[id].order <= t.pending[other].order)
         && u.pending == t.pending - {id} && u.log == t.log
         && u.consumed == t.consumed + [t.pending[id].resolution] && u.handed == t.handed + [t.pending[id].resolution]
  }

  datatype Turn = Turn(others: seq<Step>, contextDone: bool)

  /** What a wait comes to: its answer, if there is one, the table at its last look, and the turns used up. */
  datatype Wait = Wait(answer: Option<Result<Resolution, Failure>>, seen: Table, contextDone: bool, next: nat)

  /** A wait over the schedule: before each look the others act, and the first look that decides anything ends it. */
  ghost function WaitFrom(t: Table, ids: set<string>, schedule: seq<Turn>, from: nat): (w: Wait)
    requires from <= |schedule|
    ensures from <= w.next <= |schedule|
    ensures w.answer.None? ==> w.next == |schedule|
    decreases |schedule| - from
  {
    if from == |schedule| then Wait(None, t, false, from)
    else
      var seen := Run(t, schedule[from].others);
      var answer := Answer(seen, ids, schedule[from].contextDone);
      if answer.Some? then Wait(answer, seen, schedule[from].contextDone, from + 1)
      else WaitFrom(seen, ids, schedule, from + 1)
  }

  /** The table once the others have taken their steps of the turns from `from` to before `k`. */
  ghost function Moved(t: Table, schedule: seq<Turn>, from: nat, k: nat): Table
    requires from <= k <= |schedule|
    decreases k - from
  {
    if k == from then t else Moved(Run(t, schedule[from].others), schedule, from + 1, k)
  }

  /** A wait ends with the first look that has an answer, and until then the table moves by the others' steps alone. */
  lemma {:induction false} FirstAnswerEndsWait(t: Table, ids: set<string>, schedule: seq<Turn>, from: nat, k: nat)
    requires from <= |schedule|
    ensures var wait := WaitFrom(t, ids, schedule, from);
      && wait.seen == Moved(t, schedule, from, wait.next)
      && (from <= k < |schedule| && k + 1 < wait.next + (if wait.answer.None? then 1 else 0) ==>
            Answer(Moved(t, schedule, from, k + 1), ids, schedule[k].contextDone) == None)
      && (wait.answer.Some? ==>
            from < wait.next && wait.answer == Answer(wait.seen, ids, schedule[wait.next - 1].contextDone))
    decreases |schedule| - from
  {
    if from < |schedule| {
      var seen := Run(t, schedule[from].others);
      assert Moved(seen, schedule, from + 1, from + 1) == seen;
      FirstAnswerEndsWait(seen, ids, schedule, from + 1, k);
    }
  }

  /** The look at a table answered with its earliest decision of the waiter's own, if it answered with any. */
  ghost predicate LookedAfter(before: Table, u: Table, ids: set<string>, contextDone: bool,
    answer: Option<Result<Resolution, Failure>>) {
    && answer == Answer(before, ids, contextDone)
    && u == Next(before, Poll(ids, contextDone))
    && (answer.Some? && answer.value.Ok? ==>
          Earliest(before, ids, answer.value.value.id) && Took(before, u, answer.value.value))
  }

  predicate IsLast(requests: seq<Request>, id: string, i: nat) {
    && i < |requests| && requests[i].id == id
    && forall k :: i < k < |requests| ==> requests[k].id != id
  }

  predicate Indexed(requests: seq<Request>, resultIndex: map<string, nat>) {
    && (forall id :: id in resultIndex ==> IsLast(requests, id, resultIndex[id]))
    && (forall i :: 0 <= i < |requests| ==> requests[i].id in resultIndex)
  }

  lemma IndexedSnoc(requests: seq<Request>, request: Request, resultIndex: map<string, nat>)
    requires Indexed(requests, resultIndex)
    ensures Indexed(requests + [request], resultIndex[request.id := |requests|])
  {
  }

  /** Places of decided requests hold their decisions, the others are still blank. */
  predicate Slots(requests: seq<Request>, resultIndex: map<string, nat>, remaining: set<string>,
    result: seq<Resolution>, consumed: seq<Resolution>)
  {
    && Indexed(requests, resultIndex)
    && |result| == |requests|
    && forall i :: 0 <= i < |requests| ==>
         if resultIndex[requests[i].id] == i && requests[i].id !in remaining
         then result[i].id == requests[i].id && result[i] in consumed
         else result[i] == UNRESOLVED
  }

  lemma SlotFilled(requests: seq<Request>, resultIndex: map<string, nat>, remaining: set<string>,
    result: seq<Resolution>, before: seq<Resolution>, after: seq<Resolution>, decision: Resolution)
    requires Slots(requests, resultIndex, remaining, result, before) && before <= after
    requires decision.id in remaining && remaining <= resultIndex.Keys && decision in after
    ensures IsLast(requests, decision.id, resultIndex[decision.id])
    ensures Slots(requests, resultIndex, remaining - {decision.id},
                  result[resultIndex[decision.id] := decision], after)
  {
  }

  /** Each result answers the request at its place; of several requests with one id only the last is answered. */
  predicate Aligned(requests: seq<Request>, result: seq<Resolution>, consumed: seq<Resolution>) {
    && |result| == |requests|
    && forall i :: 0 <= i < |requests| ==>
         if IsLast(requests, requests[i].id, i)
         then result[i].id == requests[i].id && result[i] in consumed
         else result[i] == UNRESOLVED
  }

  predicate Distinct(requests: seq<Request>) {
    forall i, j :: 0 <= i < j < |requests| ==> requests[i].id != requests[j].id
  }

  /** Every request has its answer in its place exactly when their ids are distinct. */
  lemma AlignedExactlyWhenDistinct(requests: seq<Request>, result: seq<Resolution>, consumed: seq<Resolution>)
    requires Aligned(requests, result, consumed)
    requires forall i :: 0 <= i < |requests| ==> requests[i].id != ""
    ensures (forall i :: 0 <= i < |requests| ==> result[i].id == requests[i].id) <==> Distinct(requests)
  {
  }

  lemma ConsumedGrows(t: Table, step: Step)
    ensures t.consumed <= Next(t, step).consumed
  {
  }

  lemma OneFewer(all: set<string>, rest: set<string>, id: string)
    requires id in rest
    ensures |all * rest| == |all * (rest - {id})| + if id in all then 1 else 0
  {
    if id in all {
      assert all * rest == all * (rest - {id}) + {id};
    } else {
      assert all * rest == all * (rest - {id});
    }
  }

  /** The earliest decided approval among those seen, if any is decided. */
  predicate Found(t: Table, seen: set<string>, next: Option<string>) {
    if next.Some? then Earliest(t, seen, next.value)
    else forall id :: id in seen ==> !Ready(t, seen, id)
  }

  lemma FoundMore(t: Table, seen: set<string>, next: Option<string>, id: string)
    requires Found(t, seen, next) && id in t.pending
    ensures Found(t, seen + {id},
      if t.pending[id].order != 0 && (next.None? || t.pending[id].order < t.pending[next.value].order) then Some(id) else next)
  {
  }

  lemma AnswerFound(t: Table, ids: set<string>, missing: bool, next: Option<string>)
    requires SoundEntries(t) && ids != {} && !t.failed
    requires missing <==> exists id :: id in ids && id !in t.pending
    requires !missing ==> Found(t, ids, next)
    ensures Answer(t, ids, false) ==
      if missing then Some(Err(NotPending))
      else if next.None? then None
      else Some(Ok(t.pending[next.value].resolution))
  {
  }
}
