/**
 The table of pending tool approvals of one run, as a machine of atomic steps: everything the engine does
 under its lock, in any interleaving. `ApprovalTable` refines it; the laws of all runs are proved here.
 */
module Approvals {
  import opened Wrappers

  const MAX_PENDING := 32
  const MAX_REASON := 2000
  const ALLOW := "allow_"

  datatype Choice = Choice(id: string, kind: string)

  datatype Request = Request(id: string, toolCallId: string, options: seq<Choice>)

  datatype Resolution = Resolution(id: string, toolCallId: string, approved: bool, reason: string, optionId: string)

  /** A pending approval; token stands for its identity, and order is 0 until it is resolved. */
  datatype Entry = Entry(token: nat, request: Request, resolution: Resolution, order: nat)

  datatype Event = Requested(request: Request) | Resolved(resolution: Resolution) | Started(id: string, toolCallId: string)

  datatype Failure = NotPending | TooMany | InvalidInput | ContextDone

  /** The run's approvals, with the events published, the decisions consumed, and those a waiter has yet to act on. */
  datatype Table = Table(
    pending: map<string, Entry>,
    nextOrder: nat,
    failed: bool,
    admitted: nat,
    log: seq<Event>,
    consumed: seq<Resolution>,
    handed: seq<Resolution>)

  datatype Step =
    | Register(request: Request)
    | Resolve(id: string, approved: bool, reason: string, optionId: string)
    | Poll(ids: set<string>, contextDone: bool)
    | Remove(approval: string, token: nat)
    | Start(index: nat)

  const EMPTY: Table := Table(map[], 0, false, 0, [], [], [])
  const UNRESOLVED: Resolution := Resolution("", "", false, "", "")

  function Unresolved(pending: map<string, Entry>): set<string> {
    set id | id in pending && pending[id].order == 0
  }

  // Resolving

  function OptionIndex(options: seq<Choice>, optionId: string): (i: nat)
    ensures i <= |options|
    ensures i < |options| ==> options[i].id == optionId
    ensures forall k :: 0 <= k < i ==> options[k].id != optionId
  {
    if options == [] || options[0].id == optionId then 0 else 1 + OptionIndex(options[1..], optionId)
  }

  /** Whether the decision approves: the first option with the id decides by its kind, or the caller does. */
  function Decide(request: Request, approved: bool, optionId: string): Option<bool> {
    if optionId == "" then Some(approved)
    else
      var i := OptionIndex(request.options, optionId);
      if i == |request.options| then None else Some(ALLOW <= request.options[i].kind)
  }

  function MakeResolution(request: Request, approved: bool, reason: string, optionId: string): Resolution {
    Resolution(request.id, request.toolCallId, approved, if approved then "" else reason, optionId)
  }

  predicate CanResolve(t: Table, id: string, reason: string, optionId: string) {
    && |reason| <= MAX_REASON
    && !t.failed
    && id in t.pending
    && t.pending[id].order == 0
    && Decide(t.pending[id].request, true, optionId).Some?
  }

  // Waiting

  predicate Ready(t: Table, ids: set<string>, id: string) {
    id in ids && id in t.pending && t.pending[id].order != 0
  }

  /** The earliest decision among a waiter's own approvals. */
  predicate Earliest(t: Table, ids: set<string>, id: string) {
    Ready(t, ids, id) && forall other :: other in ids && Ready(t, ids, other) ==> t.pending[id].order <= t.pending[other].order
  }

  /** What one look at the table answers; None is to wait on. */
  ghost function Answer(t: Table, ids: set<string>, contextDone: bool): Option<Result<Resolution, Failure>> {
    if ids == {} then Some(Err(NotPending))
    else if t.failed then Some(Err(TooMany))
    else if contextDone then Some(Err(ContextDone))
    else if exists id :: id in ids && id !in t.pending then Some(Err(NotPending))
    else if id: string :| Earliest(t, ids, id) then Some(Ok(t.pending[id].resolution))
    else None
  }

  /** The decision is recorded with the next number and published in one step. */
  function Settle(t: Table, id: string, r: Resolution): Table
    requires id in t.pending
  {
    t.(pending := t.pending[id := t.pending[id].(resolution := r, order := t.nextOrder + 1)],
       nextOrder := t.nextOrder + 1,
       log := t.log + [Resolved(r)])
  }

  function Without<T>(s: seq<T>, i: nat): seq<T>
    requires i < |s|
  {
    s[..i] + s[i + 1..]
  }

  ghost function Next(t: Table, step: Step): Table {
    match step
    case Register(request) =>
      if t.failed || request.id in t.pending then t
      else if |Unresolved(t.pending)| >= MAX_PENDING then t.(failed := true)
      else
        t.(pending := t.pending[request.id := Entry(t.admitted, request, UNRESOLVED, 0)],
           admitted := t.admitted + 1,
           log := t.log + [Requested(request)])
    case Resolve(id, approved, reason, optionId) =>
      if !CanResolve(t, id, reason, optionId) then t
      else
        var entry := t.pending[id];
        Settle(t, id, MakeResolution(entry.request, Decide(entry.request, approved, optionId).value, reason, optionId))
    case Poll(ids, contextDone) =>
      var answer := Answer(t, ids, contextDone);
      if answer.Some? && answer.value.Ok? then
        var r := answer.value.value;
        t.(pending := t.pending - {r.id}, consumed := t.consumed + [r], handed := t.handed + [r])
      else t
    case Remove(id, token) =>
      if id in t.pending && t.pending[id].token == token then t.(pending := t.pending - {id}) else t
    case Start(index) =>
      if index >= |t.handed| then t
      else
        var r := t.handed[index];
        t.(handed := Without(t.handed, index),
           log := if r.approved then t.log + [Started(r.id, r.toolCallId)] else t.log)
  }

  ghost function Run(t: Table, steps: seq<Step>): Table
    decreases |steps|
  {
    if steps == [] then t else Run(Next(t, steps[0]), steps[1..])
  }

  // What holds in every reachable table

  /** Entries name themselves; decided ones carry their own decision and a number of their own. */
  predicate SoundEntries(t: Table) {
    && (forall id :: id in t.pending ==>
          t.pending[id].request.id == id && t.pending[id].order <= t.nextOrder && t.pending[id].token < t.admitted)
    && (forall id :: id in t.pending && t.pending[id].order != 0 ==> t.pending[id].resolution.id == id)
    && (forall a, b :: a in t.pending && b in t.pending && t.pending[a].order == t.pending[b].order != 0 ==> a == b)
    && (forall a, b :: a in t.pending && b in t.pending && t.pending[a].token == t.pending[b].token ==> a == b)
  }

  predicate Bounded(t: Table) {
    |Unresolved(t.pending)| <= MAX_PENDING
  }

  lemma SubsetIsSmaller(a: set<string>, b: set<string>)
    requires a <= b
    ensures |a| <= |b|
  {
    if a != b {
      assert b == a + (b - a);
      assert |b| == |a| + |b - a|;
    }
  }

  lemma StepKeepsBounded(t: Table, step: Step)
    requires Bounded(t)
    ensures Bounded(Next(t, step))
  {
    var u := Next(t, step);
    if step.Register? && u.pending != t.pending {
      assert Unresolved(u.pending) == Unresolved(t.pending) + {step.request.id};
    } else {
      assert Unresolved(u.pending) <= Unresolved(t.pending);
      SubsetIsSmaller(Unresolved(u.pending), Unresolved(t.pending));
    }
  }

  lemma RegisterKeepsSound(t: Table, request: Request)
    requires SoundEntries(t)
    ensures SoundEntries(Next(t, Register(request)))
  {
  }

  lemma ResolveKeepsSound(t: Table, id: string, approved: bool, reason: string, optionId: string)
    requires SoundEntries(t)
    ensures SoundEntries(Next(t, Resolve(id, approved, reason, optionId)))
  {
  }

  /** Taking an entry out keeps the rest. */
  lemma SmallerKeepsSound(t: Table, u: Table, id: string)
    requires SoundEntries(t) && u.pending == t.pending - {id} && u.nextOrder == t.nextOrder && u.admitted == t.admitted
    ensures SoundEntries(u)
  {
  }

  lemma StepKeepsSound(t: Table, step: Step)
    requires SoundEntries(t)
    ensures SoundEntries(Next(t, step))
  {
    var u := Next(t, step);
    match step
    case Register(request) => RegisterKeepsSound(t, request);
    case Resolve(id, approved, reason, optionId) => ResolveKeepsSound(t, id, approved, reason, optionId);
    case Poll(ids, contextDone) =>
      PollTakesEarliest(t, ids, contextDone);
      if u != t {
        SmallerKeepsSound(t, u, Answer(t, ids, contextDone).value.value.id);
      }
    case Remove(id, token) =>
      if u != t {
        SmallerKeepsSound(t, u, id);
      }
    case Start(index) =>
  }

  /** There is at most one earliest decision, so which one a waiter gets does not depend on how it looks. */
  lemma EarliestIsUnique(t: Table, ids: set<string>, a: string, b: string)
    requires SoundEntries(t) && Earliest(t, ids, a) && Earliest(t, ids, b)
    ensures a == b
  {
  }

  /** A waiter took the decision r out of the table. */
  predicate Took(t: Table, u: Table, r: Resolution) {
    && r.id in t.pending && t.pending[r.id].order != 0 && r == t.pending[r.id].resolution
    && u == t.(pending := t.pending - {r.id}, consumed := t.consumed + [r], handed := t.handed + [r])
  }

  /** A look at the table takes the earliest decision of the waiter's own approvals, or changes nothing. */
  lemma PollTakesEarliest(t: Table, ids: set<string>, contextDone: bool)
    requires SoundEntries(t)
    ensures var u, answer := Next(t, Poll(ids, contextDone)), Answer(t, ids, contextDone);
      if answer.Some? && answer.value.Ok? then Took(t, u, answer.value.value) && Earliest(t, ids, answer.value.value.id)
      else u == t
  {
  }

  // Each approval is decided, taken and started at most once, in that order

  function CountRequested(log: seq<Event>, id: string): nat {
    if log == [] then 0
    else
      var last := log[|log| - 1];
      CountRequested(log[..|log| - 1], id) + if last.Requested? && last.request.id == id then 1 else 0
  }

  function CountResolved(log: seq<Event>, id: string): nat {
    if log == [] then 0
    else
      var last := log[|log| - 1];
      CountResolved(log[..|log| - 1], id) + if last.Resolved? && last.resolution.id == id then 1 else 0
  }

  function CountStarted(log: seq<Event>, id: string): nat {
    if log == [] then 0
    else
      var last := log[|log| - 1];
      CountStarted(log[..|log| - 1], id) + if last.Started? && last.id == id then 1 else 0
  }

  function CountOf(rs: seq<Resolution>, id: string): nat {
    if rs == [] then 0
    else CountOf(rs[..|rs| - 1], id) + if rs[|rs| - 1].id == id then 1 else 0
  }

  lemma CountsSnoc(log: seq<Event>, e: Event, id: string)
    ensures CountRequested(log + [e], id) == CountRequested(log, id) + if e.Requested? && e.request.id == id then 1 else 0
    ensures CountResolved(log + [e], id) == CountResolved(log, id) + if e.Resolved? && e.resolution.id == id then 1 else 0
    ensures CountStarted(log + [e], id) == CountStarted(log, id) + if e.Started? && e.id == id then 1 else 0
  {
  }

  lemma CountOfSnoc(rs: seq<Resolution>, r: Resolution, id: string)
    ensures CountOf(rs + [r], id) == CountOf(rs, id) + if r.id == id then 1 else 0
  {
  }

  lemma {:induction false} CountOfWithout(rs: seq<Resolution>, i: nat, id: string)
    requires i < |rs|
    ensures CountOf(Without(rs, i), id) == CountOf(rs, id) - if rs[i].id == id then 1 else 0
  {
    var n := |rs| - 1;
    if i == n {
      assert Without(rs, i) == rs[..n];
    } else {
      CountOfWithout(rs[..n], i, id);
      assert Without(rs, i) == Without(rs[..n], i) + [rs[n]];
      CountOfSnoc(Without(rs[..n], i), rs[n], id);
    }
  }

  /** A request is decided at most once, a decision taken at most once, and a taken one acted on at most once. */
  predicate Once(t: Table, id: string) {
    && CountResolved(t.log, id) +
         (if id in t.pending && t.pending[id].order == 0 then 1 else 0) <= CountRequested(t.log, id)
    && CountOf(t.consumed, id) +
         (if id in t.pending && t.pending[id].order != 0 then 1 else 0) <= CountResolved(t.log, id)
    && CountStarted(t.log, id) + CountOf(t.handed, id) <= CountOf(t.consumed, id)
  }

  lemma TakingKeepsOnce(t: Table, u: Table, r: Resolution, id: string)
    requires Once(t, id) && Took(t, u, r)
    ensures Once(u, id)
  {
    CountOfSnoc(t.consumed, r, id);
    CountOfSnoc(t.handed, r, id);
  }

  lemma ResolvingKeepsOnce(t: Table, other: string, approved: bool, reason: string, optionId: string, id: string)
    requires SoundEntries(t) && Once(t, id)
    ensures Once(Next(t, Resolve(other, approved, reason, optionId)), id)
  {
    var u := Next(t, Resolve(other, approved, reason, optionId));
    if u != t {
      CountsSnoc(t.log, u.log[|t.log|], id);
    }
  }

  lemma StartingKeepsOnce(t: Table, index: nat, id: string)
    requires Once(t, id)
    ensures Once(Next(t, Start(index)), id)
  {
    if index < |t.handed| {
      CountsSnoc(t.log, Started(t.handed[index].id, t.handed[index].toolCallId), id);
      CountOfWithout(t.handed, index, id);
    }
  }

  lemma RegisteringKeepsOnce(t: Table, request: Request, id: string)
    requires Once(t, id)
    ensures Once(Next(t, Register(request)), id)
  {
    CountsSnoc(t.log, Requested(request), id);
  }

  lemma RemovingKeepsOnce(t: Table, other: string, token: nat, id: string)
    requires Once(t, id)
    ensures Once(Next(t, Remove(other, token)), id)
  {
  }

  lemma StepKeepsOnce(t: Table, step: Step, id: string)
    requires SoundEntries(t) && Once(t, id)
    ensures Once(Next(t, step), id)
  {
    match step
    case Register(request) => RegisteringKeepsOnce(t, request, id);
    case Resolve(other, approved, reason, optionId) => ResolvingKeepsOnce(t, other, approved, reason, optionId, id);
    case Poll(ids, contextDone) =>
      PollTakesEarliest(t, ids, contextDone);
      if Next(t, step) != t {
        TakingKeepsOnce(t, Next(t, step), Answer(t, ids, contextDone).value.value, id);
      }
    case Remove(other, token) => RemovingKeepsOnce(t, other, token, id);
    case Start(index) => StartingKeepsOnce(t, index, id);
  }

  predicate SawRequest(log: seq<Event>, id: string) {
    exists i :: 0 <= i < |log| && log[i].Requested? && log[i].request.id == id
  }

  predicate SawApproval(log: seq<Event>, id: string) {
    exists i :: 0 <= i < |log| && log[i].Resolved? && log[i].resolution.id == id && log[i].resolution.approved
  }

  /** Before each decision its request was published, before each start an approving decision. */
  predicate Justified(log: seq<Event>, k: nat)
    requires k < |log|
  {
    match log[k]
    case Requested(_) => true
    case Resolved(r) => SawRequest(log[..k], r.id)
    case Started(id, _) => SawApproval(log[..k], id)
  }

  predicate InOrder(log: seq<Event>) {
    forall k :: 0 <= k < |log| ==> Justified(log, k)
  }

  predicate Backed(t: Table) {
    && (forall id :: id in t.pending ==> SawRequest(t.log, id))
    && (forall id :: id in t.pending && t.pending[id].order != 0 ==> Resolved(t.pending[id].resolution) in t.log)
    && (forall r :: r in t.handed ==> Resolved(r) in t.log)
  }

  lemma SawMore(log: seq<Event>, e: Event, id: string)
    ensures SawRequest(log, id) ==> SawRequest(log + [e], id)
    ensures e.Requested? && e.request.id == id ==> SawRequest(log + [e], id)
  {
    if SawRequest(log, id) {
      var i :| 0 <= i < |log| && log[i].Requested? && log[i].request.id == id;
      assert (log + [e])[i] == log[i];
    }
    assert (log + [e])[|log|] == e;
  }

  lemma OrderSnoc(log: seq<Event>, e: Event)
    requires InOrder(log)
    requires e.Resolved? ==> SawRequest(log, e.resolution.id)
    requires e.Started? ==> SawApproval(log, e.id)
    ensures InOrder(log + [e])
  {
    forall k | 0 <= k < |log + [e]|
      ensures Justified(log + [e], k)
    {
      if k < |log| {
        assert Justified(log, k);
        assert (log + [e])[..k] == log[..k];
      } else {
        assert (log + [e])[..k] == log;
      }
    }
  }

  lemma LogGrowthKeepsBacked(t: Table, u: Table, e: Event)
    requires Backed(t) && u.log == t.log + [e]
    requires forall id :: id in u.pending && u.pending != t.pending ==>
      (id in t.pending && t.pending[id] == u.pending[id]) || (id in t.pending && e == Resolved(u.pending[id].resolution)) ||
      (u.pending[id].order == 0 && e.Requested? && e.request.id == id)
    requires forall r :: r in u.handed ==> r in t.handed
    ensures Backed(u)
  {
    forall id | id in u.pending
      ensures SawRequest(u.log, id)
    {
      SawMore(t.log, e, id);
    }
  }

  lemma StepKeepsOrder(t: Table, step: Step)
    requires SoundEntries(t) && Backed(t) && InOrder(t.log)
    ensures Backed(Next(t, step)) && InOrder(Next(t, step).log)
  {
    var u := Next(t, step);
    match step
    case Register(request) =>
      if u.log != t.log {
        OrderSnoc(t.log, Requested(request));
        LogGrowthKeepsBacked(t, u, Requested(request));
      }
    case Resolve(id, approved, reason, optionId) =>
      if u != t {
        OrderSnoc(t.log, u.log[|t.log|]);
        LogGrowthKeepsBacked(t, u, u.log[|t.log|]);
      }
    case Poll(ids, contextDone) =>
      PollTakesEarliest(t, ids, contextDone);
    case Remove(id, token) =>
    case Start(index) =>
      if index < |t.handed| {
        var r := t.handed[index];
        if r.approved {
          assert Resolved(r) in t.log;
          OrderSnoc(t.log, Started(r.id, r.toolCallId));
          LogGrowthKeepsBacked(t, u, Started(r.id, r.toolCallId));
        }
      }
  }

  // Laws of runs

  predicate Sound(t: Table) {
    SoundEntries(t) && Bounded(t) && Backed(t) && InOrder(t.log)
  }

  lemma NextKeepsSound(t: Table, step: Step)
    requires Sound(t)
    ensures Sound(Next(t, step))
  {
    StepKeepsSound(t, step);
    StepKeepsBounded(t, step);
    StepKeepsOrder(t, step);
  }

  lemma {:induction false} RunKeepsSound(t: Table, steps: seq<Step>)
    requires Sound(t)
    ensures Sound(Run(t, steps))
    decreases |steps|
  {
    if steps != [] {
      NextKeepsSound(t, steps[0]);
      RunKeepsSound(Next(t, steps[0]), steps[1..]);
    }
  }

  lemma {:induction false} RunKeepsOnce(t: Table, steps: seq<Step>, id: string)
    requires SoundEntries(t) && Once(t, id)
    ensures Once(Run(t, steps), id)
    decreases |steps|
  {
    if steps != [] {
      StepKeepsSound(t, steps[0]);
      StepKeepsOnce(t, steps[0], id);
      RunKeepsOnce(Next(t, steps[0]), steps[1..], id);
    }
  }

  /**
   Over all interleavings at most 32 approvals are undecided; each request is decided, taken and started at
   most once; and on the stream request comes before decision and decision before start.
   */
  lemma ApprovalsAreOrderly(steps: seq<Step>, id: string)
    ensures var t := Run(EMPTY, steps);
      && |Unresolved(t.pending)| <= MAX_PENDING
      && CountStarted(t.log, id) <= CountOf(t.consumed, id) <= CountResolved(t.log, id) <= CountRequested(t.log, id)
      && InOrder(t.log)
  {
    assert Unresolved(EMPTY.pending) == {};
    RunKeepsSound(EMPTY, steps);
    RunKeepsOnce(EMPTY, steps, id);
  }

  /** Nothing is admitted, decided or taken: only starts of decisions taken before may still be published. */
  ghost predicate OnlyStarts(t: Table, u: Table) {
    && u.failed && u.nextOrder == t.nextOrder && u.admitted == t.admitted && u.consumed == t.consumed
    && t.log <= u.log
    && (forall k :: |t.log| <= k < |u.log| ==> u.log[k].Started?)
    && (forall id :: id in u.pending ==> id in t.pending && u.pending[id] == t.pending[id])
  }

  /** After an overflow the run's approvals are closed for good. */
  lemma {:induction false} OverflowIsFinal(t: Table, steps: seq<Step>)
    requires t.failed
    ensures OnlyStarts(t, Run(t, steps))
    decreases |steps|
  {
    if steps != [] {
      var u := Next(t, steps[0]);
      assert OnlyStarts(t, u);
      OverflowIsFinal(u, steps[1..]);
    }
  }

  /** Overflow happens exactly when one more request than the limit comes in. */
  lemma OverflowNeedsALot(t: Table, step: Step)
    requires !t.failed
    ensures Next(t, step).failed <==>
      step.Register? && step.request.id !in t.pending && |Unresolved(t.pending)| >= MAX_PENDING
  {
  }

  /** The steps of owners other than the one of approval id: they wait on and remove only their own. */
  predicate Foreign(step: Step, id: string) {
    && (step.Poll? ==> id !in step.ids)
    && (step.Remove? ==> step.approval != id)
  }

  function Decided(entry: Entry): Option<Result<Resolution, Failure>> {
    if entry.order == 0 then None else Some(Ok(entry.resolution))
  }

  /** The approval is still there, and a decision once made is still the same. */
  predicate Stays(t: Table, u: Table, id: string)
    requires id in t.pending
  {
    && id in u.pending
    && u.pending[id].token == t.pending[id].token
    && (t.pending[id].order != 0 ==> u.pending[id] == t.pending[id])
  }

  lemma ForeignStepKeeps(t: Table, step: Step, id: string)
    requires SoundEntries(t) && id in t.pending && Foreign(step, id)
    ensures Stays(t, Next(t, step), id)
  {
    if step.Poll? {
      PollTakesEarliest(t, step.ids, step.contextDone);
    }
  }

  lemma {:induction false} OthersNeverTake(t: Table, steps: seq<Step>, id: string)
    requires SoundEntries(t) && id in t.pending
    requires forall step :: step in steps ==> Foreign(step, id)
    ensures SoundEntries(Run(t, steps)) && Stays(t, Run(t, steps), id)
    decreases |steps|
  {
    if steps != [] {
      assert steps[0] in steps;
      StepKeepsSound(t, steps[0]);
      ForeignStepKeeps(t, steps[0], id);
      OthersNeverTake(Next(t, steps[0]), steps[1..], id);
    }
  }

  /** A waiter on one admitted approval waits while it is undecided, and then gets its decision. */
  lemma WaiterGetsItsDecision(t: Table, id: string)
    requires SoundEntries(t) && id in t.pending && !t.failed
    ensures Answer(t, {id}, false) == Decided(t.pending[id])
  {
    assert t.pending[id].order != 0 ==> Earliest(t, {id}, id);
  }

  /**
   No other owner can take an approval away: until its own waiter takes it, an admitted approval stays, a
   decision once made stays, and the waiter is never told that it is not pending.
   */
  lemma OwnApprovalIsNeverLost(t: Table, steps: seq<Step>, id: string)
    requires SoundEntries(t) && id in t.pending
    requires forall step :: step in steps ==> Foreign(step, id)
    ensures var u := Run(t, steps);
      && Stays(t, u, id)
      && (!u.failed ==> Answer(u, {id}, false) == Decided(u.pending[id]))
  {
    OthersNeverTake(t, steps, id);
    if !Run(t, steps).failed {
      WaiterGetsItsDecision(Run(t, steps), id);
    }
  }

  lemma {:induction false} EarliestExists(t: Table, ids: set<string>, id: string)
    requires Ready(t, ids, id)
    ensures exists e :: Earliest(t, ids, e)
    decreases t.pending[id].order
  {
    if !Earliest(t, ids, id) {
      var other :| other in ids && Ready(t, ids, other) && t.pending[other].order < t.pending[id].order;
      EarliestExists(t, ids, other);
    }
  }

  /** A waiter whose approvals are all admitted is kept waiting exactly while none of them is decided. */
  lemma WaitsWhileUndecided(t: Table, ids: set<string>)
    requires !t.failed && ids != {} && forall id :: id in ids ==> id in t.pending
    ensures Answer(t, ids, false).None? <==> forall id :: id in ids ==> t.pending[id].order == 0
    ensures Answer(t, ids, false).Some? ==> Answer(t, ids, false).value.Ok?
  {
    if id :| id in ids && t.pending[id].order != 0 {
      assert Ready(t, ids, id);
      EarliestExists(t, ids, id);
    }
  }

  /** The channel of an entry, known by its token, is closed in the step that decides it. */
  predicate ChannelClosed(t: Table, token: nat) {
    exists id :: id in t.pending && t.pending[id].token == token && t.pending[id].order != 0
  }

  /** A waiter that went to sleep on the entries of t is woken by one of their channels. */
  predicate Woken(t: Table, u: Table, ids: set<string>)
    requires forall id :: id in ids ==> id in t.pending
  {
    exists id :: id in ids && ChannelClosed(u, t.pending[id].token)
  }

  lemma OthersKeepAll(t: Table, steps: seq<Step>, ids: set<string>)
    requires SoundEntries(t) && ids != {} && forall id :: id in ids ==> id in t.pending
    requires forall id, step :: id in ids && step in steps ==> Foreign(step, id)
    ensures SoundEntries(Run(t, steps)) && forall id :: id in ids ==> Stays(t, Run(t, steps), id)
  {
    forall id | id in ids
      ensures SoundEntries(Run(t, steps)) && Stays(t, Run(t, steps), id)
    {
      OthersNeverTake(t, steps, id);
    }
  }

  /**
   A sleeping waiter misses no decision: whatever the others do, it is woken exactly when a look would answer it,
   since the entries it sleeps on are those that are decided.
   */
  lemma SleeperIsWoken(t: Table, steps: seq<Step>, ids: set<string>)
    requires SoundEntries(t) && ids != {} && forall id :: id in ids ==> id in t.pending
    requires forall id, step :: id in ids && step in steps ==> Foreign(step, id)
    ensures var u := Run(t, steps);
      !u.failed ==> (Woken(t, u, ids) <==> Answer(u, ids, false).Some?)
  {
    OthersKeepAll(t, steps, ids);
    var u := Run(t, steps);
    assert forall id :: id in ids ==> Stays(t, u, id);
    if !u.failed {
      WaitsWhileUndecided(u, ids);
      forall id | id in ids
        ensures ChannelClosed(u, t.pending[id].token) <==> u.pending[id].order != 0
      {
        assert Stays(t, u, id);
      }
    }
  }

  // Decisions say what their caller meant

  predicate FirstWith(options: seq<Choice>, optionId: string, i: int) {
    0 <= i < |options| && options[i].id == optionId && forall k :: 0 <= k < i ==> options[k].id != optionId
  }

  predicate Permits(kind: string) {
    |kind| >= 6 && kind[..6] == "allow_"
  }

  /** Without an option the caller's own word counts; with one, the kind of the first option of that id. */
  predicate Meant(request: Request, approved: bool, optionId: string, decision: bool) {
    if optionId == "" then decision == approved
    else exists i :: 0 <= i < |request.options| && FirstWith(request.options, optionId, i) && decision == Permits(request.options[i].kind)
  }

  predicate Offered(request: Request, optionId: string) {
    optionId == "" || exists i :: 0 <= i < |request.options| && request.options[i].id == optionId
  }

  lemma DecideIsMeant(request: Request, approved: bool, optionId: string)
    ensures Decide(request, approved, optionId).Some? <==> Offered(request, optionId)
    ensures Decide(request, approved, optionId).Some? ==>
      Meant(request, approved, optionId, Decide(request, approved, optionId).value)
  {
    var i := OptionIndex(request.options, optionId);
    if optionId != "" && i < |request.options| {
      var kind := request.options[i].kind;
      assert FirstWith(request.options, optionId, i);
      PrefixPermits(kind);
    }
  }

  lemma PrefixPermits(kind: string)
    ensures ALLOW <= kind <==> Permits(kind)
  {
    assert |ALLOW| == 6;
  }

  /** One of the steps taken decides the request so, and the request has been published. */
  predicate Decides(step: Step, e: Event, r: Resolution) {
    && step.Resolve? && step.id == r.id
    && e.Requested? && e.request.id == r.id && e.request.toolCallId == r.toolCallId
    && Meant(e.request, step.approved, step.optionId, r.approved)
    && r.optionId == step.optionId && r.reason == (if r.approved then "" else step.reason)
  }

  predicate DecidedBy(steps: seq<Step>, log: seq<Event>, r: Resolution) {
    exists k, i :: 0 <= k < |steps| && 0 <= i < |log| && Decides(steps[k], log[i], r)
  }

  predicate StartedFor(log: seq<Event>, e: Event) {
    e.Started? ==> exists i ::
      0 <= i < |log| && log[i].Resolved? && log[i].resolution.approved
      && log[i].resolution.id == e.id && log[i].resolution.toolCallId == e.toolCallId
  }

  /** Every pending request was published; every decision was somebody's; every start is of an approval. */
  predicate Genuine(t: Table, steps: seq<Step>) {
    && (forall id :: id in t.pending ==> Requested(t.pending[id].request) in t.log)
    && (forall e :: e in t.log && e.Resolved? ==> DecidedBy(steps, t.log, e.resolution))
    && (forall e :: e in t.log ==> StartedFor(t.log, e))
  }

  lemma MoreIsDecided(steps: seq<Step>, log: seq<Event>, step: Step, more: seq<Event>, r: Resolution)
    requires DecidedBy(steps, log, r)
    ensures DecidedBy(steps + [step], log + more, r)
  {
    var k, i :| 0 <= k < |steps| && 0 <= i < |log| && Decides(steps[k], log[i], r);
    assert (steps + [step])[k] == steps[k] && (log + more)[i] == log[i];
  }

  lemma MoreIsStarted(log: seq<Event>, more: seq<Event>, e: Event)
    requires StartedFor(log, e)
    ensures StartedFor(log + more, e)
  {
    if e.Started? {
      var i :| 0 <= i < |log| && log[i].Resolved? && log[i].resolution.approved
        && log[i].resolution.id == e.id && log[i].resolution.toolCallId == e.toolCallId;
      assert (log + more)[i] == log[i];
    }
  }

  /** One more event at most, itself as it should be, and no request pending that is not published. */
  lemma GenuineGrows(t: Table, u: Table, steps: seq<Step>, step: Step, more: seq<Event>)
    requires Genuine(t, steps) && u.log == t.log + more && |more| <= 1
    requires forall id :: id in u.pending ==> Requested(u.pending[id].request) in u.log
    requires more != [] && more[0].Resolved? ==> DecidedBy(steps + [step], u.log, more[0].resolution)
    requires more != [] ==> StartedFor(u.log, more[0])
    ensures Genuine(u, steps + [step])
  {
    forall e | e in u.log
      ensures e.Resolved? ==> DecidedBy(steps + [step], u.log, e.resolution)
      ensures StartedFor(u.log, e)
    {
      if e in t.log {
        if e.Resolved? {
          MoreIsDecided(steps, t.log, step, more, e.resolution);
        }
        MoreIsStarted(t.log, more, e);
      } else {
        assert e in more && e == more[0];
      }
    }
  }

  lemma ResolveIsGenuine(t: Table, steps: seq<Step>, id: string, approved: bool, reason: string, optionId: string)
    requires SoundEntries(t) && Genuine(t, steps)
    ensures var step := Resolve(id, approved, reason, optionId);
      Genuine(Next(t, step), steps + [step])
  {
    var step := Resolve(id, approved, reason, optionId);
    var u := Next(t, step);
    if CanResolve(t, id, reason, optionId) {
      var request := t.pending[id].request;
      var r := MakeResolution(request, Decide(request, approved, optionId).value, reason, optionId);
      DecideIsMeant(request, approved, optionId);
      assert u.log == t.log + [Resolved(r)];
      var i :| 0 <= i < |t.log| && t.log[i] == Requested(request);
      assert u.log[i] == t.log[i] && (steps + [step])[|steps|] == step;
      assert Decides(step, u.log[i], r);
      GenuineGrows(t, u, steps, step, [Resolved(r)]);
    } else {
      GenuineGrows(t, t, steps, step, []);
    }
  }

  lemma StartIsGenuine(t: Table, steps: seq<Step>, index: nat)
    requires Backed(t) && Genuine(t, steps)
    ensures Genuine(Next(t, Start(index)), steps + [Start(index)])
  {
    var u := Next(t, Start(index));
    if index < |t.handed| && t.handed[index].approved {
      var r := t.handed[index];
      assert r in t.handed;
      var i :| 0 <= i < |t.log| && t.log[i] == Resolved(r);
      var e := Started(r.id, r.toolCallId);
      assert u.log == t.log + [e] && u.log[i] == t.log[i];
      GenuineGrows(t, u, steps, Start(index), [e]);
    } else {
      GenuineGrows(t, u, steps, Start(index), []);
    }
  }

  lemma RegisterIsGenuine(t: Table, steps: seq<Step>, request: Request)
    requires Genuine(t, steps)
    ensures Genuine(Next(t, Register(request)), steps + [Register(request)])
  {
    var u := Next(t, Register(request));
    if u.log != t.log {
      assert u.log[|t.log|] == Requested(request);
      GenuineGrows(t, u, steps, Register(request), [Requested(request)]);
    } else {
      GenuineGrows(t, u, steps, Register(request), []);
    }
  }

  lemma StepIsGenuine(t: Table, steps: seq<Step>, step: Step)
    requires SoundEntries(t) && Backed(t) && Genuine(t, steps)
    ensures Genuine(Next(t, step), steps + [step])
  {
    match step
    case Register(request) => RegisterIsGenuine(t, steps, request);
    case Resolve(id, approved, reason, optionId) => ResolveIsGenuine(t, steps, id, approved, reason, optionId);
    case Poll(ids, contextDone) =>
      PollTakesEarliest(t, ids, contextDone);
      GenuineGrows(t, Next(t, step), steps, step, []);
    case Remove(_, _) => GenuineGrows(t, Next(t, step), steps, step, []);
    case Start(index) => StartIsGenuine(t, steps, index);
  }

  lemma {:induction false} RunIsGenuine(t: Table, taken: seq<Step>, steps: seq<Step>)
    requires Sound(t) && Genuine(t, taken)
    ensures Genuine(Run(t, steps), taken + steps)
    decreases |steps|
  {
    if steps == [] {
      assert taken + steps == taken;
    } else {
      NextKeepsSound(t, steps[0]);
      StepIsGenuine(t, taken, steps[0]);
      RunIsGenuine(Next(t, steps[0]), taken + [steps[0]], steps[1..]);
      assert taken + [steps[0]] + steps[1..] == taken + steps;
    }
  }

  /**
   Over all interleavings, a tool call is published as started only if someone approved it: there is a step that
   decides a request for this call, by the caller's own word or by an option that allows.
   */
  lemma StartsWereApproved(steps: seq<Step>, e: Event)
    ensures var t := Run(EMPTY, steps);
      e in t.log && e.Started? ==>
        exists k, i ::
          && 0 <= k < |steps| && 0 <= i < |t.log| && steps[k].Resolve? && steps[k].id == e.id
          && t.log[i].Requested? && t.log[i].request.id == e.id && t.log[i].request.toolCallId == e.toolCallId
          && Meant(t.log[i].request, steps[k].approved, steps[k].optionId, true)
  {
    assert Unresolved(EMPTY.pending) == {};
    RunIsGenuine(EMPTY, [], steps);
    assert [] + steps == steps;
    var t := Run(EMPTY, steps);
    if e in t.log && e.Started? {
      assert StartedFor(t.log, e);
      var j :| 0 <= j < |t.log| && t.log[j].Resolved? && t.log[j].resolution.approved
        && t.log[j].resolution.id == e.id && t.log[j].resolution.toolCallId == e.toolCallId;
      assert t.log[j] in t.log;
      assert DecidedBy(steps, t.log, t.log[j].resolution);
    }
  }
}
