/** The manager's locked sections, and the control that closes a transport still being connected. */
module ConnectionManager {
  import opened Wrappers
  import opened Connections

  class Manager {
    var stopping: bool
    var connections: map<string, Connection>
    var connecting: map<string, nat>
    /** The attempts made so far; `connecting` refers to them by number. */
    var attempts: seq<Attempt>
    ghost var tasks: seq<Task>
    ghost var sessions: seq<Place>

    ghost function View(): World
      reads this
    {
      World(stopping, connections, connecting, attempts, tasks, sessions)
    }

    constructor ()
      ensures View() == EMPTY && Sound(View())
    {
      stopping, connections, connecting, attempts := false, map[], map[], [];
      tasks, sessions := [], [];
    }

    /**
     The first locked section of connection: an answer, or the attempt to wait for or to make. What is stale is
     to be closed by the caller; it never comes with an attempt to wait for.
     */
    method Enter(task: nat, ask: Ask)
      returns (answer: Option<Result<Connection, Failure>>, attempt: nat, starts: bool, stale: Option<Connection>)
      requires task < |tasks| && tasks[task] == Ready(ask) && KeyIsSound(View(), ask.key)
      modifies this
      ensures View() == EnterTask(old(View()), task) == Next(old(View()), Step.Enter(task))
      ensures tasks[task] ==
        if answer.Some? then Done(ask, answer.value) else if starts then Opening(ask, attempt) else Waiting(ask, attempt)
      ensures stale == if IsStale(old(View()), ask) && !old(stopping) then Some(old(connections)[ask.key]) else None
      ensures answer.None? && !starts ==> stale.None?
      ensures stopping == old(stopping)
      ensures if stopping then answer == Some(Err(Stopping)) && connections == old(connections)
        else if ask.key in old(connections) && old(connections)[ask.key].fingerprint == ask.fingerprint then
          answer == Some(Ok(old(connections)[ask.key])) && connections == old(connections)
        else answer == None && connections == old(connections) - {ask.key}
      ensures answer.Some? || !starts ==> connecting == old(connecting) && attempts == old(attempts)
      ensures answer.None? ==> (starts <==> ask.key !in old(connecting))
      ensures answer.None? && !starts ==> attempt == connecting[ask.key]
      ensures answer.None? && starts ==>
        && attempt == |old(attempts)| && connecting == old(connecting)[ask.key := attempt]
        && attempts == old(attempts) + [Attempt(task, ask.key, ask.serverId, false, false, false, false, false)]
    {
      stale, attempt, starts := None, 0, false;
      if stopping {
        answer := Some(Err(Stopping));
        tasks := tasks[task := Done(ask, Err(Stopping))];
        return;
      }
      if ask.key in connections {
        var existing := connections[ask.key];
        if existing.fingerprint == ask.fingerprint {
          answer := Some(Ok(existing));
          tasks := tasks[task := Done(ask, Ok(existing))];
          return;
        }
        connections := connections - {ask.key};
        sessions := sessions[existing.session := Closing(existing.attempt)];
        stale := Some(existing);
      }
      answer := None;
      if ask.key in connecting {
        attempt := connecting[ask.key];
        tasks := tasks[task := Waiting(ask, attempt)];
        return;
      }
      attempt, starts := |attempts|, true;
      attempts := attempts + [Attempt(task, ask.key, ask.serverId, false, false, false, false, false)];
      connecting := connecting[ask.key := attempt];
      tasks := tasks[task := Opening(ask, attempt)];
    }

    /** The second locked section: the connection is installed unless it comes too late; then it is to be closed. */
    method Finish(task: nat, ask: Ask, attempt: nat, outcome: Option<Connection>)
      returns (result: Result<Connection, Failure>, late: Option<Connection>)
      requires task < |tasks| && tasks[task] == Opened(ask, attempt, outcome) && OpenedIsSound(View(), task)
      modifies this
      ensures View() == FinishTask(old(View()), task)
      ensures tasks[task] == Done(ask, result)
      ensures late == if outcome.Some? && result.Err? then outcome else None
      ensures var at := old(attempts)[attempt];
        result ==
          if outcome.None? then Err(OpenFailed)
          else if at.cancelled || at.contextDone || old(stopping) then Err(Canceled)
          else Ok(outcome.value)
      ensures connections == if result.Ok? then old(connections)[ask.key := outcome.value] else old(connections)
      ensures connecting == old(connecting) - {ask.key} && stopping == old(stopping)
      ensures |attempts| == |old(attempts)| && attempts[attempt].done && attempts[attempt].installed == result.Ok?
      ensures forall a :: 0 <= a < |attempts| && a != attempt ==> attempts[a] == old(attempts)[a]
    {
      connecting := connecting - {ask.key};
      var cancelled := attempts[attempt].cancelled || stopping || attempts[attempt].contextDone;
      var install := outcome.Some? && !cancelled;
      if install {
        connections := connections[ask.key := outcome.value];
      }
      attempts := attempts[attempt := Finished(attempts[attempt], outcome.None?, install)];
      if outcome.Some? {
        sessions := sessions[outcome.value.session :=
          if install then InstalledAt(ask.key) else Closing(outcome.value.attempt)];
      }
      late := None;
      if outcome.Some? && cancelled {
        late := outcome;
        result := Err(Canceled);
      } else if outcome.None? {
        result := Err(OpenFailed);
      } else {
        result := Ok(outcome.value);
      }
      tasks := tasks[task := Done(ask, result)];
    }

    /** The loop that takes the matching connections out of the table. */
    method TakeSelected(matches: (string, string) -> bool) returns (selected: set<Connection>)
      modifies this`connections
      ensures connections ==
        map key | key in old(connections) && !Selected(old(View()), matches, key) :: old(connections)[key]
      ensures selected ==
        set key | key in old(connections) && Selected(old(View()), matches, key) :: old(connections)[key]
    {
      var all := connections;
      selected := {};
      var rest := all.Keys;
      while rest != {}
        invariant rest <= all.Keys
        invariant connections == map key | key in all && (key in rest || !matches(key, all[key].serverId)) :: all[key]
        invariant selected == set key | key in all && key !in rest && matches(key, all[key].serverId) :: all[key]
        decreases |rest|
      {
        var key :| key in rest;
        if matches(key, all[key].serverId) {
          selected := selected + {all[key]};
          connections := connections - {key};
        }
        rest := rest - {key};
      }
    }

    /** The loop that cancels the matching attempts in flight. */
    method CancelConnecting(matches: (string, string) -> bool)
      requires Points(connecting, attempts)
      modifies this`attempts
      ensures attempts == CancelAttempts(old(View()), matches)
    {
      var before := attempts;
      var rest := connecting.Keys;
      while rest != {}
        invariant rest <= connecting.Keys && |attempts| == |before|
        invariant forall a :: 0 <= a < |before| ==>
          attempts[a] == AfterCancel(before[a], Reaches(connecting, rest, before[a], a, matches))
        decreases |rest|
      {
        var key :| key in rest;
        var a := connecting[key];
        if matches(attempts[a].key, attempts[a].serverId) {
          attempts := attempts[a := attempts[a].(cancelled := true, contextDone := true)];
        }
        rest := rest - {key};
      }
      assert attempts == CancelAttempts(old(View()), matches);
    }

    /** closeMatching, under the lock; the caller then closes what it returns. */
    method CloseMatching(matches: (string, string) -> bool) returns (selected: set<Connection>)
      requires Sound(View())
      modifies this
      ensures View() == CloseAll(old(View()), matches)
      ensures selected ==
        set key | key in old(connections) && Selected(old(View()), matches, key) :: old(connections)[key]
      ensures forall key :: key in connections <==>
        key in old(connections) && !matches(key, old(connections)[key].serverId)
      ensures forall key :: key in connections ==> connections[key] == old(connections)[key]
      ensures CancelledMatching(matches) && connecting == old(connecting) && stopping == old(stopping)
    {
      ghost var before := View();
      SoundPoints(before);
      selected := TakeSelected(matches);
      CancelConnecting(matches);
      sessions := ReleaseSelected(before, matches);
    }

    /** The attempts that are in flight for a matching key have been cancelled, and no other attempt is different. */
    twostate predicate CancelledMatching(matches: (string, string) -> bool)
      reads this
    {
      && |attempts| == |old(attempts)|
      && forall a :: 0 <= a < |attempts| ==>
           var before := old(attempts)[a];
           if before.key in old(connecting) && old(connecting)[before.key] == a && matches(before.key, before.serverId)
           then attempts[a] == before.(cancelled := true, contextDone := true)
           else attempts[a] == before
    }

    /** Shutdown, under the lock: what to close and which attempts to wait for, nothing if it was called before. */
    method Shutdown() returns (selected: set<Connection>, awaited: set<nat>)
      requires Sound(View())
      modifies this
      ensures View() == Next(old(View()), Step.Shutdown)
      ensures selected == if old(stopping) then {} else old(connections).Values
      ensures awaited == if old(stopping) then {} else old(connecting).Values
      ensures stopping && (!old(stopping) ==> connections == map[])
      ensures !old(stopping) ==>
        && |attempts| == |old(attempts)| && (forall a :: 0 <= a < |attempts| ==> attempts[a].contextDone)
        && forall key :: key in connecting ==> connecting[key] < |attempts| && attempts[connecting[key]].cancelled
    {
      if stopping {
        return {}, {};
      }
      ghost var before := View();
      selected := CloseMatching((key, server) => true);
      stopping := true;
      attempts := EndContexts(attempts);
      awaited := connecting.Values;
    }
  }

  /** Whether the loop has come to an attempt and finds that it matches. */
  predicate Reaches(connecting: map<string, nat>, rest: set<string>, attempt: Attempt, a: nat,
    matches: (string, string) -> bool)
  {
    attempt.key in connecting && attempt.key !in rest && connecting[attempt.key] == a &&
    matches(attempt.key, attempt.serverId)
  }

  function AfterCancel(attempt: Attempt, yes: bool): Attempt {
    if yes then attempt.(cancelled := true, contextDone := true) else attempt
  }

  /** Every registered attempt exists and is for its key. */
  predicate Points(connecting: map<string, nat>, attempts: seq<Attempt>) {
    forall key :: key in connecting ==> connecting[key] < |attempts| && attempts[connecting[key]].key == key
  }

  /** What a call that enters relies on: its key has a connection or an attempt, not both, and sessions exist. */
  predicate KeyIsSound(w: World, key: string) {
    && (key in w.connections ==> Owned(w, w.connections[key]))
    && (key in w.connections ==> key !in w.connecting)
  }

  /** What a call that finishes relies on: its attempt and its session exist. */
  predicate OpenedIsSound(w: World, i: nat)
    requires i < |w.tasks| && w.tasks[i].Opened?
  {
    w.tasks[i].attempt < |w.attempts| && (w.tasks[i].outcome.Some? ==> Owned(w, w.tasks[i].outcome.value))
  }

  /** A sound world meets what the methods rely on, and so, with `RunKeepsSound`, does every reachable one. */
  lemma SoundWorldIsReady(w: World, key: string, i: nat)
    requires Sound(w)
    ensures KeyIsSound(w, key)
    ensures i < |w.tasks| && w.tasks[i].Opened? ==> OpenedIsSound(w, i)
  {
  }

  lemma SoundPoints(w: World)
    requires Sound(w)
    ensures Points(w.connecting, w.attempts)
  {
  }

  // The control of a transport that is still being connected

  /** What has to be closed with an attempt: the transport's connection, or something a closer releases. */
  type Resource = nat

  datatype Control = Control(
    closed: bool,
    connection: Option<Resource>,
    closers: seq<Resource>,
    given: seq<Resource>,
    due: seq<Resource>,
    released: seq<Resource>)

  /** due are the closes a method owes once it has let go of the lock. */
  datatype ControlStep = Set(r: Resource) | AddCloser(r: Resource) | Close | Release(i: nat)

  const OPEN: Control := Control(false, None, [], [], [], [])

  function ToClose(c: Control): seq<Resource> {
    c.closers + if c.connection.Some? then [c.connection.value] else []
  }

  function NextControl(c: Control, step: ControlStep): Control {
    match step
    case Set(r) =>
      if !c.closed then c.(connection := Some(r), given := c.given + [r])
      else c.(given := c.given + [r], due := c.due + [r])
    case AddCloser(r) =>
      if !c.closed then c.(closers := c.closers + [r], given := c.given + [r])
      else c.(given := c.given + [r], due := c.due + [r])
    case Close => c.(closed := true, due := c.due + ToClose(c))
    case Release(i) =>
      if i < |c.due| then c.(due := c.due[..i] + c.due[i + 1..], released := c.released + [c.due[i]]) else c
  }

  function RunControl(c: Control, steps: seq<ControlStep>): Control
    decreases |steps|
  {
    if steps == [] then c else RunControl(NextControl(c, steps[0]), steps[1..])
  }

  /** The transport's connection is set at most once before the control is closed. */
  predicate SetOnce(c: Control, steps: seq<ControlStep>)
    decreases |steps|
  {
    steps == [] ||
    (!(steps[0].Set? && !c.closed && c.connection.Some?) && SetOnce(NextControl(c, steps[0]), steps[1..]))
  }

  /** Everything given is remembered while open, and closed or due to be closed afterwards; nothing else ever is. */
  ghost predicate Accounts(c: Control) {
    && (forall r :: r in c.given ==> r in ToClose(c) || r in c.due || r in c.released)
    && (c.closed ==> forall r :: r in c.given ==> r in c.due || r in c.released)
    && (!c.closed ==> c.due == [] && c.released == [])
    && (forall r :: r in ToClose(c) || r in c.due || r in c.released ==> r in c.given)
  }

  lemma StepKeepsAccounts(c: Control, step: ControlStep)
    requires Accounts(c) && !(step.Set? && !c.closed && c.connection.Some?)
    ensures Accounts(NextControl(c, step))
  {
  }

  lemma {:induction false} RunKeepsAccounts(c: Control, steps: seq<ControlStep>)
    requires Accounts(c) && SetOnce(c, steps)
    ensures Accounts(RunControl(c, steps))
    decreases |steps|
  {
    if steps != [] {
      StepKeepsAccounts(c, steps[0]);
      RunKeepsAccounts(NextControl(c, steps[0]), steps[1..]);
    }
  }

  /**
   Over all interleavings of set, addCloser and close: once the control is closed and all owed closes are made,
   exactly what was given to it has been closed; while it is open nothing has.
   */
  lemma ControlNeverLeaks(steps: seq<ControlStep>, r: Resource)
    requires SetOnce(OPEN, steps)
    ensures var c := RunControl(OPEN, steps);
      && (c.closed && c.due == [] ==> (r in c.released <==> r in c.given))
      && (!c.closed ==> r !in c.released)
  {
    RunKeepsAccounts(OPEN, steps);
  }

  /** A second connection set while open would take the place of the first, which is then never closed. */
  lemma SecondSetLeaks(a: Resource, b: Resource)
    requires a != b
    ensures var c := NextControl(NextControl(NextControl(OPEN, Set(a)), Set(b)), Close);
      c.closed && a in c.given && a !in c.due && a !in c.released
  {
  }

  predicate Distinct(s: seq<Resource>) {
    forall i, j :: 0 <= i < j < |s| ==> s[i] != s[j]
  }

  lemma {:induction false} GivenGrows(c: Control, steps: seq<ControlStep>)
    ensures c.given <= RunControl(c, steps).given
    decreases |steps|
  {
    if steps != [] {
      GivenGrows(NextControl(c, steps[0]), steps[1..]);
    }
  }

  /** What a step gives is new, if nothing is ever given twice. */
  lemma GivesNew(c: Control, steps: seq<ControlStep>)
    requires steps != [] && Distinct(RunControl(c, steps).given)
    ensures steps[0].Set? || steps[0].AddCloser? ==> steps[0].r !in c.given
  {
    var next := NextControl(c, steps[0]);
    GivenGrows(next, steps[1..]);
    assert next.given <= RunControl(next, steps[1..]).given;
    var all := RunControl(next, steps[1..]).given;
    forall i | 0 <= i < |c.given| && (steps[0].Set? || steps[0].AddCloser?)
      ensures c.given[i] != steps[0].r
    {
      assert all[i] == next.given[i] && all[|c.given|] == next.given[|c.given|];
    }
  }

  /** Given, and neither closed nor anywhere it will be closed from. */
  predicate Lost(c: Control, r: Resource) {
    r in c.given && r !in ToClose(c) && r !in c.due && r !in c.released
  }

  lemma {:induction false} LostStays(c: Control, steps: seq<ControlStep>, r: Resource)
    requires Lost(c, r) && Distinct(RunControl(c, steps).given)
    ensures Lost(RunControl(c, steps), r)
    decreases |steps|
  {
    if steps != [] {
      GivesNew(c, steps);
      LostStays(NextControl(c, steps[0]), steps[1..], r);
    }
  }

  /** The connection is not also the resource of a closer. */
  predicate Apart(c: Control) {
    c.connection.Some? ==> c.connection.value !in c.closers
  }

  lemma {:induction false} SecondSetLoses(c: Control, steps: seq<ControlStep>) returns (r: Resource)
    requires Accounts(c) && Apart(c) && !SetOnce(c, steps) && Distinct(RunControl(c, steps).given)
    ensures Lost(RunControl(c, steps), r)
    decreases |steps|
  {
    var next := NextControl(c, steps[0]);
    GivesNew(c, steps);
    if steps[0].Set? && !c.closed && c.connection.Some? {
      r := c.connection.value;
      assert r in ToClose(c);
      assert Lost(next, r);
      LostStays(next, steps[1..], r);
    } else {
      StepKeepsAccounts(c, steps[0]);
      assert forall closer :: closer in c.closers ==> closer in ToClose(c);
      r := SecondSetLoses(next, steps[1..]);
    }
  }

  /**
   When resources are distinct, the control is closed and all owed closes are made: everything given has been closed
   exactly when no second connection was set while it was open.
   */
  lemma ControlLeaksExactly(steps: seq<ControlStep>)
    ensures var c := RunControl(OPEN, steps);
      c.closed && c.due == [] && Distinct(c.given) ==>
        ((forall r :: r in c.given ==> r in c.released) <==> SetOnce(OPEN, steps))
  {
    var c := RunControl(OPEN, steps);
    if c.closed && c.due == [] && Distinct(c.given) {
      if SetOnce(OPEN, steps) {
        RunKeepsAccounts(OPEN, steps);
      } else {
        var r := SecondSetLoses(OPEN, steps);
      }
    }
  }

  class TransportControl {
    var connection: Option<Resource>
    var closers: seq<Resource>
    var closed: bool
    ghost var given: seq<Resource>
    ghost var due: seq<Resource>
    ghost var released: seq<Resource>

    ghost function View(): Control
      reads this
    {
      Control(closed, connection, closers, given, due, released)
    }

    constructor ()
      ensures View() == OPEN
    {
      connection, closers, closed := None, [], false;
      given, due, released := [], [], [];
    }

    method Set(r: Resource) returns (kept: bool, owed: seq<Resource>)
      modifies this
      ensures View() == NextControl(old(View()), ControlStep.Set(r))
      ensures kept == !old(closed) && due == old(due) + owed
      ensures owed == (if kept then [] else [r]) && closed == old(closed)
      ensures connection == if kept then Some(r) else old(connection)
    {
      given := given + [r];
      if !closed {
        connection := Some(r);
        assert due == due + [];
        return true, [];
      }
      due := due + [r];
      return false, [r];
    }

    method AddCloser(r: Resource) returns (owed: seq<Resource>)
      modifies this
      ensures View() == NextControl(old(View()), ControlStep.AddCloser(r))
      ensures due == old(due) + owed && owed == (if closed then [r] else []) && closed == old(closed)
      ensures closers == if closed then old(closers) else old(closers) + [r]
    {
      given := given + [r];
      if !closed {
        closers := closers + [r];
        assert due == due + [];
        return [];
      }
      due := due + [r];
      return [r];
    }

    method Close() returns (owed: seq<Resource>)
      modifies this
      ensures View() == NextControl(old(View()), ControlStep.Close)
      ensures due == old(due) + owed && closed
      ensures owed == closers + if connection.Some? then [connection.value] else []
    {
      closed := true;
      owed := closers;
      if connection.Some? {
        owed := owed + [connection.value];
      }
      assert owed == ToClose(old(View()));
      due := due + owed;
    }
  }
}
