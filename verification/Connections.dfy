/**
 Opening MCP connections, one attempt per key at a time, while sessions and servers are closed, callers give up
 and the manager shuts down. Every locked section and every return of an open is one atomic step; the laws hold
 for all interleavings. `ConnectionManager` refines the locked sections.
 */
module Connections {
  import opened Wrappers

  datatype Ask = Ask(key: string, serverId: string, fingerprint: string)

  /**
   A live connection; session numbers are given out in the order in which opens succeed. Its cancel function ends the
   context of the attempt that opened it.
   */
  datatype Connection = Connection(key: string, serverId: string, fingerprint: string, session: nat, attempt: nat)

  /**
   owner is the call that made the attempt, cancelled its flag, contextDone its context, fired a cancellation by
   the caller that is on its way to that context.
   */
  datatype Attempt = Attempt(
    owner: nat,
    key: string,
    serverId: string,
    cancelled: bool,
    contextDone: bool,
    fired: bool,
    done: bool,
    installed: bool)

  datatype Failure = Stopping | CallerDone | Canceled | OpenFailed

  /** Where a call of connection stands. */
  datatype Task =
    | Fresh(ask: Ask)
    | Ready(ask: Ask)
    | Waiting(ask: Ask, attempt: nat)
    | Opening(ask: Ask, attempt: nat)
    | Opened(ask: Ask, attempt: nat, outcome: Option<Connection>)
    | Done(ask: Ask, result: Result<Connection, Failure>)

  /**
   Who is to close a session that was opened: its call, the table of connections, a closer, which first ends the
   context of the attempt, or nobody any more.
   */
  datatype Place = HeldBy(task: nat) | InstalledAt(key: string) | Closing(attempt: nat) | Closed

  datatype World = World(
    stopping: bool,
    connections: map<string, Connection>,
    connecting: map<string, nat>,
    attempts: seq<Attempt>,
    tasks: seq<Task>,
    sessions: seq<Place>)

  datatype Step =
    | Call(ask: Ask)
    | Begin(task: nat, callerDone: bool)
    | Enter(task: nat)
    | Wake(task: nat)
    | GiveUp(task: nat)
    | CallerCancels(task: nat)
    | CancellationLands(attempt: nat)
    | OpenReturns(task: nat, ok: bool)
    | Finish(task: nat)
    | CloseMatching(matches: (string, string) -> bool)
    | Shutdown
    | CloseSession(session: nat)

  const EMPTY: World := World(false, map[], map[], [], [], [])

  function SetTask(w: World, i: nat, t: Task): World
    requires i < |w.tasks|
  {
    w.(tasks := w.tasks[i := t])
  }

  predicate Owned(w: World, c: Connection) {
    c.session < |w.sessions|
  }

  /** Removing a connection leaves its session to be closed by whoever removed it. */
  function Drop(w: World, key: string): World
    requires key in w.connections && Owned(w, w.connections[key])
  {
    var c := w.connections[key];
    w.(connections := w.connections - {key}, sessions := w.sessions[c.session := Closing(c.attempt)])
  }

  predicate IsStale(w: World, ask: Ask) {
    ask.key in w.connections && w.connections[ask.key].fingerprint != ask.fingerprint
  }

  /** The first locked section, once no matching connection is found. */
  function JoinOrStart(w: World, i: nat): World
    requires i < |w.tasks|
  {
    var ask := w.tasks[i].ask;
    if ask.key in w.connecting then SetTask(w, i, Waiting(ask, w.connecting[ask.key]))
    else
      var a := |w.attempts|;
      SetTask(w, i, Opening(ask, a)).(
        attempts := w.attempts + [Attempt(i, ask.key, ask.serverId, false, false, false, false, false)],
        connecting := w.connecting[ask.key := a])
  }

  function EnterTask(w: World, i: nat): World
    requires i < |w.tasks| && (w.tasks[i].ask.key in w.connections ==> Owned(w, w.connections[w.tasks[i].ask.key]))
  {
    var ask := w.tasks[i].ask;
    if w.stopping then SetTask(w, i, Done(ask, Err(Stopping)))
    else if ask.key in w.connections && !IsStale(w, ask) then SetTask(w, i, Done(ask, Ok(w.connections[ask.key])))
    else JoinOrStart(if IsStale(w, ask) then Drop(w, ask.key) else w, i)
  }

  /** The open returns, with a session of its own or an error. */
  function ReturnOpen(w: World, i: nat, ok: bool): World
    requires i < |w.tasks| && w.tasks[i].Opening?
  {
    var t := w.tasks[i];
    if ok then
      var c := Connection(t.ask.key, t.ask.serverId, t.ask.fingerprint, |w.sessions|, t.attempt);
      SetTask(w, i, Opened(t.ask, t.attempt, Some(c))).(sessions := w.sessions + [HeldBy(i)])
    else SetTask(w, i, Opened(t.ask, t.attempt, None))
  }

  predicate IsCancelled(w: World, a: nat)
    requires a < |w.attempts|
  {
    w.attempts[a].cancelled || w.stopping || w.attempts[a].contextDone
  }

  /** An attempt once its call is through with it; a failed open ends its context. */
  function Finished(attempt: Attempt, failed: bool, install: bool): Attempt {
    attempt.(done := true, installed := install, contextDone := attempt.contextDone || failed)
  }

  /** The second locked section, and what its call does right after it with a late connection or a failed open. */
  function FinishTask(w: World, i: nat): World
    requires i < |w.tasks| && w.tasks[i].Opened? && w.tasks[i].attempt < |w.attempts|
    requires w.tasks[i].outcome.Some? ==> Owned(w, w.tasks[i].outcome.value)
  {
    var t := w.tasks[i];
    var install := t.outcome.Some? && !IsCancelled(w, t.attempt);
    var result :=
      if t.outcome.None? then Err(OpenFailed) else if install then Ok(t.outcome.value) else Err(Canceled);
    SetTask(w, i, Done(t.ask, result)).(
      connecting := w.connecting - {t.ask.key},
      attempts := w.attempts[t.attempt := Finished(w.attempts[t.attempt], t.outcome.None?, install)],
      connections := if install then w.connections[t.ask.key := t.outcome.value] else w.connections,
      sessions :=
        if t.outcome.None? then w.sessions
        else w.sessions[t.outcome.value.session :=
          if install then InstalledAt(t.ask.key) else Closing(t.outcome.value.attempt)])
  }

  function CancelAttempts(w: World, matches: (string, string) -> bool): seq<Attempt> {
    seq(|w.attempts|, a requires 0 <= a < |w.attempts| =>
      var at := w.attempts[a];
      if at.key in w.connecting && w.connecting[at.key] == a && matches(at.key, at.serverId)
      then at.(cancelled := true, contextDone := true)
      else at)
  }

  predicate Selected(w: World, matches: (string, string) -> bool, key: string) {
    key in w.connections && matches(key, w.connections[key].serverId)
  }

  function ReleaseSelected(w: World, matches: (string, string) -> bool): seq<Place> {
    seq(|w.sessions|, s requires 0 <= s < |w.sessions| =>
      if w.sessions[s].InstalledAt? && Selected(w, matches, w.sessions[s].key)
      then Closing(w.connections[w.sessions[s].key].attempt)
      else w.sessions[s])
  }

  function CloseAll(w: World, matches: (string, string) -> bool): World {
    w.(connections := map key | key in w.connections && !Selected(w, matches, key) :: w.connections[key],
       sessions := ReleaseSelected(w, matches),
       attempts := CancelAttempts(w, matches))
  }

  /** Cancelling the manager's context ends the context of every attempt. */
  function EndContexts(attempts: seq<Attempt>): seq<Attempt> {
    seq(|attempts|, a requires 0 <= a < |attempts| => attempts[a].(contextDone := true))
  }

  function EndContext(w: World, a: nat): World {
    if a < |w.attempts| then w.(attempts := w.attempts[a := w.attempts[a].(contextDone := true)]) else w
  }

  /** Shutdown, under the lock: everything is closed and cancelled, and the manager's own context ends. */
  function Stopped(w: World): World {
    if w.stopping then w
    else
      var all := CloseAll(w, (key, server) => true);
      all.(stopping := true, attempts := EndContexts(all.attempts))
  }

  function Next(w: World, step: Step): World {
    match step
    case Call(ask) => w.(tasks := w.tasks + [Fresh(ask)])
    case Begin(i, callerDone) =>
      if i < |w.tasks| && w.tasks[i].Fresh?
      then SetTask(w, i, if callerDone then Done(w.tasks[i].ask, Err(CallerDone)) else Ready(w.tasks[i].ask))
      else w
    case Enter(i) =>
      if i < |w.tasks| && w.tasks[i].Ready? &&
        (w.tasks[i].ask.key in w.connections ==> Owned(w, w.connections[w.tasks[i].ask.key]))
      then EnterTask(w, i)
      else w
    case Wake(i) =>
      if i < |w.tasks| && w.tasks[i].Waiting? && w.tasks[i].attempt < |w.attempts| && w.attempts[w.tasks[i].attempt].done
      then SetTask(w, i, Ready(w.tasks[i].ask))
      else w
    case GiveUp(i) =>
      if i < |w.tasks| && w.tasks[i].Waiting? then SetTask(w, i, Done(w.tasks[i].ask, Err(CallerDone))) else w
    case CallerCancels(i) =>
      if i < |w.tasks| && w.tasks[i].Opening? && w.tasks[i].attempt < |w.attempts|
      then w.(attempts := w.attempts[w.tasks[i].attempt := w.attempts[w.tasks[i].attempt].(fired := true)])
      else w
    case CancellationLands(a) =>
      if a < |w.attempts| && w.attempts[a].fired then EndContext(w, a) else w
    case OpenReturns(i, ok) =>
      if i < |w.tasks| && w.tasks[i].Opening? then ReturnOpen(w, i, ok) else w
    case Finish(i) =>
      if i < |w.tasks| && w.tasks[i].Opened? && w.tasks[i].attempt < |w.attempts| &&
        (w.tasks[i].outcome.Some? ==> Owned(w, w.tasks[i].outcome.value))
      then FinishTask(w, i)
      else w
    case CloseMatching(matches) => CloseAll(w, matches)
    case Shutdown => Stopped(w)
    case CloseSession(session) =>
      if session < |w.sessions| && w.sessions[session].Closing?
      then EndContext(w, w.sessions[session].attempt).(sessions := w.sessions[session := Closed])
      else w
  }

  function Run(w: World, steps: seq<Step>): World
    decreases |steps|
  {
    if steps == [] then w else Run(Next(w, steps[0]), steps[1..])
  }

  // What holds in every reachable world

  predicate InFlight(t: Task) {
    t.Opening? || t.Opened?
  }

  /** A call in flight owns the one attempt registered under its key; what it opened is what it was asked for. */
  predicate Holds(w: World, i: nat)
    requires i < |w.tasks|
  {
    var t := w.tasks[i];
    InFlight(t) ==>
      && t.attempt < |w.attempts|
      && w.attempts[t.attempt].owner == i
      && t.ask.key in w.connecting
      && w.connecting[t.ask.key] == t.attempt
      && (t.Opened? && t.outcome.Some? ==>
            && t.outcome.value.key == t.ask.key
            && t.outcome.value.fingerprint == t.ask.fingerprint
            && t.outcome.value.session < |w.sessions|
            && w.sessions[t.outcome.value.session] == HeldBy(i))
  }

  /** A registered attempt is unfinished, excludes a connection under its key, and its owner is in flight. */
  predicate Registered(w: World, key: string)
    requires key in w.connecting
  {
    var a := w.connecting[key];
    && a < |w.attempts|
    && w.attempts[a].key == key
    && !w.attempts[a].done
    && !w.attempts[a].installed
    && key !in w.connections
    && (w.stopping ==> w.attempts[a].cancelled)
    && w.attempts[a].owner < |w.tasks|
    && InFlight(w.tasks[w.attempts[a].owner])
    && w.tasks[w.attempts[a].owner].ask.key == key
  }

  predicate Listed(w: World, key: string)
    requires key in w.connections
  {
    var c := w.connections[key];
    !w.stopping && c.key == key && c.session < |w.sessions| && w.sessions[c.session] == InstalledAt(key)
  }

  /** A session that somebody has to close is where its place says. */
  predicate Kept(w: World, s: nat)
    requires s < |w.sessions|
  {
    match w.sessions[s]
    case HeldBy(i) =>
      i < |w.tasks| && w.tasks[i].Opened? && w.tasks[i].outcome.Some? && w.tasks[i].outcome.value.session == s
    case InstalledAt(key) => key in w.connections && w.connections[key].session == s
    case Closing(_) => true
    case Closed => true
  }

  predicate Answered(t: Task) {
    t.Done? && t.result.Ok? ==> t.result.value.key == t.ask.key && t.result.value.fingerprint == t.ask.fingerprint
  }

  /** A waiting call waits for an attempt that is finished or still registered. */
  predicate Awaits(w: World, t: Task) {
    t.Waiting? ==>
      t.attempt < |w.attempts| &&
      (w.attempts[t.attempt].done || (t.ask.key in w.connecting && w.connecting[t.ask.key] == t.attempt))
  }

  predicate Tasks(w: World) {
    forall i :: 0 <= i < |w.tasks| ==> Holds(w, i) && Answered(w.tasks[i]) && Awaits(w, w.tasks[i])
  }

  predicate Keys(w: World) {
    && (forall key :: key in w.connecting ==> Registered(w, key))
    && (forall key :: key in w.connections ==> Listed(w, key))
  }

  predicate Sessions(w: World) {
    forall s :: 0 <= s < |w.sessions| ==> Kept(w, s)
  }

  /** An attempt that was cancelled is never installed. */
  predicate Attempts(w: World) {
    forall a :: 0 <= a < |w.attempts| ==> !(w.attempts[a].cancelled && w.attempts[a].installed)
  }

  predicate Sound(w: World) {
    Tasks(w) && Keys(w) && Sessions(w) && Attempts(w)
  }

  lemma CallKeepsSound(w: World, ask: Ask)
    requires Sound(w)
    ensures Sound(Next(w, Call(ask)))
  {
    var u := Next(w, Call(ask));
    forall s | 0 <= s < |u.sessions|
      ensures Kept(u, s)
    {
      assert Kept(w, s);
    }
  }

  /** A call that is not in flight may turn into any other such, if it is answered and waits as it should. */
  lemma IdleKeepsSound(w: World, i: nat, t: Task)
    requires Sound(w) && i < |w.tasks| && !InFlight(w.tasks[i]) && !InFlight(t)
    requires Answered(t) && Awaits(w, t)
    ensures Sound(SetTask(w, i, t))
  {
    var u := SetTask(w, i, t);
    forall s | 0 <= s < |u.sessions|
      ensures Kept(u, s)
    {
      assert Kept(w, s);
    }
  }

  lemma DropKeepsSound(w: World, key: string)
    requires Sound(w) && key in w.connections && Owned(w, w.connections[key])
    ensures Sound(Drop(w, key))
  {
    var u := Drop(w, key);
    assert Listed(w, key);
    forall s | 0 <= s < |u.sessions|
      ensures Kept(u, s)
    {
      assert Kept(w, s);
    }
  }

  lemma StartKeepsTasks(w: World, i: nat)
    requires Sound(w) && !w.stopping && i < |w.tasks| && w.tasks[i].Ready?
    requires w.tasks[i].ask.key !in w.connecting
    ensures Tasks(JoinOrStart(w, i))
  {
  }

  lemma StartKeepsSound(w: World, i: nat)
    requires Sound(w) && !w.stopping && i < |w.tasks| && w.tasks[i].Ready?
    requires w.tasks[i].ask.key !in w.connecting && w.tasks[i].ask.key !in w.connections
    ensures Sound(JoinOrStart(w, i))
  {
    StartKeepsTasks(w, i);
    var u := JoinOrStart(w, i);
    forall s | 0 <= s < |u.sessions|
      ensures Kept(u, s)
    {
      assert Kept(w, s);
    }
  }

  lemma EnterKeepsSound(w: World, i: nat)
    requires Sound(w) && i < |w.tasks| && w.tasks[i].Ready?
    ensures w.tasks[i].ask.key in w.connections ==> Owned(w, w.connections[w.tasks[i].ask.key])
    ensures Sound(EnterTask(w, i))
  {
    var ask := w.tasks[i].ask;
    assert ask.key in w.connections ==> Listed(w, ask.key);
    if w.stopping {
      IdleKeepsSound(w, i, Done(ask, Err(Stopping)));
    } else if ask.key in w.connections && !IsStale(w, ask) {
      IdleKeepsSound(w, i, Done(ask, Ok(w.connections[ask.key])));
    } else {
      var v := if IsStale(w, ask) then Drop(w, ask.key) else w;
      if IsStale(w, ask) {
        DropKeepsSound(w, ask.key);
      }
      if ask.key in v.connecting {
        IdleKeepsSound(v, i, Waiting(ask, v.connecting[ask.key]));
      } else {
        StartKeepsSound(v, i);
      }
    }
  }

  lemma BeginKeepsSound(w: World, i: nat, callerDone: bool)
    requires Sound(w)
    ensures Sound(Next(w, Begin(i, callerDone)))
  {
    if i < |w.tasks| && w.tasks[i].Fresh? {
      IdleKeepsSound(w, i, if callerDone then Done(w.tasks[i].ask, Err(CallerDone)) else Ready(w.tasks[i].ask));
    }
  }

  lemma GiveUpKeepsSound(w: World, i: nat)
    requires Sound(w)
    ensures Sound(Next(w, GiveUp(i)))
  {
    if i < |w.tasks| && w.tasks[i].Waiting? {
      IdleKeepsSound(w, i, Done(w.tasks[i].ask, Err(CallerDone)));
    }
  }

  lemma WakeKeepsSound(w: World, i: nat)
    requires Sound(w)
    ensures Sound(Next(w, Wake(i)))
  {
    if Next(w, Wake(i)) != w {
      IdleKeepsSound(w, i, Ready(w.tasks[i].ask));
    }
  }

  /** Only the context of attempts changes, or where a cancellation of it stands. */
  predicate OnlyContexts(w: World, u: World) {
    && u == w.(attempts := u.attempts) && |u.attempts| == |w.attempts|
    && forall a :: 0 <= a < |w.attempts| ==>
         u.attempts[a] == w.attempts[a].(contextDone := u.attempts[a].contextDone, fired := u.attempts[a].fired)
  }

  lemma ContextsKeepSound(w: World, u: World)
    requires Sound(w) && OnlyContexts(w, u)
    ensures Sound(u)
  {
    forall s | 0 <= s < |u.sessions|
      ensures Kept(u, s)
    {
      assert Kept(w, s);
    }
  }

  lemma CancellationKeepsSound(w: World, step: Step)
    requires Sound(w) && (step.CallerCancels? || step.CancellationLands?)
    ensures Sound(Next(w, step))
  {
    CancellationIsContext(w, step);
    ContextsKeepSound(w, Next(w, step));
  }

  lemma CancellationIsContext(w: World, step: Step)
    requires step.CallerCancels? || step.CancellationLands?
    ensures OnlyContexts(w, Next(w, step))
  {
  }

  lemma ReturnKeepsTasks(w: World, i: nat, ok: bool)
    requires Sound(w) && i < |w.tasks| && w.tasks[i].Opening?
    ensures Tasks(ReturnOpen(w, i, ok))
  {
    var u := ReturnOpen(w, i, ok);
    forall j | 0 <= j < |u.tasks|
      ensures Holds(u, j) && Answered(u.tasks[j]) && Awaits(u, u.tasks[j])
    {
      assert Holds(w, j) && Answered(w.tasks[j]) && Awaits(w, w.tasks[j]);
    }
  }

  lemma ReturnKeepsKeys(w: World, i: nat, ok: bool)
    requires Sound(w) && i < |w.tasks| && w.tasks[i].Opening?
    ensures Keys(ReturnOpen(w, i, ok)) && Attempts(ReturnOpen(w, i, ok))
  {
  }

  lemma OpenReturnsKeepsSound(w: World, i: nat, ok: bool)
    requires Sound(w) && i < |w.tasks| && w.tasks[i].Opening?
    ensures Sound(ReturnOpen(w, i, ok))
  {
    var u := ReturnOpen(w, i, ok);
    ReturnKeepsTasks(w, i, ok);
    ReturnKeepsKeys(w, i, ok);
    forall s | 0 <= s < |u.sessions|
      ensures Kept(u, s)
    {
      assert s < |w.sessions| ==> Kept(w, s);
    }
  }

  lemma FinishKeepsTasks(w: World, i: nat)
    requires Sound(w) && i < |w.tasks| && w.tasks[i].Opened?
    requires w.tasks[i].attempt < |w.attempts| && (w.tasks[i].outcome.Some? ==> Owned(w, w.tasks[i].outcome.value))
    ensures Tasks(FinishTask(w, i))
  {
    var u := FinishTask(w, i);
    forall j | 0 <= j < |u.tasks|
      ensures Holds(u, j) && Answered(u.tasks[j]) && Awaits(u, u.tasks[j])
    {
      assert Holds(w, i);
      assert Holds(w, j) && Answered(w.tasks[j]) && Awaits(w, w.tasks[j]);
    }
  }

  lemma FinishKeepsKeys(w: World, i: nat)
    requires Sound(w) && i < |w.tasks| && w.tasks[i].Opened?
    requires w.tasks[i].attempt < |w.attempts| && (w.tasks[i].outcome.Some? ==> Owned(w, w.tasks[i].outcome.value))
    ensures Keys(FinishTask(w, i)) && Attempts(FinishTask(w, i))
  {
    var u := FinishTask(w, i);
    assert Holds(w, i);
    assert Registered(w, w.tasks[i].ask.key);
    forall key | key in u.connecting
      ensures Registered(u, key)
    {
      assert Registered(w, key);
    }
    forall key | key in u.connections
      ensures Listed(u, key)
    {
      assert key in w.connections ==> Listed(w, key);
    }
  }

  lemma FinishKeepsSessions(w: World, i: nat)
    requires Sound(w) && i < |w.tasks| && w.tasks[i].Opened?
    requires w.tasks[i].attempt < |w.attempts| && (w.tasks[i].outcome.Some? ==> Owned(w, w.tasks[i].outcome.value))
    ensures Sessions(FinishTask(w, i))
  {
    var u := FinishTask(w, i);
    assert Holds(w, i);
    assert Registered(w, w.tasks[i].ask.key);
    forall s | 0 <= s < |u.sessions|
      ensures Kept(u, s)
    {
      assert Kept(w, s);
    }
  }

  lemma FinishKeepsSound(w: World, i: nat)
    requires Sound(w) && i < |w.tasks| && w.tasks[i].Opened?
    ensures w.tasks[i].attempt < |w.attempts| && (w.tasks[i].outcome.Some? ==> Owned(w, w.tasks[i].outcome.value))
    ensures Sound(FinishTask(w, i))
  {
    assert Holds(w, i);
    FinishKeepsTasks(w, i);
    FinishKeepsKeys(w, i);
    FinishKeepsSessions(w, i);
  }

  lemma CloseAllKeepsTasks(w: World, matches: (string, string) -> bool)
    requires Sound(w)
    ensures Tasks(CloseAll(w, matches))
  {
  }

  lemma CloseAllKeepsKeys(w: World, matches: (string, string) -> bool)
    requires Sound(w)
    ensures Keys(CloseAll(w, matches)) && Attempts(CloseAll(w, matches))
  {
    var u := CloseAll(w, matches);
    forall key | key in u.connecting
      ensures Registered(u, key)
    {
      assert Registered(w, key);
    }
    forall key | key in u.connections
      ensures Listed(u, key)
    {
      assert Listed(w, key);
    }
    forall a | 0 <= a < |u.attempts|
      ensures !(u.attempts[a].cancelled && u.attempts[a].installed)
    {
      assert !(w.attempts[a].cancelled && w.attempts[a].installed);
      if w.attempts[a].key in w.connecting {
        assert Registered(w, w.attempts[a].key);
      }
    }
  }

  lemma CloseAllKeepsSound(w: World, matches: (string, string) -> bool)
    requires Sound(w)
    ensures Sound(CloseAll(w, matches))
  {
    var u := CloseAll(w, matches);
    CloseAllKeepsTasks(w, matches);
    CloseAllKeepsKeys(w, matches);
    forall s | 0 <= s < |u.sessions|
      ensures Kept(u, s)
    {
      assert Kept(w, s);
    }
  }

  lemma ShutdownKeepsSound(w: World)
    requires Sound(w)
    ensures Sound(Next(w, Shutdown))
  {
    if !w.stopping {
      var all := CloseAll(w, (key, server) => true);
      CloseAllKeepsSound(w, (key, server) => true);
      var v := all.(attempts := EndContexts(all.attempts));
      ContextsKeepSound(all, v);
      StoppingKeepsSound(v);
    }
  }

  lemma StoppingKeepsSound(w: World)
    requires Sound(w) && w.connections == map[]
    requires forall key :: key in w.connecting ==> w.attempts[w.connecting[key]].cancelled
    ensures Sound(w.(stopping := true))
  {
    forall s | 0 <= s < |w.sessions|
      ensures Kept(w.(stopping := true), s)
    {
      assert Kept(w, s);
    }
  }

  lemma CloseSessionKeepsSound(w: World, session: nat)
    requires Sound(w)
    ensures Sound(Next(w, CloseSession(session)))
  {
    if session < |w.sessions| && w.sessions[session].Closing? {
      var v := EndContext(w, w.sessions[session].attempt);
      ContextsKeepSound(w, v);
      ClosedKeepsSound(v, session);
    }
  }

  lemma ClosedKeepsSound(w: World, session: nat)
    requires Sound(w) && session < |w.sessions| && w.sessions[session].Closing?
    ensures Sound(w.(sessions := w.sessions[session := Closed]))
  {
    var u := w.(sessions := w.sessions[session := Closed]);
    assert Tasks(u);
    forall s | 0 <= s < |u.sessions|
      ensures Kept(u, s)
    {
      assert Kept(w, s);
    }
  }

  lemma StepKeepsSound(w: World, step: Step)
    requires Sound(w)
    ensures Sound(Next(w, step))
  {
    match step
    case Call(ask) => CallKeepsSound(w, ask);
    case Begin(i, callerDone) => BeginKeepsSound(w, i, callerDone);
    case Enter(i) =>
      if i < |w.tasks| && w.tasks[i].Ready? {
        EnterKeepsSound(w, i);
      }
    case Wake(i) => WakeKeepsSound(w, i);
    case GiveUp(i) => GiveUpKeepsSound(w, i);
    case CallerCancels(i) => CancellationKeepsSound(w, step);
    case CancellationLands(a) => CancellationKeepsSound(w, step);
    case OpenReturns(i, ok) =>
      if i < |w.tasks| && w.tasks[i].Opening? {
        OpenReturnsKeepsSound(w, i, ok);
      }
    case Finish(i) =>
      if i < |w.tasks| && w.tasks[i].Opened? {
        FinishKeepsSound(w, i);
      }
    case CloseMatching(matches) => CloseAllKeepsSound(w, matches);
    case Shutdown => ShutdownKeepsSound(w);
    case CloseSession(session) => CloseSessionKeepsSound(w, session);
  }

  lemma {:induction false} RunKeepsSound(w: World, steps: seq<Step>)
    requires Sound(w)
    ensures Sound(Run(w, steps))
    decreases |steps|
  {
    if steps != [] {
      StepKeepsSound(w, steps[0]);
      RunKeepsSound(Next(w, steps[0]), steps[1..]);
    }
  }

  // Laws of runs

  /** Per key at most one call is in flight, and while one is, no connection is installed under the key. */
  lemma OneFlightPerKey(steps: seq<Step>, i: nat, j: nat)
    ensures var w := Run(EMPTY, steps);
      i < |w.tasks| && j < |w.tasks| && InFlight(w.tasks[i]) && InFlight(w.tasks[j]) &&
        w.tasks[i].ask.key == w.tasks[j].ask.key ==>
          i == j && w.tasks[i].ask.key !in w.connections
  {
    RunKeepsSound(EMPTY, steps);
    var w := Run(EMPTY, steps);
    if i < |w.tasks| && j < |w.tasks| && InFlight(w.tasks[i]) && InFlight(w.tasks[j]) {
      assert Holds(w, i) && Holds(w, j);
      assert Registered(w, w.tasks[i].ask.key);
    }
  }

  /**
   Whatever a call returns is a connection for the key and the fingerprint it asked for; an attempt that was
   cancelled is not installed; and once the manager is stopping no connection is.
   */
  lemma OnlyWantedConnections(steps: seq<Step>)
    ensures var w := Run(EMPTY, steps);
      && (forall i :: 0 <= i < |w.tasks| ==> Answered(w.tasks[i]))
      && (forall a :: 0 <= a < |w.attempts| ==> !(w.attempts[a].cancelled && w.attempts[a].installed))
      && (w.stopping ==> w.connections == map[])
  {
    RunKeepsSound(EMPTY, steps);
    var w := Run(EMPTY, steps);
    forall key | key in w.connections
      ensures !w.stopping
    {
      assert Listed(w, key);
    }
    assert w.stopping ==> w.connections.Keys == {};
  }

  // The context of a connection

  predicate Installed(w: World, a: nat, fired: bool) {
    a < |w.attempts| && w.attempts[a].installed && w.attempts[a].fired == fired
  }

  /** An attempt in flight is not the one installed. */
  lemma FlightIsNotInstalled(w: World, i: nat, a: nat)
    requires Sound(w) && i < |w.tasks| && InFlight(w.tasks[i])
    ensures a < |w.attempts| && w.attempts[a].installed ==> w.tasks[i].attempt != a
  {
    assert Holds(w, i);
    assert Registered(w, w.tasks[i].ask.key);
  }

  lemma InstalledThroughClosing(w: World, step: Step, a: nat, fired: bool)
    requires Installed(w, a, fired) && (step.CloseMatching? || step.Shutdown?)
    ensures Installed(Next(w, step), a, fired)
  {
  }

  lemma InstalledThroughFinish(w: World, i: nat, a: nat, fired: bool)
    requires Sound(w) && Installed(w, a, fired)
    ensures Installed(Next(w, Finish(i)), a, fired)
  {
    if i < |w.tasks| && w.tasks[i].Opened? {
      FlightIsNotInstalled(w, i, a);
    }
  }

  lemma InstalledThroughCancel(w: World, i: nat, a: nat, fired: bool)
    requires Sound(w) && Installed(w, a, fired)
    ensures Installed(Next(w, CallerCancels(i)), a, fired)
  {
    if i < |w.tasks| && w.tasks[i].Opening? {
      FlightIsNotInstalled(w, i, a);
    }
  }

  /** Once an attempt is installed, no caller can give it up any more. */
  lemma InstalledStays(w: World, step: Step, a: nat, fired: bool)
    requires Sound(w) && Installed(w, a, fired)
    ensures Installed(Next(w, step), a, fired)
  {
    match step {
      case CallerCancels(i) => InstalledThroughCancel(w, i, a, fired);
      case Finish(i) => InstalledThroughFinish(w, i, a, fired);
      case CloseMatching(_) => InstalledThroughClosing(w, step, a, fired);
      case Shutdown => InstalledThroughClosing(w, step, a, fired);
      case _ =>
    }
  }

  lemma {:induction false} InstalledRemains(w: World, steps: seq<Step>, a: nat, fired: bool)
    requires Sound(w) && Installed(w, a, fired)
    ensures Installed(Run(w, steps), a, fired)
    decreases |steps|
  {
    if steps != [] {
      StepKeepsSound(w, steps[0]);
      InstalledStays(w, steps[0], a, fired);
      InstalledRemains(Next(w, steps[0]), steps[1..], a, fired);
    }
  }

  /** The attempt's connection is not the one installed under its key. */
  predicate OutOfTable(w: World, a: nat)
    requires a < |w.attempts|
  {
    w.attempts[a].key in w.connections ==> w.connections[w.attempts[a].key].attempt != a
  }

  /** A connection in the table is that of its installed attempt, whose context only its own caller may have ended. */
  predicate RootedKey(w: World, key: string)
    requires key in w.connections
  {
    var a := w.connections[key].attempt;
    && a < |w.attempts| && w.attempts[a].key == key && w.attempts[a].done && w.attempts[a].installed
    && (w.attempts[a].contextDone ==> w.attempts[a].fired)
  }

  /** A closer ends the context of an attempt whose connection has left the table, or never came there. */
  predicate RootedSession(w: World, s: nat)
    requires s < |w.sessions|
  {
    w.sessions[s].Closing? ==>
      var a := w.sessions[s].attempt;
      a < |w.attempts| && w.attempts[a].done && OutOfTable(w, a)
  }

  predicate RootedTask(t: Task) {
    t.Opened? && t.outcome.Some? ==> t.outcome.value.attempt == t.attempt
  }

  predicate Rooted(w: World) {
    && (forall key :: key in w.connections ==> RootedKey(w, key))
    && (forall s :: 0 <= s < |w.sessions| ==> RootedSession(w, s))
    && (forall i :: 0 <= i < |w.tasks| ==> RootedTask(w.tasks[i]))
  }

  /** Where only calls have moved, the rest is as it was. */
  lemma CallsKeepRooted(w: World, u: World)
    requires Rooted(w) && u == w.(tasks := u.tasks)
    requires forall i :: 0 <= i < |u.tasks| ==> RootedTask(u.tasks[i])
    ensures Rooted(u)
  {
    forall s | 0 <= s < |u.sessions|
      ensures RootedSession(u, s)
    {
      assert RootedSession(w, s);
    }
    forall key | key in u.connections
      ensures RootedKey(u, key)
    {
      assert RootedKey(w, key);
    }
  }

  lemma DropKeepsRooted(w: World, key: string)
    requires Sound(w) && Rooted(w) && key in w.connections && Owned(w, w.connections[key])
    ensures Rooted(Drop(w, key))
  {
    assert RootedKey(w, key);
    var u := Drop(w, key);
    forall s | 0 <= s < |u.sessions|
      ensures RootedSession(u, s)
    {
      assert RootedSession(w, s);
    }
  }

  lemma JoinKeepsRooted(w: World, i: nat)
    requires Rooted(w) && i < |w.tasks| && w.tasks[i].Ready?
    ensures Rooted(JoinOrStart(w, i))
  {
    var u := JoinOrStart(w, i);
    forall key | key in u.connections
      ensures RootedKey(u, key)
    {
      assert RootedKey(w, key);
    }
    forall s | 0 <= s < |u.sessions|
      ensures RootedSession(u, s)
    {
      assert RootedSession(w, s);
    }
  }

  lemma EnterKeepsRooted(w: World, i: nat)
    requires Sound(w) && Rooted(w)
    ensures Rooted(Next(w, Enter(i)))
  {
    var u := Next(w, Enter(i));
    if u != w && !w.stopping {
      var ask := w.tasks[i].ask;
      if IsStale(w, ask) {
        DropKeepsRooted(w, ask.key);
        JoinKeepsRooted(Drop(w, ask.key), i);
      } else if ask.key !in w.connections {
        JoinKeepsRooted(w, i);
      } else {
        CallsKeepRooted(w, u);
      }
    } else {
      CallsKeepRooted(w, u);
    }
  }

  lemma FinishKeepsRootedKeys(w: World, i: nat)
    requires Sound(w) && Rooted(w) && i < |w.tasks| && w.tasks[i].Opened?
    ensures var u := Next(w, Finish(i));
      forall key :: key in u.connections ==> RootedKey(u, key)
  {
    var u := Next(w, Finish(i));
    var key := w.tasks[i].ask.key;
    assert Holds(w, i) && Registered(w, key);
    assert RootedTask(w.tasks[i]);
    forall k | k in u.connections
      ensures RootedKey(u, k)
    {
      assert k != key ==> RootedKey(w, k);
    }
  }

  lemma FinishKeepsRootedSession(w: World, i: nat, s: nat)
    requires Sound(w) && Rooted(w) && i < |w.tasks| && w.tasks[i].Opened? && s < |w.sessions|
    ensures |Next(w, Finish(i)).sessions| == |w.sessions| && RootedSession(Next(w, Finish(i)), s)
  {
    assert Holds(w, i) && Registered(w, w.tasks[i].ask.key);
    assert RootedTask(w.tasks[i]) && RootedSession(w, s);
  }

  lemma FinishKeepsRooted(w: World, i: nat)
    requires Sound(w) && Rooted(w)
    ensures Rooted(Next(w, Finish(i)))
  {
    var u := Next(w, Finish(i));
    if i < |w.tasks| && w.tasks[i].Opened? {
      assert |u.sessions| == |w.sessions|;
      FinishKeepsRootedKeys(w, i);
      forall s | 0 <= s < |w.sessions|
        ensures RootedSession(u, s)
      {
        FinishKeepsRootedSession(w, i, s);
      }
      assert forall j :: 0 <= j < |u.tasks| ==> RootedTask(w.tasks[j]) && RootedTask(u.tasks[j]);
    }
  }

  lemma CloseAllKeepsRooted(w: World, matches: (string, string) -> bool)
    requires Sound(w) && Rooted(w)
    ensures Rooted(CloseAll(w, matches))
  {
    var u := CloseAll(w, matches);
    forall key | key in u.connections
      ensures RootedKey(u, key)
    {
      assert RootedKey(w, key);
      assert key in w.connecting ==> Registered(w, key);
    }
    forall s | 0 <= s < |u.sessions|
      ensures RootedSession(u, s)
    {
      assert RootedSession(w, s) && Kept(w, s);
      if w.sessions[s].InstalledAt? {
        assert RootedKey(w, w.sessions[s].key);
      }
    }
  }

  /** Ending contexts is harmless where no connection in the table is concerned, or only those whose callers gave up. */
  lemma ContextsKeepRooted(w: World, u: World)
    requires Rooted(w) && OnlyContexts(w, u)
    requires forall key :: key in w.connections ==> RootedKey(u, key)
    ensures Rooted(u)
  {
    forall s | 0 <= s < |u.sessions|
      ensures RootedSession(u, s)
    {
      assert RootedSession(w, s);
    }
  }

  lemma CancellationKeepsRooted(w: World, step: Step)
    requires Rooted(w) && (step.CallerCancels? || step.CancellationLands?)
    ensures Rooted(Next(w, step))
  {
    CancellationIsContext(w, step);
    forall key | key in w.connections
      ensures RootedKey(Next(w, step), key)
    {
      assert RootedKey(w, key);
    }
    ContextsKeepRooted(w, Next(w, step));
  }

  lemma CloseSessionKeepsRooted(w: World, session: nat)
    requires Rooted(w)
    ensures Rooted(Next(w, CloseSession(session)))
  {
    if session < |w.sessions| && w.sessions[session].Closing? {
      var a := w.sessions[session].attempt;
      assert RootedSession(w, session);
      var v := EndContext(w, a);
      forall key | key in w.connections
        ensures RootedKey(v, key)
      {
        assert RootedKey(w, key);
      }
      ContextsKeepRooted(w, v);
      ClosedKeepsRooted(v, session);
    }
  }

  lemma ClosedKeepsRooted(w: World, session: nat)
    requires Rooted(w) && session < |w.sessions|
    ensures Rooted(w.(sessions := w.sessions[session := Closed]))
  {
    var u := w.(sessions := w.sessions[session := Closed]);
    forall s | 0 <= s < |u.sessions|
      ensures RootedSession(u, s)
    {
      assert RootedSession(w, s);
    }
    forall key | key in u.connections
      ensures RootedKey(u, key)
    {
      assert RootedKey(w, key);
    }
  }

  lemma ShutdownKeepsRooted(w: World)
    requires Sound(w) && Rooted(w)
    ensures Rooted(Next(w, Shutdown))
  {
    if !w.stopping {
      var all := CloseAll(w, (key, server) => true);
      CloseAllKeepsRooted(w, (key, server) => true);
      ContextsKeepRooted(all, all.(attempts := EndContexts(all.attempts)));
      StoppingKeepsRooted(all.(attempts := EndContexts(all.attempts)));
    }
  }

  lemma StoppingKeepsRooted(w: World)
    requires Rooted(w)
    ensures Rooted(w.(stopping := true))
  {
    var u := w.(stopping := true);
    forall s | 0 <= s < |u.sessions|
      ensures RootedSession(u, s)
    {
      assert RootedSession(w, s);
    }
    forall key | key in u.connections
      ensures RootedKey(u, key)
    {
      assert RootedKey(w, key);
    }
  }

  lemma OpenReturnsKeepsRooted(w: World, i: nat, ok: bool)
    requires Rooted(w)
    ensures Rooted(Next(w, OpenReturns(i, ok)))
  {
    var u := Next(w, OpenReturns(i, ok));
    if u != w {
      var v := w.(sessions := u.sessions);
      forall s | 0 <= s < |v.sessions|
        ensures RootedSession(v, s)
      {
        assert s < |w.sessions| ==> RootedSession(w, s);
      }
      forall key | key in v.connections
        ensures RootedKey(v, key)
      {
        assert RootedKey(w, key);
      }
      CallsKeepRooted(v, u);
    }
  }

  lemma StepKeepsRooted(w: World, step: Step)
    requires Sound(w) && Rooted(w)
    ensures Rooted(Next(w, step))
  {
    match step
    case Enter(i) => EnterKeepsRooted(w, i);
    case Finish(i) => FinishKeepsRooted(w, i);
    case CallerCancels(_) => CancellationKeepsRooted(w, step);
    case CancellationLands(_) => CancellationKeepsRooted(w, step);
    case CloseMatching(matches) => CloseAllKeepsRooted(w, matches);
    case Shutdown => ShutdownKeepsRooted(w);
    case CloseSession(session) => CloseSessionKeepsRooted(w, session);
    case OpenReturns(i, ok) => OpenReturnsKeepsRooted(w, i, ok);
    case _ => CallsKeepRooted(w, Next(w, step));
  }

  lemma {:induction false} RunKeepsRooted(w: World, steps: seq<Step>)
    requires Sound(w) && Rooted(w)
    ensures Sound(Run(w, steps)) && Rooted(Run(w, steps))
    decreases |steps|
  {
    if steps != [] {
      StepKeepsSound(w, steps[0]);
      StepKeepsRooted(w, steps[0]);
      RunKeepsRooted(Next(w, steps[0]), steps[1..]);
    }
  }

  /** The connection is in the table, and its context has ended. */
  predicate LostContext(w: World, c: Connection) {
    && c.key in w.connections && w.connections[c.key] == c
    && c.attempt < |w.attempts| && w.attempts[c.attempt].contextDone
  }

  /** Sessions are never installed twice, so a connection in the table later on has been there all along. */
  ghost predicate CanLoseContext(w: World, c: Connection) {
    exists later :: LostContext(Run(w, later), c)
  }

  /**
   A connection can lose its context while it stays in the table exactly when the caller that opened it had given
   up before it was installed: that cancellation may land after the check that would have seen it. Closing ends
   contexts too, but only of connections that have left the table.
   */
  lemma OnlyTheCallerCancelsLate(steps: seq<Step>, key: string)
    ensures var w := Run(EMPTY, steps);
      key in w.connections ==>
        && w.connections[key].attempt < |w.attempts|
        && (CanLoseContext(w, w.connections[key]) <==> w.attempts[w.connections[key].attempt].fired)
  {
    RunKeepsRooted(EMPTY, steps);
    var w := Run(EMPTY, steps);
    if key in w.connections {
      var c := w.connections[key];
      assert RootedKey(w, key) && Listed(w, key);
      if w.attempts[c.attempt].fired {
        RunOne(w, CancellationLands(c.attempt));
        assert LostContext(Run(w, [CancellationLands(c.attempt)]), c);
      }
      forall later | LostContext(Run(w, later), c)
        ensures w.attempts[c.attempt].fired
      {
        LostToTheCaller(w, later, c, w.attempts[c.attempt].fired);
      }
    }
  }

  lemma LostToTheCaller(w: World, later: seq<Step>, c: Connection, fired: bool)
    requires Sound(w) && Rooted(w) && Installed(w, c.attempt, fired) && LostContext(Run(w, later), c)
    ensures fired
  {
    RunKeepsRooted(w, later);
    InstalledRemains(w, later, c.attempt, fired);
    assert RootedKey(Run(w, later), c.key);
  }

  lemma {:induction false} RunConcat(w: World, a: seq<Step>, b: seq<Step>)
    ensures Run(w, a + b) == Run(Run(w, a), b)
    decreases |a|
  {
    if a == [] {
      assert a + b == b;
    } else {
      assert (a + b)[0] == a[0] && (a + b)[1..] == a[1..] + b;
      RunConcat(Next(w, a[0]), a[1..], b);
    }
  }

  lemma RunOne(w: World, step: Step)
    ensures Run(w, [step]) == Next(w, step)
  {
  }

  /** The world with one call that has just begun to open. */
  function OpeningWorld(ask: Ask): World {
    World(false, map[], map[ask.key := 0], [Attempt(0, ask.key, ask.serverId, false, false, false, false, false)],
          [Opening(ask, 0)], [])
  }

  lemma OpeningIsReached(ask: Ask) returns (steps: seq<Step>)
    ensures Run(EMPTY, steps) == OpeningWorld(ask)
  {
    var w1 := EMPTY.(tasks := [Fresh(ask)]);
    var w2 := EMPTY.(tasks := [Ready(ask)]);
    RunOne(EMPTY, Call(ask));
    assert Next(EMPTY, Call(ask)) == w1;
    RunOne(w1, Begin(0, false));
    assert Next(w1, Begin(0, false)) == w2;
    RunOne(w2, Enter(0));
    assert Next(w2, Enter(0)) == OpeningWorld(ask);
    RunConcat(EMPTY, [Call(ask)], [Begin(0, false)]);
    RunConcat(EMPTY, [Call(ask)] + [Begin(0, false)], [Enter(0)]);
    steps := [Call(ask)] + [Begin(0, false)] + [Enter(0)];
  }

  /** The caller gives up, the open returns and is installed, and only then does the cancellation land. */
  lemma LateCancellationLands(ask: Ask) returns (steps: seq<Step>)
    ensures var w := Run(OpeningWorld(ask), steps);
      && |w.attempts| == 1 && w.attempts[0].contextDone && !w.stopping
      && ask.key in w.connections && w.connections[ask.key].attempt == 0
  {
    var w := OpeningWorld(ask);
    var w1 := Next(w, CallerCancels(0));
    var w2 := Next(w1, OpenReturns(0, true));
    var w3 := Next(w2, Finish(0));
    assert w3.attempts[0].installed && w3.attempts[0].fired && ask.key in w3.connections;
    RunOne(w, CallerCancels(0));
    RunOne(w1, OpenReturns(0, true));
    RunOne(w2, Finish(0));
    RunOne(w3, CancellationLands(0));
    RunConcat(w, [CallerCancels(0)], [OpenReturns(0, true)]);
    RunConcat(w, [CallerCancels(0)] + [OpenReturns(0, true)], [Finish(0)]);
    RunConcat(w, [CallerCancels(0)] + [OpenReturns(0, true)] + [Finish(0)], [CancellationLands(0)]);
    steps := [CallerCancels(0)] + [OpenReturns(0, true)] + [Finish(0)] + [CancellationLands(0)];
  }

  /** It does happen: an installed connection can lose its context while the manager runs. */
  lemma InstalledCanBeCancelled(ask: Ask) returns (steps: seq<Step>)
    ensures var w := Run(EMPTY, steps);
      && |w.attempts| == 1 && w.attempts[0].contextDone && !w.stopping
      && ask.key in w.connections && w.connections[ask.key].attempt == 0
  {
    var before := OpeningIsReached(ask);
    var after := LateCancellationLands(ask);
    RunConcat(EMPTY, before, after);
    steps := before + after;
  }

  // No context outlives its connection's place in the table

  ghost predicate EndPending(w: World, a: nat) {
    exists s :: 0 <= s < |w.sessions| && w.sessions[s] == Closing(a)
  }

  /** A finished attempt whose context has not ended has its connection in the table, or a closer that will end it. */
  ghost predicate Accounted(w: World, a: nat)
    requires a < |w.attempts|
  {
    w.attempts[a].done ==> w.attempts[a].contextDone || !OutOfTable(w, a) || EndPending(w, a)
  }

  ghost predicate AllAccounted(w: World) {
    forall a :: 0 <= a < |w.attempts| ==> Accounted(w, a)
  }

  lemma EndStaysPending(w: World, u: World, a: nat)
    requires forall s :: 0 <= s < |w.sessions| && w.sessions[s] == Closing(a) ==>
      s < |u.sessions| && u.sessions[s] == w.sessions[s]
    ensures EndPending(w, a) ==> EndPending(u, a)
  {
    if EndPending(w, a) {
      var s :| 0 <= s < |w.sessions| && w.sessions[s] == Closing(a);
      assert u.sessions[s] == Closing(a);
    }
  }

  /** Where no connection leaves the table and no closer is done, attempts stay accounted for. */
  lemma AccountedStays(w: World, u: World, a: nat)
    requires a < |w.attempts| && Accounted(w, a)
    requires u.connections == w.connections && a < |u.attempts| && u.attempts[a].key == w.attempts[a].key
    requires u.attempts[a].done == w.attempts[a].done && (w.attempts[a].contextDone ==> u.attempts[a].contextDone)
    requires forall s :: 0 <= s < |w.sessions| && w.sessions[s] == Closing(a) ==>
      s < |u.sessions| && u.sessions[s] == w.sessions[s]
    ensures Accounted(u, a)
  {
    EndStaysPending(w, u, a);
  }

  lemma DropKeepsAccounted(w: World, key: string, a: nat)
    requires Sound(w) && a < |w.attempts| && Accounted(w, a)
    requires key in w.connections && Owned(w, w.connections[key])
    ensures Accounted(Drop(w, key), a)
  {
    var u, c := Drop(w, key), w.connections[key];
    assert Listed(w, key);
    EndStaysPending(w, u, a);
    assert u.sessions[c.session] == Closing(c.attempt);
  }

  lemma EnterKeepsAccounted(w: World, i: nat, a: nat)
    requires Sound(w) && a < |Next(w, Enter(i)).attempts| && (a < |w.attempts| ==> Accounted(w, a))
    ensures Accounted(Next(w, Enter(i)), a)
  {
    var u := Next(w, Enter(i));
    if u != w && a < |w.attempts| {
      var ask := w.tasks[i].ask;
      if !w.stopping && IsStale(w, ask) {
        DropKeepsAccounted(w, ask.key, a);
        AccountedStays(Drop(w, ask.key), u, a);
      } else {
        AccountedStays(w, u, a);
      }
    }
  }

  lemma FinishKeepsAccounted(w: World, i: nat, a: nat)
    requires Sound(w) && Rooted(w) && a < |w.attempts| && Accounted(w, a)
    ensures a < |Next(w, Finish(i)).attempts| && Accounted(Next(w, Finish(i)), a)
  {
    var u := Next(w, Finish(i));
    if i < |w.tasks| && w.tasks[i].Opened? {
      var t := w.tasks[i];
      assert Holds(w, i) && Registered(w, t.ask.key) && RootedTask(t);
      EndStaysPending(w, u, a);
      if a == t.attempt && t.outcome.Some? && !u.attempts[a].installed {
        assert u.sessions[t.outcome.value.session] == Closing(a);
      }
    }
  }

  lemma CloseAllKeepsAccounted(w: World, matches: (string, string) -> bool, a: nat)
    requires Sound(w) && a < |w.attempts| && Accounted(w, a)
    ensures Accounted(CloseAll(w, matches), a)
  {
    var u, key := CloseAll(w, matches), w.attempts[a].key;
    EndStaysPending(w, u, a);
    if !OutOfTable(w, a) && Selected(w, matches, key) {
      assert Listed(w, key);
      assert u.sessions[w.connections[key].session] == Closing(a);
    }
  }

  lemma CloseSessionKeepsAccounted(w: World, session: nat, a: nat)
    requires a < |w.attempts| && Accounted(w, a)
    ensures Accounted(Next(w, CloseSession(session)), a)
  {
    var u := Next(w, CloseSession(session));
    if session < |w.sessions| && w.sessions[session] == Closing(a) {
      assert u.attempts[a].contextDone;
    } else {
      AccountedStays(w, u, a);
    }
  }

  lemma ShutdownKeepsAccounted(w: World, a: nat)
    requires a < |w.attempts| && Accounted(w, a)
    ensures Accounted(Stopped(w), a)
  {
  }

  lemma CancellationKeepsAccounted(w: World, step: Step, a: nat)
    requires step.CallerCancels? || step.CancellationLands?
    requires a < |w.attempts| && Accounted(w, a)
    ensures a < |Next(w, step).attempts| && Accounted(Next(w, step), a)
  {
    CancellationIsContext(w, step);
    AccountedStays(w, Next(w, step), a);
  }

  lemma OpenReturnsKeepsAccounted(w: World, i: nat, ok: bool, a: nat)
    requires a < |w.attempts| && Accounted(w, a)
    ensures a < |Next(w, OpenReturns(i, ok)).attempts| && Accounted(Next(w, OpenReturns(i, ok)), a)
  {
    AccountedStays(w, Next(w, OpenReturns(i, ok)), a);
  }

  lemma CallsKeepAccounted(w: World, step: Step, a: nat)
    requires step.Call? || step.Begin? || step.Wake? || step.GiveUp?
    requires a < |w.attempts| && Accounted(w, a)
    ensures Next(w, step) == w.(tasks := Next(w, step).tasks) && Accounted(Next(w, step), a)
  {
    AccountedStays(w, w.(tasks := Next(w, step).tasks), a);
  }

  lemma StepKeepsAccounted(w: World, step: Step, a: nat)
    requires Sound(w) && Rooted(w) && a < |Next(w, step).attempts| && (a < |w.attempts| ==> Accounted(w, a))
    ensures Accounted(Next(w, step), a)
  {
    match step
    case Enter(i) => EnterKeepsAccounted(w, i, a);
    case Finish(i) => FinishKeepsAccounted(w, i, a);
    case CloseMatching(matches) => CloseAllKeepsAccounted(w, matches, a);
    case Shutdown => ShutdownKeepsAccounted(w, a);
    case CloseSession(session) => CloseSessionKeepsAccounted(w, session, a);
    case CallerCancels(_) => CancellationKeepsAccounted(w, step, a);
    case CancellationLands(_) => CancellationKeepsAccounted(w, step, a);
    case OpenReturns(i, ok) => OpenReturnsKeepsAccounted(w, i, ok, a);
    case _ => CallsKeepAccounted(w, step, a);
  }

  lemma {:induction false} RunKeepsAccounted(w: World, steps: seq<Step>)
    requires Sound(w) && Rooted(w) && AllAccounted(w)
    ensures AllAccounted(Run(w, steps))
    decreases |steps|
  {
    if steps != [] {
      var v := Next(w, steps[0]);
      forall a | 0 <= a < |v.attempts|
        ensures Accounted(v, a)
      {
        StepKeepsAccounted(w, steps[0], a);
      }
      StepKeepsSound(w, steps[0]);
      StepKeepsRooted(w, steps[0]);
      RunKeepsAccounted(v, steps[1..]);
    }
  }

  /** When every close is made, the context of a finished attempt lives on only for a connection in the table. */
  lemma NoContextLeaks(steps: seq<Step>, a: nat)
    ensures var w := Run(EMPTY, steps);
      Quiet(w) && a < |w.attempts| && w.attempts[a].done && !w.attempts[a].contextDone ==>
        var key := w.attempts[a].key;
        key in w.connections && w.connections[key].attempt == a && !w.stopping
  {
    RunKeepsRooted(EMPTY, steps);
    RunKeepsAccounted(EMPTY, steps);
    var w := Run(EMPTY, steps);
    if a < |w.attempts| {
      assert Accounted(w, a);
      assert !OutOfTable(w, a) ==> Listed(w, w.attempts[a].key);
    }
  }

  /** A call that waits can always go on: its attempt is finished, or the call that makes it is in flight. */
  lemma WaitersAreWoken(steps: seq<Step>, i: nat)
    ensures var w := Run(EMPTY, steps);
      i < |w.tasks| && w.tasks[i].Waiting? ==> CanGoOn(w, w.tasks[i].attempt)
  {
    RunKeepsSound(EMPTY, steps);
    var w := Run(EMPTY, steps);
    if i < |w.tasks| && w.tasks[i].Waiting? {
      assert Awaits(w, w.tasks[i]);
      if w.tasks[i].ask.key in w.connecting {
        assert Registered(w, w.tasks[i].ask.key);
      }
    }
  }

  predicate CanGoOn(w: World, a: nat) {
    && a < |w.attempts|
    && (w.attempts[a].done || (w.attempts[a].owner < |w.tasks| && InFlight(w.tasks[w.attempts[a].owner])))
  }

  predicate Quiet(w: World) {
    && (forall i :: 0 <= i < |w.tasks| ==> !w.tasks[i].Opened?)
    && (forall s :: 0 <= s < |w.sessions| ==> !w.sessions[s].Closing?)
  }

  /** When every call is finished and every close made, each session ever opened is installed or closed. */
  lemma NoSessionLeaks(steps: seq<Step>, s: nat)
    ensures var w := Run(EMPTY, steps);
      Quiet(w) && s < |w.sessions| ==>
        if w.sessions[s] == Closed then forall key :: key in w.connections ==> w.connections[key].session != s
        else !w.stopping && exists key :: key in w.connections && w.connections[key].session == s
  {
    RunKeepsSound(EMPTY, steps);
    var w := Run(EMPTY, steps);
    if Quiet(w) && s < |w.sessions| {
      assert Kept(w, s);
      assert w.sessions[s] in w.sessions;
      if w.sessions[s].InstalledAt? {
        assert Listed(w, w.sessions[s].key);
      }
      forall key | key in w.connections
        ensures w.sessions[s] == Closed ==> w.connections[key].session != s
      {
        assert Listed(w, key);
      }
    }
  }

  /** Nothing was called off: not the attempt, nor its context, nor the manager. */
  predicate Undisturbed(w: World, a: nat) {
    a < |w.attempts| && !w.attempts[a].cancelled && !w.attempts[a].contextDone && !w.stopping
  }

  lemma OpenedAsAsked(w: World, i: nat)
    requires Sound(w) && i < |w.tasks| && w.tasks[i].Opened? && w.tasks[i].outcome.Some?
    ensures w.tasks[i].outcome.value.fingerprint == w.tasks[i].ask.fingerprint
    ensures w.tasks[i].outcome.value.key == w.tasks[i].ask.key
  {
    assert Holds(w, i);
  }

  lemma FinishDelivers(w: World, i: nat)
    requires Sound(w) && i < |w.tasks| && w.tasks[i].Opened? && w.tasks[i].outcome.Some?
    requires Undisturbed(w, w.tasks[i].attempt)
    ensures var u := Next(w, Finish(i));
      && |u.tasks| == |w.tasks| && u.tasks[i] == Done(w.tasks[i].ask, Ok(w.tasks[i].outcome.value))
      && u.connections == w.connections[w.tasks[i].ask.key := w.tasks[i].outcome.value] && !u.stopping
  {
    assert Holds(w, i);
  }

  /** The call asks for the connection c, which is there. */
  predicate AsksFor(w: World, j: nat, c: Connection) {
    && j < |w.tasks| && w.tasks[j].Ready? && w.tasks[j].ask.key == c.key && w.tasks[j].ask.fingerprint == c.fingerprint
    && c.key in w.connections && w.connections[c.key] == c
  }

  lemma EnterShares(w: World, j: nat, c: Connection)
    requires Sound(w) && AsksFor(w, j, c)
    ensures Next(w, Enter(j)) == SetTask(w, j, Done(w.tasks[j].ask, Ok(c)))
  {
    assert Listed(w, c.key);
  }

  /**
   A connection that was opened undisturbed is installed and returned, and whatever happens after that, a call for the
   same key and fingerprint that comes by while it is there gets that very connection and opens nothing.
   */
  lemma OpensAreShared(steps: seq<Step>, i: nat, later: seq<Step>, j: nat)
    ensures var w := Run(EMPTY, steps);
      i < |w.tasks| && w.tasks[i].Opened? && w.tasks[i].outcome.Some? && Undisturbed(w, w.tasks[i].attempt) ==>
        var c, ask := w.tasks[i].outcome.value, w.tasks[i].ask;
        var u := Next(w, Finish(i));
        && |u.tasks| == |w.tasks| && u.tasks[i] == Done(ask, Ok(c))
        && c.key == ask.key && c.fingerprint == ask.fingerprint
        && u.connections == w.connections[ask.key := c] && !u.stopping
        && var v := Run(u, later);
           AsksFor(v, j, c) ==> Next(v, Enter(j)) == SetTask(v, j, Done(v.tasks[j].ask, Ok(c)))
  {
    RunKeepsSound(EMPTY, steps);
    var w := Run(EMPTY, steps);
    if i < |w.tasks| && w.tasks[i].Opened? && w.tasks[i].outcome.Some? && Undisturbed(w, w.tasks[i].attempt) {
      FinishDelivers(w, i);
      StepKeepsSound(w, Finish(i));
      OpenedAsAsked(w, i);
      var v := Run(Next(w, Finish(i)), later);
      RunKeepsSound(Next(w, Finish(i)), later);
      if AsksFor(v, j, w.tasks[i].outcome.value) {
        EnterShares(v, j, w.tasks[i].outcome.value);
      }
    }
  }

  predicate Released(w: World, s: nat) {
    s < |w.sessions| && (w.sessions[s].Closing? || w.sessions[s].Closed?)
  }

  predicate Cancelled(w: World, a: nat) {
    a < |w.attempts| && w.attempts[a].cancelled
  }

  lemma ReleasedThroughEnter(w: World, i: nat, s: nat)
    requires Keys(w) && i < |w.tasks| && w.tasks[i].Ready?
    requires w.tasks[i].ask.key in w.connections ==> Owned(w, w.connections[w.tasks[i].ask.key])
    ensures Released(w, s) ==> Released(EnterTask(w, i), s)
  {
  }

  lemma ReleasedThroughFinish(w: World, i: nat, s: nat)
    requires Tasks(w) && i < |w.tasks| && w.tasks[i].Opened?
    requires w.tasks[i].attempt < |w.attempts| && (w.tasks[i].outcome.Some? ==> Owned(w, w.tasks[i].outcome.value))
    ensures Released(w, s) ==> Released(FinishTask(w, i), s)
  {
    assert Holds(w, i);
  }

  lemma ReleasedStays(w: World, step: Step, s: nat)
    requires Sound(w)
    ensures Released(w, s) ==> Released(Next(w, step), s)
  {
    match step {
      case Enter(i) =>
        if i < |w.tasks| && w.tasks[i].Ready? {
          EnterKeepsSound(w, i);
          ReleasedThroughEnter(w, i, s);
        }
      case Finish(i) =>
        if i < |w.tasks| && w.tasks[i].Opened? {
          FinishKeepsSound(w, i);
          ReleasedThroughFinish(w, i, s);
        }
      case _ =>
    }
  }

  lemma CancelledStays(w: World, step: Step, a: nat)
    ensures Cancelled(w, a) ==> Cancelled(Next(w, step), a)
  {
  }

  lemma {:induction false} EndsStay(w: World, steps: seq<Step>, s: nat, a: nat)
    requires Sound(w)
    ensures Sound(Run(w, steps))
    ensures Released(w, s) ==> Released(Run(w, steps), s)
    ensures Cancelled(w, a) ==> Cancelled(Run(w, steps), a)
    decreases |steps|
  {
    if steps != [] {
      StepKeepsSound(w, steps[0]);
      ReleasedStays(w, steps[0], s);
      CancelledStays(w, steps[0], a);
      EndsStay(Next(w, steps[0]), steps[1..], s, a);
    }
  }

  /**
   Closing what matches is final, whatever raced with it and whatever follows: a matching connection's session
   is closed or about to be, and a matching attempt that was in flight never installs anything.
   */
  lemma ClosingIsFinal(before: seq<Step>, matches: (string, string) -> bool, after: seq<Step>, key: string)
    ensures var w := Run(EMPTY, before);
      var u := Run(Next(w, CloseMatching(matches)), after);
      && (key in w.connections && matches(key, w.connections[key].serverId) ==>
          Released(u, w.connections[key].session))
      && (key in w.connecting ==>
          && w.connecting[key] < |w.attempts| && w.connecting[key] < |u.attempts|
          && (matches(key, w.attempts[w.connecting[key]].serverId) ==> !u.attempts[w.connecting[key]].installed))
  {
    RunKeepsSound(EMPTY, before);
    var w := Run(EMPTY, before);
    var v := Next(w, CloseMatching(matches));
    CloseAllKeepsSound(w, matches);
    var s := if key in w.connections then w.connections[key].session else 0;
    var a := if key in w.connecting then w.connecting[key] else 0;
    if key in w.connections {
      assert Listed(w, key);
    }
    if key in w.connecting {
      assert Registered(w, key);
      AttemptsRemain(v, after);
    }
    EndsStay(v, after, s, a);
  }

  lemma AttemptsStay(w: World, step: Step)
    ensures |w.attempts| <= |Next(w, step).attempts|
  {
  }

  lemma {:induction false} AttemptsRemain(w: World, steps: seq<Step>)
    ensures |w.attempts| <= |Run(w, steps).attempts|
    decreases |steps|
  {
    if steps != [] {
      AttemptsStay(w, steps[0]);
      AttemptsRemain(Next(w, steps[0]), steps[1..]);
    }
  }
}
