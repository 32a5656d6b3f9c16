/**
 The inactivity watchdog of an MCP tool call. The timer is a step that may happen while it is armed; the
 expiry it starts is a goroutine that waits for the lock, so pauses and resumes can get in between.
 */
module CallTimeout {
  /** A resume function handed out by pause: a no-op, one not yet called, or one already called. */
  datatype Handle = Inert | Held | Released

  datatype Watchdog = Watchdog(
    pauses: int,
    stopped: bool,
    timedOut: bool,
    armed: bool,
    expiring: nat,
    handles: seq<Handle>)

  datatype Step = Pause | Resume(handle: nat) | Fire | Expire | Stop

  const STARTED: Watchdog := Watchdog(0, false, false, true, 0, [])

  /** resume, under the lock. */
  function Resumed(w: Watchdog): Watchdog {
    if w.pauses == 0 then w
    else
      var w' := w.(pauses := w.pauses - 1);
      if w'.pauses == 0 && !w'.stopped then w'.(armed := true) else w'
  }

  function Next(w: Watchdog, step: Step): Watchdog {
    match step
    case Pause =>
      if w.stopped then w.(handles := w.handles + [Inert])
      else w.(pauses := w.pauses + 1, armed := false, handles := w.handles + [Held])
    case Resume(i) =>
      if i < |w.handles| && w.handles[i] == Held then Resumed(w).(handles := w.handles[i := Released]) else w
    case Fire =>
      if w.armed then w.(armed := false, expiring := w.expiring + 1) else w
    case Expire =>
      if w.expiring == 0 then w
      else if w.stopped || w.pauses > 0 then w.(expiring := w.expiring - 1)
      else w.(expiring := w.expiring - 1, stopped := true, timedOut := true)
    case Stop =>
      if w.stopped then w else w.(stopped := true, armed := false)
  }

  function Run(w: Watchdog, steps: seq<Step>): Watchdog
    decreases |steps|
  {
    if steps == [] then w else Run(Next(w, steps[0]), steps[1..])
  }

  function Outstanding(handles: seq<Handle>): nat {
    if handles == [] then 0
    else Outstanding(handles[..|handles| - 1]) + if handles[|handles| - 1] == Held then 1 else 0
  }

  predicate Sound(w: Watchdog) {
    && w.pauses == Outstanding(w.handles)
    && (!w.stopped && w.pauses == 0 ==> w.armed || w.expiring > 0)
    && (w.pauses > 0 && !w.stopped ==> !w.armed)
    && (w.timedOut ==> w.stopped)
  }

  lemma OutstandingSnoc(handles: seq<Handle>, h: Handle)
    ensures Outstanding(handles + [h]) == Outstanding(handles) + if h == Held then 1 else 0
  {
  }

  lemma {:induction false} OutstandingReleased(handles: seq<Handle>, i: nat)
    requires i < |handles| && handles[i] == Held
    ensures Outstanding(handles[i := Released]) == Outstanding(handles) - 1
    decreases |handles|
  {
    var n := |handles| - 1;
    if i < n {
      OutstandingReleased(handles[..n], i);
      assert handles[i := Released][..n] == handles[..n][i := Released];
    } else {
      assert handles[i := Released][..n] == handles[..n];
    }
  }

  lemma StepKeepsSound(w: Watchdog, step: Step)
    requires Sound(w)
    ensures Sound(Next(w, step))
  {
    match step
    case Pause =>
      OutstandingSnoc(w.handles, Held);
      OutstandingSnoc(w.handles, Inert);
    case Resume(i) =>
      if i < |w.handles| && w.handles[i] == Held {
        OutstandingReleased(w.handles, i);
      }
    case Fire =>
    case Expire =>
    case Stop =>
  }

  lemma {:induction false} RunKeepsSound(w: Watchdog, steps: seq<Step>)
    requires Sound(w)
    ensures Sound(Run(w, steps))
    decreases |steps|
  {
    if steps != [] {
      StepKeepsSound(w, steps[0]);
      RunKeepsSound(Next(w, steps[0]), steps[1..]);
    }
  }

  /**
   Over all interleavings: pauses are the resume handles outstanding, an idle watchdog is about to expire
   sooner or later, and a call times out only at a moment when no handle is outstanding.
   */
  lemma TimeoutNeedsInactivity(steps: seq<Step>, step: Step)
    ensures var w := Run(STARTED, steps);
      && w.pauses == Outstanding(w.handles)
      && (!w.stopped && Outstanding(w.handles) == 0 ==> w.armed || w.expiring > 0)
      && (Next(w, step).timedOut && !w.timedOut ==>
          step == Expire && w.expiring > 0 && Outstanding(w.handles) == 0 && !w.stopped)
      && (step.Resume? && step.handle < |w.handles| && w.handles[step.handle] == Held ==> w.pauses > 0)
  {
    RunKeepsSound(STARTED, steps);
    var w := Run(STARTED, steps);
    if step.Resume? && step.handle < |w.handles| && w.handles[step.handle] == Held {
      OutstandingReleased(w.handles, step.handle);
    }
  }

  /** A stopped watchdog never changes its verdict. */
  lemma {:induction false} VerdictIsFinal(w: Watchdog, steps: seq<Step>)
    requires w.stopped
    ensures Run(w, steps).stopped && Run(w, steps).timedOut == w.timedOut
    decreases |steps|
  {
    if steps != [] {
      VerdictIsFinal(Next(w, steps[0]), steps[1..]);
    }
  }

  /** A pause that finds a started watchdog unstopped shields it until its resume, whatever else runs. */
  lemma {:induction false} PauseShields(w: Watchdog, i: nat, steps: seq<Step>)
    requires Sound(w) && !w.timedOut && i < |w.handles| && w.handles[i] == Held
    requires Resume(i) !in steps
    ensures !Run(w, steps).timedOut
    decreases |steps|
  {
    if steps != [] {
      var step := steps[0];
      StepKeepsSound(w, step);
      OutstandingReleased(w.handles, i);
      assert step != Resume(i);
      PauseShields(Next(w, step), i, steps[1..]);
    }
  }

  /** A resume does not promise a full new duration: an expiry that was already waiting ends the call at once. */
  lemma WaitingExpiryOutlivesPause()
    ensures var w := Run(STARTED, [Fire, Pause, Resume(0), Expire]);
      w.timedOut && w.armed
  {
  }

  ghost predicate CanTimeOutUnfired(w: Watchdog) {
    exists steps :: Fire !in steps && Run(w, steps).timedOut
  }

  lemma {:induction false} NothingOutstanding(handles: seq<Handle>)
    requires forall k :: 0 <= k < |handles| ==> handles[k] != Held
    ensures Outstanding(handles) == 0
  {
    if handles != [] {
      NothingOutstanding(handles[..|handles| - 1]);
    }
  }

  /** Calling every resume function left ends all pauses and changes nothing else that decides the verdict. */
  lemma {:induction false} ResumeAll(w: Watchdog, i: nat) returns (steps: seq<Step>)
    requires Sound(w) && i <= |w.handles| && forall k :: 0 <= k < i ==> w.handles[k] != Held
    ensures Fire !in steps
    ensures var r := Run(w, steps);
      Sound(r) && r.pauses == 0 && r.stopped == w.stopped && r.expiring == w.expiring
    decreases |w.handles| - i
  {
    if i == |w.handles| {
      NothingOutstanding(w.handles);
      steps := [];
    } else {
      StepKeepsSound(w, Resume(i));
      var rest := ResumeAll(Next(w, Resume(i)), i + 1);
      steps := [Resume(i)] + rest;
      assert steps[1..] == rest;
    }
  }

  lemma {:induction false} RunConcat(w: Watchdog, a: seq<Step>, b: seq<Step>)
    ensures Run(w, a + b) == Run(Run(w, a), b)
    decreases |a|
  {
    if a == [] {
      assert a + b == b;
    } else {
      assert (a + b)[1..] == a[1..] + b;
      RunConcat(Next(w, a[0]), a[1..], b);
    }
  }

  lemma {:induction false} NoExpiryNoTimeout(w: Watchdog, steps: seq<Step>)
    requires Fire !in steps && !w.timedOut && (w.stopped || w.expiring == 0)
    ensures !Run(w, steps).timedOut
    decreases |steps|
  {
    if steps != [] {
      assert steps[0] != Fire;
      NoExpiryNoTimeout(Next(w, steps[0]), steps[1..]);
    }
  }

  /**
   At any moment, and so right after a resume, the call can time out before the timer fires again exactly when it
   has timed out already or an expiry is waiting that nothing has stopped.
   */
  lemma TimesOutUnfiredExactly(before: seq<Step>)
    ensures var w := Run(STARTED, before);
      CanTimeOutUnfired(w) <==> w.timedOut || (!w.stopped && w.expiring > 0)
  {
    RunKeepsSound(STARTED, before);
    var w := Run(STARTED, before);
    if w.timedOut {
      assert Run(w, []).timedOut;
    } else if !w.stopped && w.expiring > 0 {
      var steps := ResumeAll(w, 0);
      RunConcat(w, steps, [Expire]);
      assert [Expire][1..] == [];
      assert Run(w, steps + [Expire]).timedOut && Fire !in steps + [Expire];
    } else {
      forall steps | Fire !in steps
        ensures !Run(w, steps).timedOut
      {
        NoExpiryNoTimeout(w, steps);
      }
    }
  }

  class CallInactivityTimeout {
    var pauses: int
    var stopped: bool
    var timedOut: bool
    var armed: bool
    var cancelled: bool
    ghost var expiring: nat
    ghost var handles: seq<Handle>

    ghost function View(): Watchdog
      reads this
    {
      Watchdog(pauses, stopped, timedOut, armed, expiring, handles)
    }

    constructor ()
      ensures View() == STARTED && !cancelled
    {
      pauses, stopped, timedOut, armed, cancelled := 0, false, false, true, false;
      expiring, handles := 0, [];
    }

    method Pause() returns (inert: bool)
      modifies this
      ensures View() == Next(old(View()), Step.Pause) && cancelled == old(cancelled)
      ensures inert == old(stopped) && handles == old(handles) + [if inert then Inert else Held]
      ensures pauses == old(pauses) + (if inert then 0 else 1) && armed == (inert && old(armed))
      ensures stopped == old(stopped) && timedOut == old(timedOut)
    {
      if stopped {
        handles := handles + [Inert];
        return true;
      }
      pauses := pauses + 1;
      armed := false;
      handles := handles + [Held];
      inert := false;
    }

    /** The function pause returned: sync.Once lets only its first call through. */
    method CallResume(ghost i: nat, inert: bool, called: bool)
      requires i < |handles| && (inert <==> handles[i] == Inert) && (!inert ==> (called <==> handles[i] == Released))
      modifies this
      ensures View() == Next(old(View()), Step.Resume(i)) && cancelled == old(cancelled)
      ensures stopped == old(stopped) && timedOut == old(timedOut)
      ensures if inert || called then pauses == old(pauses) && armed == old(armed)
        else old(pauses) > 0 ==> pauses == old(pauses) - 1 && armed == (old(armed) || (pauses == 0 && !stopped))
    {
      if inert || called {
        return;
      }
      Resume();
      handles := handles[i := Released];
    }

    method Resume()
      modifies this`pauses, this`armed
      ensures View() == Resumed(old(View()))
    {
      if pauses == 0 {
        return;
      }
      pauses := pauses - 1;
      if pauses == 0 && !stopped {
        armed := true;
      }
    }

    /** The timer runs out: a goroutine starts that will call expire. */
    method Fire()
      requires armed
      modifies this
      ensures View() == Next(old(View()), Step.Fire) && cancelled == old(cancelled)
    {
      armed := false;
      expiring := expiring + 1;
    }

    method Expire()
      requires expiring > 0
      modifies this
      ensures View() == Next(old(View()), Step.Expire)
      ensures cancelled == (old(cancelled) || old(!stopped && pauses <= 0))
      ensures stopped == (old(stopped) || old(pauses <= 0)) && timedOut == (old(timedOut) || old(!stopped && pauses <= 0))
    {
      expiring := expiring - 1;
      if stopped || pauses > 0 {
        return;
      }
      stopped := true;
      timedOut := true;
      cancelled := true;
    }

    method Stop()
      modifies this
      ensures View() == Next(old(View()), Step.Stop) && cancelled
      ensures stopped && timedOut == old(timedOut) && (!old(stopped) ==> !armed)
    {
      if !stopped {
        stopped := true;
        armed := false;
      }
      cancelled := true;
    }
  }
}
