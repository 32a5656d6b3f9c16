/** The hub's table of streams, one for each run, and the timers that evict finished ones. */
module StreamTable {
  import opened StreamLog

  /** identity stands for the stream's pointer, which an eviction timer compares. */
  datatype Slot = Slot(identity: nat, stream: Stream)

  /** timers holds the evictions scheduled by completing a stream. */
  datatype Table = Table(streams: map<string, Slot>, created: nat, timers: set<(string, nat)>)

  datatype Action =
    | Create(run: string)
    | On(run: string, step: Step)
    | Evict(run: string, identity: nat)

  const NO_STREAMS: Table := Table(map[], 0, {})

  function Act(t: Table, limits: Limits, action: Action): Table {
    match action
    case Create(run) => t.(streams := t.streams[run := Slot(t.created, EMPTY)], created := t.created + 1)
    case On(run, step) =>
      if run !in t.streams then t
      else
        var slot := t.streams[run];
        t.(streams := t.streams[run := slot.(stream := Next(slot.stream, limits, step))],
           timers := if step.Complete? && !slot.stream.done then t.timers + {(run, slot.identity)} else t.timers)
    case Evict(run, identity) =>
      if (run, identity) in t.timers && run in t.streams && t.streams[run].identity == identity && t.streams[run].stream.done
      then t.(streams := t.streams - {run})
      else t
  }

  function ActAll(limits: Limits, actions: seq<Action>): Table {
    if actions == [] then NO_STREAMS
    else Act(ActAll(limits, actions[..|actions| - 1]), limits, actions[|actions| - 1])
  }

  function Creations(actions: seq<Action>, run: string): nat {
    if actions == [] then 0
    else Creations(actions[..|actions| - 1], run) + if actions[|actions| - 1] == Create(run) then 1 else 0
  }

  /** What was done to the run since it was created, whatever happened to the others. */
  function Own(actions: seq<Action>, run: string): seq<Step> {
    if actions == [] then []
    else
      var before, last := Own(actions[..|actions| - 1], run), actions[|actions| - 1];
      if last == Create(run) then [] else if last.On? && last.run == run then before + [last.step] else before
  }

  lemma {:induction false} RunSnoc(s: Stream, limits: Limits, steps: seq<Step>, step: Step)
    ensures Run(s, limits, steps + [step]) == Next(Run(s, limits, steps), limits, step)
    decreases |steps|
  {
    if steps == [] {
      assert Run(Next(s, limits, step), limits, []) == Next(s, limits, step);
      assert ([] + [step])[1..] == [];
    } else {
      assert (steps + [step])[1..] == steps[1..] + [step];
      RunSnoc(Next(s, limits, steps[0]), limits, steps[1..], step);
    }
  }

  lemma DoneStays(s: Stream, limits: Limits, step: Step)
    requires s.done
    ensures Next(s, limits, step).done
  {
  }

  /**
   Each run lives alone: for a run that was created, the table holds exactly the stream that its own steps since
   then make of an empty one, and drops it only when it is done, so the laws of single streams hold for the hub.
   */
  lemma {:induction false} RunsAreIndependent(limits: Limits, actions: seq<Action>, run: string)
    ensures var t := ActAll(limits, actions);
      var own := Run(EMPTY, limits, Own(actions, run));
      && (run in t.streams ==> Creations(actions, run) >= 1 && t.streams[run].stream == own)
      && (run !in t.streams && Creations(actions, run) >= 1 ==> own.done)
  {
    if actions != [] {
      var init, last := actions[..|actions| - 1], actions[|actions| - 1];
      RunsAreIndependent(limits, init, run);
      if last.On? && last.run == run {
        RunSnoc(EMPTY, limits, Own(init, run), last.step);
        if Run(EMPTY, limits, Own(init, run)).done {
          DoneStays(Run(EMPTY, limits, Own(init, run)), limits, last.step);
        }
      }
    }
  }

  /** Identities are used up in order, and a timer is set for a stream that was done then and stays so. */
  ghost predicate TimersAreSet(t: Table) {
    && (forall run :: run in t.streams ==> t.streams[run].identity < t.created)
    && (forall timer :: timer in t.timers ==>
          && timer.1 < t.created
          && (timer.0 in t.streams && t.streams[timer.0].identity == timer.1 ==> t.streams[timer.0].stream.done))
  }

  /** Completing a run's stream sets the timer that evicts it, and once that goes off the run is gone. */
  lemma CompletionLeadsToEviction(t: Table, limits: Limits, run: string)
    requires run in t.streams && !t.streams[run].stream.done
    ensures var identity := t.streams[run].identity;
      var u := Act(t, limits, On(run, Complete));
      && run in u.streams && u.streams[run].identity == identity && u.streams[run].stream.done
      && (run, identity) in u.timers
      && Act(u, limits, Evict(run, identity)).streams == t.streams - {run}
  {
    var u := Act(t, limits, On(run, Complete));
    assert u.streams - {run} == t.streams - {run};
  }

  lemma ActKeepsTimers(t: Table, limits: Limits, action: Action)
    requires TimersAreSet(t)
    ensures TimersAreSet(Act(t, limits, action))
  {
    if action.On? && action.run in t.streams && t.streams[action.run].stream.done {
      DoneStays(t.streams[action.run].stream, limits, action.step);
    }
  }

  lemma {:induction false} TimersStaySet(limits: Limits, actions: seq<Action>)
    ensures TimersAreSet(ActAll(limits, actions))
  {
    if actions != [] {
      TimersStaySet(limits, actions[..|actions| - 1]);
      ActKeepsTimers(ActAll(limits, actions[..|actions| - 1]), limits, actions[|actions| - 1]);
    }
  }

  /**
   Over all runs, a timer that has been set takes exactly the stream it was set for, and finds it done; a stream
   created under the same run since then stays.
   */
  lemma EvictionTakesFinishedOnly(limits: Limits, actions: seq<Action>, run: string, identity: nat)
    ensures var t := ActAll(limits, actions);
      var u := Act(t, limits, Evict(run, identity));
      (run, identity) in t.timers ==>
        && u == t.(streams := u.streams)
        && (run in t.streams && t.streams[run].identity == identity ==>
              t.streams[run].stream.done && u.streams == t.streams - {run})
        && (run in t.streams && t.streams[run].identity != identity ==> u.streams == t.streams)
  {
    TimersStaySet(limits, actions);
  }
}
