/**
 The event stream of one run seen simply: the full log, and for every subscriber the piece of it that was
 put on its channel. `Hub` refines this; the laws of replay and resumption are proved here, over all runs.
 */
module StreamLog {
  import opened Wrappers

  datatype Event = Event(sequence: int, kind: string, data: string)

  /** Sent log[start..end], of which the reader has received log[start..start + taken]. */
  datatype Subscriber = Subscriber(start: nat, end: nat, taken: nat, capacity: nat, open: bool)

  datatype Stream = Stream(log: seq<Event>, subscribers: seq<Subscriber>, done: bool)

  datatype Limits = Limits(eventLimit: nat, subscriberBuffer: nat)

  /** Everything that can happen to a stream under the hub's lock, and a reader receiving. */
  datatype Step =
    | Publish(kind: string, data: string)
    | Complete
    | Subscribe(after: int)
    | Cancel(subscriber: nat)
    | Receive(subscriber: nat)

  const EMPTY: Stream := Stream([], [], false)

  predicate Sensible(limits: Limits) {
    limits.eventLimit >= 1 && limits.subscriberBuffer >= 1
  }

  function Dropped(s: Stream, limits: Limits): nat {
    if |s.log| > limits.eventLimit then |s.log| - limits.eventLimit else 0
  }

  /** Where the replay for a client that has seen `after` begins in the log. */
  function ReplayStart(s: Stream, limits: Limits, after: int): (start: nat)
    ensures start <= |s.log|
  {
    Min(Max(after, Dropped(s, limits)), |s.log|)
  }

  /** The flag SubscribeReplay reports. */
  predicate Truncated(s: Stream, limits: Limits, after: int) {
    after > 0 && after < Dropped(s, limits)
  }

  function OldestSequence(s: Stream, limits: Limits): int {
    Dropped(s, limits) + 1
  }

  function Queued(sub: Subscriber): int {
    sub.end - sub.start - sub.taken
  }

  /** A send that would block closes the channel instead. */
  function Offer(sub: Subscriber): Subscriber {
    if !sub.open then sub
    else if Queued(sub) < sub.capacity then sub.(end := sub.end + 1)
    else sub.(open := false)
  }

  function MapSubscribers(subs: seq<Subscriber>, f: Subscriber -> Subscriber): (r: seq<Subscriber>)
    ensures |r| == |subs| && forall i :: 0 <= i < |subs| ==> r[i] == f(subs[i])
  {
    seq(|subs|, i requires 0 <= i < |subs| => f(subs[i]))
  }

  function Close(sub: Subscriber): Subscriber {
    sub.(open := false)
  }

  function NewSubscriber(s: Stream, limits: Limits, after: int): Subscriber {
    var start := ReplayStart(s, limits, after);
    Subscriber(start, |s.log|, 0, |s.log| - start + limits.subscriberBuffer, !s.done)
  }

  function Next(s: Stream, limits: Limits, step: Step): Stream {
    match step
    case Publish(kind, data) =>
      if s.done then s
      else Stream(s.log + [Event(|s.log| + 1, kind, data)], MapSubscribers(s.subscribers, Offer), false)
    case Complete =>
      if s.done then s else Stream(s.log, MapSubscribers(s.subscribers, Close), true)
    case Subscribe(after) =>
      s.(subscribers := s.subscribers + [NewSubscriber(s, limits, after)])
    case Cancel(i) =>
      if i < |s.subscribers| then s.(subscribers := s.subscribers[i := Close(s.subscribers[i])]) else s
    case Receive(i) =>
      if i < |s.subscribers| && Queued(s.subscribers[i]) > 0
      then s.(subscribers := s.subscribers[i := s.subscribers[i].(taken := s.subscribers[i].taken + 1)])
      else s
  }

  function Run(s: Stream, limits: Limits, steps: seq<Step>): Stream
    decreases |steps|
  {
    if steps == [] then s else Run(Next(s, limits, steps[0]), limits, steps[1..])
  }

  /** What a subscriber's reader has received, and everything put on its channel. */
  function Received(s: Stream, i: nat): seq<Event>
    requires Consistent(s) && i < |s.subscribers|
  {
    s.log[s.subscribers[i].start..s.subscribers[i].start + s.subscribers[i].taken]
  }

  function Sent(s: Stream, i: nat): seq<Event>
    requires Consistent(s) && i < |s.subscribers|
  {
    s.log[s.subscribers[i].start..s.subscribers[i].end]
  }

  predicate Numbered(log: seq<Event>) {
    forall i :: 0 <= i < |log| ==> log[i].sequence == i + 1
  }

  /** Numbers are consecutive; an open channel is up to date, so a reader that lags is closed, never skipped. */
  predicate Consistent(s: Stream) {
    && Numbered(s.log)
    && forall i :: 0 <= i < |s.subscribers| ==> ConsistentSubscriber(s, s.subscribers[i])
  }

  predicate ConsistentSubscriber(s: Stream, sub: Subscriber) {
    && sub.start + sub.taken <= sub.end <= |s.log|
    && Queued(sub) <= sub.capacity
    && (sub.open ==> sub.end == |s.log| && !s.done)
  }

  lemma StepKeepsConsistent(s: Stream, limits: Limits, step: Step)
    requires Consistent(s)
    ensures Consistent(Next(s, limits, step))
  {
  }

  /** What later steps never take back. */
  predicate Extends(s: Stream, t: Stream) {
    && s.log <= t.log
    && |s.subscribers| <= |t.subscribers|
    && (forall i :: 0 <= i < |s.subscribers| ==> SubscriberExtends(s.subscribers[i], t.subscribers[i]))
    && (s.done ==> t.done && t.log == s.log)
  }

  predicate SubscriberExtends(a: Subscriber, b: Subscriber) {
    && b.start == a.start && b.end >= a.end && b.taken >= a.taken && b.capacity == a.capacity
    && (!a.open ==> !b.open && b.end == a.end)
  }

  lemma {:induction false} RunExtends(s: Stream, limits: Limits, steps: seq<Step>)
    requires Consistent(s)
    ensures Consistent(Run(s, limits, steps)) && Extends(s, Run(s, limits, steps))
    decreases |steps|
  {
    if steps != [] {
      var s' := Next(s, limits, steps[0]);
      StepKeepsConsistent(s, limits, steps[0]);
      assert Extends(s, s');
      RunExtends(s', limits, steps[1..]);
      var t := Run(s', limits, steps[1..]);
      forall i | 0 <= i < |s.subscribers|
        ensures SubscriberExtends(s.subscribers[i], t.subscribers[i])
      {
        assert SubscriberExtends(s.subscribers[i], s'.subscribers[i]);
        assert SubscriberExtends(s'.subscribers[i], t.subscribers[i]);
      }
    }
  }

  /** Every state of every run of a new stream is consistent. */
  lemma ReachableIsConsistent(limits: Limits, steps: seq<Step>)
    ensures Consistent(Run(EMPTY, limits, steps))
  {
    RunExtends(EMPTY, limits, steps);
  }

  /** Each subscriber gets consecutive numbers, none twice, starting right after `start`. */
  lemma DeliveryHasNoGap(limits: Limits, steps: seq<Step>, i: nat, k: nat)
    requires i < |Run(EMPTY, limits, steps).subscribers|
    ensures var s := Run(EMPTY, limits, steps);
      && Consistent(s)
      && (k < |Sent(s, i)| ==> Sent(s, i)[k].sequence == s.subscribers[i].start + k + 1)
      && Received(s, i) <= Sent(s, i)
      && (s.subscribers[i].open ==> Sent(s, i) == s.log[s.subscribers[i].start..])
  {
    ReachableIsConsistent(limits, steps);
    var s := Run(EMPTY, limits, steps);
    assert ConsistentSubscriber(s, s.subscribers[i]);
    assert Received(s, i) == Sent(s, i)[..s.subscribers[i].taken];
  }

  /** The number a client resumes from: that of the last event it received. */
  function LastReceived(s: Stream, i: nat): int
    requires Consistent(s) && i < |s.subscribers| && s.subscribers[i].taken > 0
  {
    assert ConsistentSubscriber(s, s.subscribers[i]);
    Received(s, i)[|Received(s, i)| - 1].sequence
  }

  /**
   Reconnecting with the number of the last event received: whatever happened before and happens after,
   the two channels together carry one contiguous piece of the log exactly when Truncated is not reported.
   */
  lemma ResumptionIsLossless(limits: Limits, before: seq<Step>, i: nat, later: seq<Step>)
    requires Sensible(limits)
    requires Consistent(Run(EMPTY, limits, before))
    requires i < |Run(EMPTY, limits, before).subscribers| && Run(EMPTY, limits, before).subscribers[i].taken > 0
    ensures var s := Run(EMPTY, limits, before);
      var after := LastReceived(s, i);
      var t := Run(Next(s, limits, Subscribe(after)), limits, later);
      var j := |s.subscribers|;
      && after > 0
      && Consistent(t) && j < |t.subscribers|
      && s.subscribers[i].start <= t.subscribers[j].end <= |t.log|
      && (!Truncated(s, limits, after) <==>
          Received(s, i) + Sent(t, j) == t.log[s.subscribers[i].start..t.subscribers[j].end])
  {
    var s := Run(EMPTY, limits, before);
    assert ConsistentSubscriber(s, s.subscribers[i]);
    var after := LastReceived(s, i);
    assert after == s.subscribers[i].start + s.subscribers[i].taken;
    var joined := Next(s, limits, Subscribe(after));
    StepKeepsConsistent(s, limits, Subscribe(after));
    RunExtends(joined, limits, later);
    var t := Run(joined, limits, later);
    var j := |s.subscribers|;
    assert SubscriberExtends(joined.subscribers[j], t.subscribers[j]);
    assert s.log <= t.log;
    assert Received(s, i) == t.log[s.subscribers[i].start..after];
    if Truncated(s, limits, after) {
      assert |Received(s, i) + Sent(t, j)| < t.subscribers[j].end - s.subscribers[i].start;
    } else {
      assert t.subscribers[j].start == after;
    }
  }

  /**
   A client that has seen nothing asks with 0 and is never told of truncation; it gets the log from the
   beginning exactly when nothing was dropped, which OldestSequence shows.
   */
  lemma FirstSubscription(limits: Limits, before: seq<Step>, later: seq<Step>)
    requires Sensible(limits)
    ensures var s := Run(EMPTY, limits, before);
      var t := Run(Next(s, limits, Subscribe(0)), limits, later);
      var j := |s.subscribers|;
      && !Truncated(s, limits, 0)
      && Consistent(t) && j < |t.subscribers|
      && (Sent(t, j) == t.log[..t.subscribers[j].end] <==> OldestSequence(s, limits) == 1)
  {
    ReachableIsConsistent(limits, before);
    var s := Run(EMPTY, limits, before);
    var joined := Next(s, limits, Subscribe(0));
    StepKeepsConsistent(s, limits, Subscribe(0));
    RunExtends(joined, limits, later);
    var t := Run(joined, limits, later);
    var j := |s.subscribers|;
    assert SubscriberExtends(joined.subscribers[j], t.subscribers[j]);
    assert |Sent(t, j)| == t.subscribers[j].end - t.subscribers[j].start;
  }

  function Publishes(n: nat): seq<Step> {
    if n == 0 then [] else [Publish("", "")] + Publishes(n - 1)
  }

  lemma {:induction false} PublishesGrow(s: Stream, limits: Limits, n: nat)
    requires !s.done
    ensures var t := Run(s, limits, Publishes(n)); |t.log| == |s.log| + n && !t.done
    decreases n
  {
    if n > 0 {
      PublishesGrow(Next(s, limits, Publish("", "")), limits, n - 1);
      assert Publishes(n)[1..] == Publishes(n - 1);
    }
  }

  /** A client that asks for everything then is told of no truncation and yet misses the beginning. */
  predicate MissesBeginning(s: Stream, limits: Limits, later: seq<Step>) {
    var t := Run(Next(s, limits, Subscribe(0)), limits, later);
    && !Truncated(s, limits, 0)
    && Consistent(t) && |s.subscribers| < |t.subscribers|
    && Sent(t, |s.subscribers|) != t.log[..t.subscribers[|s.subscribers|].end]
  }

  lemma DroppedIsMissed(limits: Limits, before: seq<Step>, later: seq<Step>)
    requires Sensible(limits) && |Run(EMPTY, limits, before).log| > limits.eventLimit
    ensures MissesBeginning(Run(EMPTY, limits, before), limits, later)
  {
    FirstSubscription(limits, before, later);
  }

  /** One event more than the hub keeps is enough. */
  lemma FirstSubscriptionMisses(limits: Limits, later: seq<Step>) returns (before: seq<Step>)
    requires Sensible(limits)
    ensures before == Publishes(limits.eventLimit + 1)
    ensures MissesBeginning(Run(EMPTY, limits, before), limits, later)
  {
    before := Publishes(limits.eventLimit + 1);
    PublishesGrow(EMPTY, limits, limits.eventLimit + 1);
    DroppedIsMissed(limits, before, later);
  }

  predicate OnlyAbove(events: seq<Event>, after: int) {
    forall k :: 0 <= k < |events| ==> events[k].sequence > after
  }

  /** Whatever the stream does next, the channel opened with `after` carries only numbers above it. */
  ghost predicate NothingRepeated(s: Stream, limits: Limits, after: int) {
    forall later ::
      var t := Run(Next(s, limits, Subscribe(after)), limits, later);
      Consistent(t) && |s.subscribers| < |t.subscribers| && OnlyAbove(Sent(t, |s.subscribers|), after)
  }

  lemma SentAfterSubscribe(s: Stream, limits: Limits, after: int, later: seq<Step>)
    requires Consistent(s)
    ensures var t := Run(Next(s, limits, Subscribe(after)), limits, later);
      var j := |s.subscribers|;
      && Consistent(t) && j < |t.subscribers|
      && t.subscribers[j].start == ReplayStart(s, limits, after)
      && (s.done ==> t.subscribers[j].end == |s.log|)
      && forall k :: 0 <= k < |Sent(t, j)| ==> Sent(t, j)[k].sequence == t.subscribers[j].start + k + 1
  {
    var joined := Next(s, limits, Subscribe(after));
    StepKeepsConsistent(s, limits, Subscribe(after));
    RunExtends(joined, limits, later);
    var t := Run(joined, limits, later);
    assert SubscriberExtends(joined.subscribers[|s.subscribers|], t.subscribers[|s.subscribers|]);
    assert ConsistentSubscriber(t, t.subscribers[|s.subscribers|]);
  }

  /** A client that names a number not reached gets the next event, although its number is not above the one named. */
  lemma FutureNumberIsRepeated(s: Stream, limits: Limits, after: int)
    requires Sensible(limits) && Consistent(s) && after > |s.log| && !s.done
    ensures !NothingRepeated(s, limits, after)
  {
    var later := [Publish("", "")];
    var j := |s.subscribers|;
    var joined := Next(s, limits, Subscribe(after));
    assert later[1..] == [];
    SentAfterSubscribe(s, limits, after, later);
    var t := Run(joined, limits, later);
    assert t == Next(joined, limits, Publish("", ""));
    assert t.subscribers[j] == Offer(joined.subscribers[j]);
    assert Sent(t, j)[0].sequence <= after;
  }

  /**
   Whatever follows, only numbers above `after` are sent, exactly when the client names a number the run has
   reached, or the run is over.
   */
  lemma NothingSentTwice(limits: Limits, before: seq<Step>, after: int)
    requires Sensible(limits)
    ensures var s := Run(EMPTY, limits, before);
      NothingRepeated(s, limits, after) <==> after <= |s.log| || s.done
  {
    ReachableIsConsistent(limits, before);
    var s := Run(EMPTY, limits, before);
    if after <= |s.log| || s.done {
      forall later
        ensures var t := Run(Next(s, limits, Subscribe(after)), limits, later);
          Consistent(t) && |s.subscribers| < |t.subscribers| && OnlyAbove(Sent(t, |s.subscribers|), after)
      {
        SentAfterSubscribe(s, limits, after, later);
      }
    } else {
      FutureNumberIsRepeated(s, limits, after);
    }
  }

  /** How many events a subscriber's reader has still to receive of what was published since it started. */
  function Lag(s: Stream, i: nat): int
    requires i < |s.subscribers|
  {
    |s.log| - s.subscribers[i].start - s.subscribers[i].taken
  }

  /** At no moment is the reader further behind than its channel holds. */
  predicate KeepsUp(s: Stream, limits: Limits, steps: seq<Step>, i: nat)
    decreases |steps|
  {
    && i < |s.subscribers|
    && Lag(s, i) <= s.subscribers[i].capacity
    && (steps != [] ==> KeepsUp(Next(s, limits, steps[0]), limits, steps[1..], i))
  }

  /** One step closes an open channel when it is cancelled, the run ends, or an event is published that does not fit. */
  lemma StepKeepsOpen(s: Stream, limits: Limits, step: Step, i: nat)
    requires Consistent(s) && i < |s.subscribers| && s.subscribers[i].open
    ensures var t := Next(s, limits, step);
      && i < |t.subscribers|
      && (t.subscribers[i].open <==>
          step != Cancel(i) && step != Complete && Lag(t, i) <= t.subscribers[i].capacity)
  {
    assert ConsistentSubscriber(s, s.subscribers[i]);
  }

  lemma {:induction false} OpenWhileKeepingUp(s: Stream, limits: Limits, steps: seq<Step>, i: nat)
    requires Consistent(s) && i < |s.subscribers| && s.subscribers[i].open
    ensures var t := Run(s, limits, steps);
      && i < |t.subscribers|
      && (t.subscribers[i].open <==> Cancel(i) !in steps && Complete !in steps && KeepsUp(s, limits, steps, i))
    decreases |steps|
  {
    assert ConsistentSubscriber(s, s.subscribers[i]);
    if steps != [] {
      var next := Next(s, limits, steps[0]);
      StepKeepsConsistent(s, limits, steps[0]);
      StepKeepsOpen(s, limits, steps[0], i);
      assert steps == [steps[0]] + steps[1..];
      if next.subscribers[i].open {
        OpenWhileKeepingUp(next, limits, steps[1..], i);
      } else {
        RunExtends(next, limits, steps[1..]);
        assert SubscriberExtends(next.subscribers[i], Run(next, limits, steps[1..]).subscribers[i]);
      }
    }
  }

  /**
   A channel opened in an unfinished run stays open exactly until it is cancelled, the run ends, or its reader falls
   further behind than the replay and the buffer together; so no reader is dropped that is never more than a buffer
   behind.
   */
  lemma OnlySlowReadersAreDropped(limits: Limits, before: seq<Step>, after: int, later: seq<Step>)
    requires !Run(EMPTY, limits, before).done
    ensures var s := Run(EMPTY, limits, before);
      var joined := Next(s, limits, Subscribe(after));
      var t := Run(joined, limits, later);
      var j := |s.subscribers|;
      && j < |joined.subscribers| && j < |t.subscribers|
      && joined.subscribers[j].capacity == Lag(joined, j) + limits.subscriberBuffer
      && Lag(joined, j) >= 0
      && (t.subscribers[j].open <==> Cancel(j) !in later && Complete !in later && KeepsUp(joined, limits, later, j))
  {
    ReachableIsConsistent(limits, before);
    var s := Run(EMPTY, limits, before);
    StepKeepsConsistent(s, limits, Subscribe(after));
    OpenWhileKeepingUp(Next(s, limits, Subscribe(after)), limits, later, |s.subscribers|);
  }
}
