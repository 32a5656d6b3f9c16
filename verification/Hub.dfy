/** The ring buffer and the bounded channels of one run's stream, as `stream` and `Hub` keep them. */
module Hub {
  import opened StreamLog
  import opened Wrappers

  /** Where the element at an offset from the oldest is kept. */
  function RingIndex(start: nat, offset: nat, n: nat): (i: nat)
    requires start <= n && offset < n
    ensures i < n
  {
    if start + offset < n then start + offset else start + offset - n
  }

  lemma ModuloOnce(start: nat, offset: nat, n: nat)
    requires start <= n && offset < n
    ensures (start + offset) % n == RingIndex(start, offset, n)
  {
    if start + offset < n {
      ModuloSmall(start + offset, n);
    } else {
      ModuloMinus(start + offset, n);
    }
  }

  lemma ModuloSmall(x: nat, n: nat)
    requires x < n
    ensures x % n == x
  {
  }

  lemma ModuloMinus(x: nat, n: nat)
    requires n <= x < 2 * n
    ensures x % n == x - n
  {
  }

  /** The ring holds the last events of the log, the oldest at `start`. */
  ghost predicate HoldsTail(ring: seq<Event>, start: nat, log: seq<Event>) {
    && start <= |ring| <= |log|
    && forall k :: 0 <= k < |ring| ==> ring[RingIndex(start, k, |ring|)] == log[|log| - |ring| + k]
  }

  lemma AppendKeepsTail(ring: seq<Event>, log: seq<Event>, event: Event)
    requires HoldsTail(ring, 0, log) && |ring| == |log|
    ensures HoldsTail(ring + [event], 0, log + [event])
  {
    forall k | 0 <= k < |ring + [event]|
      ensures (ring + [event])[RingIndex(0, k, |ring| + 1)] == (log + [event])[k]
    {
      if k < |ring| {
        assert ring[RingIndex(0, k, |ring|)] == log[k];
      }
    }
  }

  /** Overwriting the oldest element and moving on drops it and appends the new one. */
  lemma OverwriteKeepsTail(ring: seq<Event>, start: nat, log: seq<Event>, event: Event)
    requires HoldsTail(ring, start, log) && start < |ring|
    ensures (start + 1) % |ring| == if start + 1 == |ring| then 0 else start + 1
    ensures HoldsTail(ring[start := event], (start + 1) % |ring|, log + [event])
  {
    var n := |ring|;
    var next := if start + 1 == n then 0 else start + 1;
    if start + 1 < n {
      ModuloSmall(start + 1, n);
    } else {
      ModuloMinus(start + 1, n);
    }
    forall k | 0 <= k < n
      ensures ring[start := event][RingIndex(next, k, n)] == (log + [event])[|log| + 1 - n + k]
    {
      if k < n - 1 {
        assert RingIndex(next, k, n) == RingIndex(start, k + 1, n);
        assert ring[RingIndex(start, k + 1, n)] == log[|log| - n + k + 1];
      } else {
        assert RingIndex(next, k, n) == start;
      }
    }
  }

  /** The contents of a ring whose oldest element is at `start`. */
  function Rotated(ring: seq<Event>, start: nat): (r: seq<Event>)
    requires start <= |ring|
    ensures |r| == |ring|
  {
    ring[start..] + ring[..start]
  }

  /** Rotated, the ring is the tail of the log. */
  lemma RotatedIsTail(ring: seq<Event>, start: nat, log: seq<Event>)
    requires HoldsTail(ring, start, log)
    ensures Rotated(ring, start) == log[|log| - |ring|..]
  {
    forall k | 0 <= k < |ring|
      ensures Rotated(ring, start)[k] == log[|log| - |ring| + k]
    {
      assert Rotated(ring, start)[k] == ring[RingIndex(start, k, |ring|)];
    }
  }

  /** Exactly the retained events with a greater number, in order. */
  ghost predicate IsReplay(replay: seq<Event>, retained: seq<Event>, after: int) {
    && (forall e :: e in replay <==> e in retained && e.sequence > after)
    && forall i, j :: 0 <= i < j < |replay| ==> replay[i].sequence < replay[j].sequence
  }

  lemma RingMember(ring: seq<Event>, start: nat, log: seq<Event>, e: Event)
    requires HoldsTail(ring, start, log)
    ensures e in ring <==> e in log[|log| - |ring|..]
  {
    RotatedIsTail(ring, start, log);
    RotatedKeepsEvents(ring, start, e);
  }

  /** Among numbered events those after a number are the rest of the log from there on. */
  lemma TailMember(log: seq<Event>, oldest: nat, after: int, e: Event)
    requires Numbered(log) && oldest <= |log|
    ensures e in log[Min(Max(after, oldest), |log|)..] <==> e in log[oldest..] && e.sequence > after
  {
    var from := Min(Max(after, oldest), |log|);
    if e in log[oldest..] && e.sequence > after {
      var k :| 0 <= k < |log[oldest..]| && log[oldest..][k] == e;
      assert log[oldest + k] == e && log[from..][oldest + k - from] == e;
    }
    if e in log[from..] {
      var k :| 0 <= k < |log[from..]| && log[from..][k] == e;
      assert log[from + k] == e && log[oldest..][from + k - oldest] == e;
    }
  }

  lemma ReplayIsExact(ring: seq<Event>, start: nat, log: seq<Event>, after: int, replay: seq<Event>)
    requires Numbered(log) && HoldsTail(ring, start, log)
    requires replay == log[Min(Max(after, |log| - |ring|), |log|)..]
    ensures IsReplay(replay, ring, after)
  {
    forall e
      ensures e in replay <==> e in ring && e.sequence > after
    {
      RingMember(ring, start, log, e);
      TailMember(log, |log| - |ring|, after, e);
    }
  }

  lemma RotatedKeepsEvents(ring: seq<Event>, start: nat, e: Event)
    requires start <= |ring|
    ensures e in ring <==> e in Rotated(ring, start)
  {
    assert ring == ring[..start] + ring[start..];
  }

  function From(after: int, oldest: nat, position: nat): (from: nat)
    requires oldest <= position
    ensures oldest <= from <= position || from == position
  {
    Min(Max(after, oldest), position)
  }

  /** The events numbered above `after` among those from `oldest` up to a position. */
  function Newer(log: seq<Event>, after: int, oldest: nat, position: nat): seq<Event>
    requires oldest <= position <= |log|
  {
    if position == oldest then []
    else
      var before := Newer(log, after, oldest, position - 1);
      if log[position - 1].sequence > after then before + [log[position - 1]] else before
  }

  lemma {:induction false} NewerIsSuffix(log: seq<Event>, after: int, oldest: nat, position: nat)
    requires Numbered(log) && oldest <= position <= |log|
    ensures Newer(log, after, oldest, position) == log[From(after, oldest, position)..position]
  {
    if position > oldest {
      var last := position - 1;
      NewerIsSuffix(log, after, oldest, last);
      if log[last].sequence > after {
        assert From(after, oldest, position) == From(after, oldest, last);
        SliceSnoc(log, From(after, oldest, last), last);
      }
    }
  }

  lemma SliceSnoc(log: seq<Event>, from: nat, position: nat)
    requires from <= position < |log|
    ensures log[from..position] + [log[position]] == log[from..position + 1]
  {
  }

  /** The elements of `piece` are those of `log` from position `at` on. */
  ghost predicate PieceAt(piece: seq<Event>, log: seq<Event>, at: int) {
    0 <= at && at + |piece| <= |log| && forall k :: 0 <= k < |piece| ==> piece[k] == log[at + k]
  }

  /** A Go channel with a buffer; sending on or closing a closed channel is a panic, hence a precondition. */
  class Channel {
    const capacity: nat
    var queue: seq<Event>
    var closed: bool
    ghost const start: nat
    ghost var taken: nat

    constructor (capacity: nat, ghost start: nat)
      ensures this.capacity == capacity && this.start == start && queue == [] && !closed && taken == 0
    {
      this.capacity, this.start, queue, closed, taken := capacity, start, [], false, 0;
    }

    ghost function View(): Subscriber
      reads this
    {
      Subscriber(start, start + taken + |queue|, taken, capacity, !closed)
    }

    method TrySend(event: Event) returns (sent: bool)
      requires !closed
      modifies this`queue
      ensures sent <==> |old(queue)| < capacity
      ensures queue == old(queue) + if sent then [event] else []
    {
      sent := |queue| < capacity;
      if sent {
        queue := queue + [event];
      }
    }

    method Close()
      requires !closed
      modifies this`closed
      ensures closed
    {
      closed := true;
    }

    /** A receive that finds the channel empty waits, or reports the close; here it returns None. */
    method Receive() returns (event: Option<Event>)
      modifies this`queue, this`taken
      ensures old(queue) == [] ==> event == None && queue == [] && taken == old(taken)
      ensures old(queue) != [] ==> event == Some(old(queue)[0]) && queue == old(queue)[1..] && taken == old(taken) + 1
    {
      if queue == [] {
        return None;
      }
      event, queue, taken := Some(queue[0]), queue[1..], taken + 1;
    }
  }

  datatype ReplaySubscription = ReplaySubscription(truncated: bool, oldestSequence: int)

  class RunStream {
    const eventLimit: nat
    const subscriberBuffer: nat
    var events: seq<Event>
    var eventStart: nat
    var nextSequence: int
    var droppedThrough: int
    var subscribers: set<Channel>
    var done: bool
    ghost var log: seq<Event>
    ghost var issued: seq<Channel>

    ghost function Bounds(): Limits {
      Limits(eventLimit, subscriberBuffer)
    }

    ghost function View(): Stream
      reads this, issued
    {
      Stream(log, seq(|issued|, i requires 0 <= i < |issued| reads this, issued => issued[i].View()), done)
    }

    ghost predicate ValidRing()
      reads this`events, this`eventStart, this`nextSequence, this`droppedThrough, this`log
    {
      && Sensible(Bounds())
      && Numbered(log)
      && |events| == Min(|log|, eventLimit)
      && (eventStart > 0 ==> eventStart < |events| == eventLimit)
      && HoldsTail(events, eventStart, log)
      && nextSequence == |log|
      && droppedThrough == |log| - |events|
    }

    /** The channel holds its piece of the log; while open, the piece ends at `upTo`. */
    ghost predicate ValidChannel(c: Channel, upTo: nat)
      reads this`log, this`subscribers, this`done, c
    {
      && PieceAt(c.queue, log, c.start + c.taken)
      && |c.queue| <= c.capacity
      && (!c.closed ==> c.start + c.taken + |c.queue| == upTo && !done)
      && (c in subscribers <==> !c.closed)
    }

    ghost predicate Distinct()
      reads this`issued
    {
      forall i, j :: 0 <= i < j < |issued| ==> issued[i] != issued[j]
    }

    ghost predicate ValidTable()
      reads this`issued, this`subscribers
    {
      Distinct() && forall c :: c in subscribers ==> c in issued
    }

    ghost predicate Valid()
      reads this, issued
    {
      && ValidRing()
      && ValidTable()
      && (forall c :: c in issued ==> ValidChannel(c, |log|))
    }

    /** newHubWithLimits raises both limits to at least one. */
    constructor (eventLimit: int, subscriberBuffer: int)
      ensures Valid() && View() == EMPTY
      ensures this.eventLimit == Max(eventLimit, 1) && this.subscriberBuffer == Max(subscriberBuffer, 1)
    {
      this.eventLimit := Max(eventLimit, 1);
      this.subscriberBuffer := Max(subscriberBuffer, 1);
      events, eventStart, nextSequence, droppedThrough := [], 0, 0, 0;
      subscribers, done, log, issued := {}, false, [], [];
      new;
      assert |View().subscribers| == 0;
    }

    /** What Publish does to the ring: append while there is room, else overwrite the oldest. */
    method Record(kind: string, data: string) returns (event: Event)
      requires ValidRing()
      modifies this`events, this`eventStart, this`nextSequence, this`droppedThrough, this`log
      ensures ValidRing()
      ensures event == Event(|old(log)| + 1, kind, data) && log == old(log) + [event]
    {
      event := Event(nextSequence + 1, kind, data);
      if |events| < eventLimit {
        Append(event);
      } else {
        Overwrite(event);
      }
    }

    method Append(event: Event)
      requires ValidRing() && event.sequence == |log| + 1 && |events| < eventLimit
      modifies this`events, this`nextSequence, this`log
      ensures ValidRing() && log == old(log) + [event]
    {
      AppendKeepsTail(events, log, event);
      nextSequence := nextSequence + 1;
      events := events + [event];
      log := log + [event];
    }

    method Overwrite(event: Event)
      requires ValidRing() && event.sequence == |log| + 1 && |events| == eventLimit
      modifies this`events, this`eventStart, this`nextSequence, this`droppedThrough, this`log
      ensures ValidRing() && log == old(log) + [event]
    {
      OverwriteKeepsTail(events, eventStart, log, event);
      assert events[RingIndex(eventStart, 0, |events|)] == log[|log| - |events|];
      nextSequence := nextSequence + 1;
      droppedThrough := events[eventStart].sequence;
      events := events[eventStart := event];
      eventStart := (eventStart + 1) % |events|;
      log := log + [event];
    }

    /** With room the channel has the new event at its end and stays open; without, it is closed with what it holds. */
    twostate predicate Served(c: Channel)
      reads this`log, c
    {
      if |old(c.queue)| < c.capacity then
        |log| > 0 && c.queue == old(c.queue) + [log[|log| - 1]] && !c.closed && c.taken == old(c.taken)
      else
        c.queue == old(c.queue) && c.closed && c.taken == old(c.taken)
    }

    twostate lemma OfferServes(c: Channel)
      requires |log| > 0 && old(log) == log[..|log| - 1]
      requires old(ValidChannel(c, |log|)) && ValidChannel(c, |log|) && !old(c.closed)
      requires c.View() == Offer(old(c.View()))
      ensures Served(c)
    {
      if |old(c.queue)| < c.capacity {
        assert c.queue[..|old(c.queue)|] == old(c.queue);
      }
    }

    method OfferTo(c: Channel, event: Event)
      requires |log| > 0 && event == log[|log| - 1]
      requires c in subscribers && ValidChannel(c, |log| - 1)
      modifies this`subscribers, c
      ensures c.View() == Offer(old(c.View())) && ValidChannel(c, |log|)
      ensures subscribers == if c.closed then old(subscribers) - {c} else old(subscribers)
    {
      var sent := c.TrySend(event);
      if !sent {
        subscribers := subscribers - {c};
        c.Close();
      }
    }

    /** The channel was offered the last event of the log. */
    twostate predicate Offered(c: Channel)
      reads this`log, this`subscribers, this`done, c
    {
      c.View() == Offer(old(c.View())) && ValidChannel(c, |log|)
    }

    /** Every subscriber gets the last event of the log or, when its channel is full, is closed and dropped. */
    method Broadcast(event: Event)
      requires ValidRing() && ValidTable() && |log| > 0 && event == log[|log| - 1]
      requires forall c :: c in issued ==> ValidChannel(c, |log| - 1)
      modifies this`subscribers, subscribers
      ensures Valid()
      ensures forall c :: c in issued ==> c.View() == Offer(old(c.View()))
    {
      var remaining := subscribers;
      while remaining != {}
        invariant ValidTable() && remaining <= subscribers <= old(subscribers)
        invariant forall c :: c in issued && c !in remaining ==> Offered(c)
        invariant forall c :: c in remaining ==> unchanged(c) && ValidChannel(c, |log| - 1)
        decreases remaining
      {
        var c :| c in remaining;
        remaining := remaining - {c};
        OfferTo(c, event);
      }
    }

    twostate lemma ViewsAre(f: Subscriber -> Subscriber)
      requires issued == old(issued)
      requires forall c :: c in issued ==> c.View() == f(old(c.View()))
      ensures View().subscribers == MapSubscribers(old(View()).subscribers, f)
    {
    }

    method Publish(kind: string, data: string)
      requires Valid()
      modifies this, subscribers
      ensures Valid()
      ensures View() == Next(old(View()), Bounds(), StreamLog.Publish(kind, data))
      ensures issued == old(issued) && done == old(done)
      ensures log == if done then old(log) else old(log) + [Event(|old(log)| + 1, kind, data)]
      ensures !done ==> forall c :: c in issued && !old(c.closed) ==> Served(c)
      ensures forall c :: c in issued && (done || old(c.closed)) ==> c.View() == old(c.View())
    {
      if done {
        return;
      }
      var event := Record(kind, data);
      assert forall c :: c in issued ==> old(ValidChannel(c, |log|)) && ValidChannel(c, |log| - 1);
      Broadcast(event);
      ViewsAre(Offer);
      forall c | c in issued && !old(c.closed)
        ensures Served(c)
      {
        assert old(ValidChannel(c, |log|));
        OfferServes(c);
      }
    }

    /** Complete: every open channel is closed once and the stream takes no more events. */
    method Complete()
      requires Valid()
      modifies this, subscribers
      ensures Valid()
      ensures View() == Next(old(View()), Bounds(), StreamLog.Complete)
      ensures issued == old(issued) && done && log == old(log)
      ensures forall c :: c in issued ==> c.closed && c.queue == old(c.queue) && c.taken == old(c.taken)
    {
      if done {
        return;
      }
      done := true;
      var remaining := subscribers;
      while remaining != {}
        invariant ValidRing() && log == old(log) && issued == old(issued) && done
        invariant subscribers == old(subscribers) && remaining <= subscribers
        invariant forall c :: c in issued ==> c.queue == old(c.queue) && c.taken == old(c.taken)
        invariant forall c :: c in issued ==> (c.closed <==> c !in remaining)
        decreases remaining
      {
        var c :| c in remaining;
        remaining := remaining - {c};
        c.Close();
      }
      subscribers := {};
      forall c | c in issued
        ensures ValidChannel(c, |log|) && c.View() == StreamLog.Close(old(c.View()))
      {
        assert old(ValidChannel(c, |log|));
      }
      ViewsAre(StreamLog.Close);
    }

    /** The retained event at an offset from the oldest. */
    method Retained(offset: nat) returns (event: Event)
      requires ValidRing() && offset < |events|
      ensures event == log[|log| - |events| + offset]
    {
      ModuloOnce(eventStart, offset, |events|);
      event := events[(eventStart + offset) % |events|];
    }

    /** eventsAfter walks the ring from the oldest event. */
    method EventsAfter(after: int) returns (replay: seq<Event>)
      requires ValidRing()
      ensures replay == log[ReplayStart(Stream(log, [], done), Bounds(), after)..]
    {
      replay := [];
      ghost var oldest := |log| - |events|;
      for offset := 0 to |events|
        invariant replay == Newer(log, after, oldest, oldest + offset)
      {
        var event := Retained(offset);
        if event.sequence > after {
          replay := replay + [event];
        }
      }
      NewerIsSuffix(log, after, oldest, |log|);
    }

    /** A new channel with the replay already in it; there is room for the replay and for more. */
    static method Preloaded(replay: seq<Event>, capacity: nat, ghost start: nat) returns (channel: Channel)
      requires |replay| <= capacity
      ensures fresh(channel)
      ensures channel.queue == replay && channel.View() == Subscriber(start, start + |replay|, 0, capacity, true)
    {
      channel := new Channel(capacity, start);
      for i := 0 to |replay|
        invariant channel.queue == replay[..i] && !channel.closed && channel.taken == 0
      {
        var sent := channel.TrySend(replay[i]);
        assert sent;
      }
    }

    /** The two facts a subscription reports beside its channel. */
    method Describe(after: int) returns (subscription: ReplaySubscription)
      requires ValidRing()
      ensures subscription.truncated <==> after > 0 && after < |log| - |events|
      ensures subscription.oldestSequence == |log| - |events| + 1
    {
      var oldestSequence := nextSequence + 1;
      if |events| > 0 {
        assert events[RingIndex(eventStart, 0, |events|)] == log[|log| - |events|];
        oldestSequence := events[eventStart].sequence;
      }
      subscription := ReplaySubscription(after > 0 && after < droppedThrough, oldestSequence);
    }

    /** SubscribeReplay: the retained events the client lacks, then, unless the run is over, all new ones. */
    method SubscribeReplay(after: int) returns (channel: Channel, subscription: ReplaySubscription)
      requires Valid()
      modifies this`subscribers, this`issued
      ensures Valid() && fresh(channel)
      ensures View() == Next(old(View()), Bounds(), Subscribe(after))
      ensures issued == old(issued) + [channel] && log == old(log) && done == old(done)
      ensures IsReplay(channel.queue, events, after) && channel.closed == done && channel.taken == 0
      ensures channel.capacity == |channel.queue| + subscriberBuffer
      ensures subscription.truncated <==> Truncated(old(View()), Bounds(), after)
      ensures subscription.oldestSequence == OldestSequence(old(View()), Bounds())
    {
      channel := Replayed(after);
      subscription := Describe(after);
      Register(channel);
      OneViewAdded(channel);
    }

    /** The new channel before it is registered: all it will get of the past, and room for more. */
    method Replayed(after: int) returns (channel: Channel)
      requires Valid()
      ensures fresh(channel) && !channel.closed && channel.taken == 0
      ensures IsReplay(channel.queue, events, after) && channel.capacity == |channel.queue| + subscriberBuffer
      ensures channel.View() == NewSubscriber(View(), Bounds(), after).(open := true)
      ensures PieceAt(channel.queue, log, channel.start + channel.taken)
      ensures channel.start + channel.taken + |channel.queue| == |log|
    {
      var replay := EventsAfter(after);
      ghost var start := ReplayStart(View(), Bounds(), after);
      ReplayIsExact(events, eventStart, log, after, replay);
      channel := Preloaded(replay, |replay| + subscriberBuffer, start);
    }

    twostate lemma OneViewAdded(new channel: Channel)
      requires issued == old(issued) + [channel]
      requires forall c :: c in old(issued) ==> unchanged(c)
      ensures View().subscribers == old(View()).subscribers + [channel.View()]
    {
      forall k | 0 <= k < |old(issued)|
        ensures issued[k].View() == old(issued[k].View())
      {
        assert issued[k] in old(issued);
        assert unchanged(issued[k]);
      }
    }

    method Register(channel: Channel)
      requires Valid() && channel !in issued && !channel.closed && |channel.queue| <= channel.capacity
      requires PieceAt(channel.queue, log, channel.start + channel.taken)
      requires channel.start + channel.taken + |channel.queue| == |log|
      modifies this`subscribers, this`issued, channel`closed
      ensures Valid()
      ensures issued == old(issued) + [channel] && channel.closed == done
    {
      if done {
        channel.Close();
      } else {
        subscribers := subscribers + {channel};
      }
      issued := issued + [channel];
      forall c | c in old(issued)
        ensures ValidChannel(c, |log|)
      {
        assert old(ValidChannel(c, |log|));
      }
    }

    /** The goroutine that waits for the subscriber's context to end. */
    method Cancel(channel: Channel, ghost i: nat)
      requires Valid() && i < |issued| && issued[i] == channel
      modifies this`subscribers, channel
      ensures Valid()
      ensures View() == Next(old(View()), Bounds(), StreamLog.Cancel(i))
      ensures issued == old(issued) && log == old(log) && done == old(done)
      ensures channel.closed && channel.queue == old(channel.queue)
      ensures forall c :: c in issued && c != channel ==> unchanged(c)
    {
      assert ValidChannel(channel, |log|);
      if !done && channel in subscribers {
        subscribers := subscribers - {channel};
        channel.Close();
      }
      forall c | c in issued && c != channel
        ensures ValidChannel(c, |log|)
      {
        assert old(ValidChannel(c, |log|));
        assert unchanged(c);
      }
      OneViewChanged(i);
    }

    twostate lemma OneViewChanged(i: nat)
      requires issued == old(issued) && i < |issued|
      requires Distinct()
      requires forall c :: c in old(issued) && c != issued[i] ==> unchanged(c)
      ensures View().subscribers == old(View()).subscribers[i := issued[i].View()]
    {
      forall k | 0 <= k < |issued| && k != i
        ensures issued[k].View() == old(issued[k].View())
      {
        assert issued[k] != issued[i] && issued[k] in old(issued);
        assert unchanged(issued[k]);
      }
    }

    /** The reader of channel `i` receives. */
    method Receive(channel: Channel, ghost i: nat) returns (event: Option<Event>)
      requires Valid() && i < |issued| && issued[i] == channel
      modifies channel
      ensures Valid()
      ensures View() == Next(old(View()), Bounds(), StreamLog.Receive(i))
      ensures event.Some? ==>
        && channel.taken == old(channel.taken) + 1
        && channel.start + channel.taken <= |log| && log[channel.start + old(channel.taken)] == event.value
      ensures issued == old(issued)
    {
      assert ValidChannel(channel, |log|);
      event := channel.Receive();
      OneViewChanged(i);
    }
  }

  /** At every moment the rotated ring is exactly the last events of the log, as many as are retained. */
  lemma RingRefinesLog(s: RunStream)
    requires s.Valid()
    ensures Rotated(s.events, s.eventStart) == s.log[|s.log| - Min(|s.log|, s.eventLimit)..]
    ensures s.droppedThrough == Dropped(s.View(), s.Bounds()) && s.nextSequence == |s.log|
  {
    RotatedIsTail(s.events, s.eventStart, s.log);
  }

  /** The class invariant includes the law of the simple log. */
  lemma ValidIsConsistent(s: RunStream)
    requires s.Valid()
    ensures Consistent(s.View())
  {
    forall i | 0 <= i < |s.issued|
      ensures ConsistentSubscriber(s.View(), s.View().subscribers[i])
    {
      assert s.ValidChannel(s.issued[i], |s.log|);
    }
  }
}
