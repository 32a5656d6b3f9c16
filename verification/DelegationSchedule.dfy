/**
 The schedule of replies over sequential calls of a model that may hold one back, for any way of splitting a
 reply. `ToolBatch` supplies the split and refines `Generate` with its wrapper class.
 */
module DelegationSchedule {
  import opened Wrappers

  /** A reply passed on, one passed on that ends the call, or one of which a part is held back. */
  datatype Piece<R> = Whole(reply: R) | Ending(reply: R) | Halves(now: R, later: R)

  /** How replies split, the function calls they carry, and what a cancelled call yields. */
  datatype Rules<!R, !C> = Rules(split: R -> Piece<R>, calls: R -> multiset<C>, refusal: R)

  /** One call: what the wrapped model would stream and how many replies the caller is willing to take. */
  datatype Request<R> = Request(inner: seq<R>, cancelled: bool, patience: nat)

  /** All that was yielded, read from the wrapped model, and taken by a call that was already cancelled. */
  datatype Scheduler<R> = Scheduler(pending: Option<R>, delivered: seq<R>, consumed: seq<R>, lost: seq<R>)

  /** One call when nothing is pending: what it yields, and what it leaves pending. */
  function Streamed<R, C>(rules: Rules<R, C>, inner: seq<R>, patience: nat): (seq<R>, Option<R>)
    decreases |inner|
  {
    if inner == [] then ([], None)
    else match rules.split(inner[0])
      case Halves(now, later) => ([now], Some(later))
      case Ending(reply) => ([reply], None)
      case Whole(reply) =>
        if patience <= 1 then ([reply], None)
        else
          var (rest, pending) := Streamed(rules, inner[1..], patience - 1);
          ([reply] + rest, pending)
  }

  /** How much of the wrapped model's stream that call reads. */
  function Consumed<R, C>(rules: Rules<R, C>, inner: seq<R>, patience: nat): (n: nat)
    ensures n <= |inner|
    decreases |inner|
  {
    if inner == [] then 0
    else if rules.split(inner[0]).Whole? && patience > 1 then 1 + Consumed(rules, inner[1..], patience - 1)
    else 1
  }

  /** A call reads on until a reply is split or an error, its caller has had enough, or nothing is left. */
  lemma {:induction false} ReadsAsLongAsWanted<R, C>(rules: Rules<R, C>, inner: seq<R>, patience: nat)
    ensures var n := Consumed(rules, inner, patience);
      && (forall i :: 0 <= i < n - 1 ==> rules.split(inner[i]).Whole?)
      && n <= Max(patience, 1)
      && (n == |inner| || n == Max(patience, 1) || (n > 0 && !rules.split(inner[n - 1]).Whole?))
    decreases |inner|
  {
    if inner != [] && rules.split(inner[0]).Whole? && patience > 1 {
      ReadsAsLongAsWanted(rules, inner[1..], patience - 1);
      var n := Consumed(rules, inner[1..], patience - 1);
      forall i | 0 <= i < n
        ensures rules.split(inner[i]).Whole?
      {
        assert i > 0 ==> inner[i] == inner[1..][i - 1];
      }
    }
  }

  function Generate<R, C>(rules: Rules<R, C>, pending: Option<R>, request: Request<R>): (seq<R>, Option<R>) {
    if pending.Some? then ([if request.cancelled then rules.refusal else pending.value], None)
    else Streamed(rules, request.inner, request.patience)
  }

  function Waiting<R>(pending: Option<R>): seq<R> {
    if pending.Some? then [pending.value] else []
  }

  function Read<R, C>(rules: Rules<R, C>, request: Request<R>): seq<R> {
    request.inner[..Consumed(rules, request.inner, request.patience)]
  }

  function Next<R, C>(s: Scheduler<R>, rules: Rules<R, C>, request: Request<R>): Scheduler<R> {
    var (yielded, pending) := Generate(rules, s.pending, request);
    Scheduler(
      pending,
      s.delivered + yielded,
      s.consumed + (if s.pending.Some? then [] else Read(rules, request)),
      s.lost + (if request.cancelled then Waiting(s.pending) else []))
  }

  function Idle<R>(): Scheduler<R> {
    Scheduler(None, [], [], [])
  }

  function Run<R, C>(rules: Rules<R, C>, requests: seq<Request<R>>): Scheduler<R> {
    if requests == [] then Idle()
    else Next(Run(rules, requests[..|requests| - 1]), rules, requests[|requests| - 1])
  }

  function Expand<R>(piece: Piece<R>): seq<R> {
    match piece
    case Whole(reply) => [reply]
    case Ending(reply) => [reply]
    case Halves(now, later) => [now, later]
  }

  /** Every reply in order, a split one as its two halves. */
  function ExpandAll<R, C>(rules: Rules<R, C>, replies: seq<R>): seq<R> {
    if replies == [] then []
    else ExpandAll(rules, replies[..|replies| - 1]) + Expand(rules.split(replies[|replies| - 1]))
  }

  /** How often a call occurs in replies. */
  function Count<R, C(==)>(rules: Rules<R, C>, replies: seq<R>, call: C): nat {
    if replies == [] then 0
    else Count(rules, replies[..|replies| - 1], call) + rules.calls(replies[|replies| - 1])[call]
  }

  lemma {:induction false} ExpandAllConcat<R, C>(rules: Rules<R, C>, a: seq<R>, b: seq<R>)
    ensures ExpandAll(rules, a + b) == ExpandAll(rules, a) + ExpandAll(rules, b)
    decreases |b|
  {
    if b == [] {
      assert a + b == a;
    } else {
      assert (a + b)[..|a + b| - 1] == a + b[..|b| - 1];
      ExpandAllConcat(rules, a, b[..|b| - 1]);
    }
  }

  lemma {:induction false} CountConcat<R, C>(rules: Rules<R, C>, a: seq<R>, b: seq<R>, call: C)
    ensures Count(rules, a + b, call) == Count(rules, a, call) + Count(rules, b, call)
    decreases |b|
  {
    if b == [] {
      assert a + b == a;
    } else {
      assert (a + b)[..|a + b| - 1] == a + b[..|b| - 1];
      CountConcat(rules, a, b[..|b| - 1], call);
    }
  }

  lemma ExpandOne<R, C>(rules: Rules<R, C>, reply: R)
    ensures ExpandAll(rules, [reply]) == Expand(rules.split(reply))
  {
  }

  lemma {:induction false} StreamedIsExpansion<R, C>(rules: Rules<R, C>, inner: seq<R>, patience: nat)
    ensures var (yielded, pending) := Streamed(rules, inner, patience);
      yielded + Waiting(pending) == ExpandAll(rules, inner[..Consumed(rules, inner, patience)])
    decreases |inner|
  {
    if inner != [] {
      ExpandOne(rules, inner[0]);
      if rules.split(inner[0]).Whole? && patience > 1 {
        var n := Consumed(rules, inner[1..], patience - 1);
        StreamedIsExpansion(rules, inner[1..], patience - 1);
        assert inner[..1 + n] == [inner[0]] + inner[1..][..n];
        ExpandAllConcat(rules, [inner[0]], inner[1..][..n]);
      } else {
        assert inner[..1] == [inner[0]];
      }
    }
  }

  lemma {:induction false} WaitsExactlyAfterSplit<R, C>(rules: Rules<R, C>, inner: seq<R>, patience: nat)
    ensures var n := Consumed(rules, inner, patience);
      Streamed(rules, inner, patience).1.Some? <==> n > 0 && rules.split(inner[n - 1]).Halves?
    decreases |inner|
  {
    if inner != [] && rules.split(inner[0]).Whole? && patience > 1 {
      WaitsExactlyAfterSplit(rules, inner[1..], patience - 1);
    }
  }

  /**
   Two calls in a row with nothing waiting before them, of which the first reads up to a reply that splits: whatever
   the second asks for, it gets the part held back, and the two have yielded all replies read.
   */
  lemma HeldPartComesNext<R, C>(s: Scheduler<R>, rules: Rules<R, C>, first: Request<R>, second: Request<R>)
    requires s.pending.None? && !second.cancelled
    requires var read := Read(rules, first); read != [] && rules.split(read[|read| - 1]).Halves?
    ensures var read := Read(rules, first); var t := Next(s, rules, first);
      && t.pending == Some(rules.split(read[|read| - 1]).later)
      && Next(t, rules, second) == t.(pending := None, delivered := t.delivered + [t.pending.value])
      && t.delivered + [t.pending.value] == s.delivered + ExpandAll(rules, read)
  {
    var read := Read(rules, first);
    var (yielded, pending) := Streamed(rules, first.inner, first.patience);
    WaitsExactlyAfterSplit(rules, first.inner, first.patience);
    StreamedIsExpansion(rules, first.inner, first.patience);
    var t := Next(s, rules, first);
    assert t.consumed + [] == t.consumed && t.lost + [] == t.lost;
    assert s.delivered + yielded + [pending.value] == s.delivered + (yielded + [pending.value]);
    EndsWithLast(yielded, pending.value, ExpandAll(rules, read[..|read| - 1]), Expand(rules.split(read[|read| - 1])));
  }

  lemma EndsWithLast<T>(a: seq<T>, x: T, b: seq<T>, c: seq<T>)
    requires a + [x] == b + c && c != []
    ensures x == c[|c| - 1]
  {
    assert (a + [x])[|a|] == x;
  }

  /** No call that was already cancelled is the one to take a waiting batch. */
  predicate KeepsBatches<R, C>(rules: Rules<R, C>, requests: seq<Request<R>>) {
    requests == [] ||
    (KeepsBatches(rules, requests[..|requests| - 1]) &&
     !(requests[|requests| - 1].cancelled && Run(rules, requests[..|requests| - 1]).pending.Some?))
  }

  lemma NextExpands<R, C>(s: Scheduler<R>, rules: Rules<R, C>, request: Request<R>)
    requires !(request.cancelled && s.pending.Some?)
    requires s.delivered + Waiting(s.pending) == ExpandAll(rules, s.consumed)
    ensures var t := Next(s, rules, request); t.delivered + Waiting(t.pending) == ExpandAll(rules, t.consumed)
  {
    if s.pending.None? {
      var read := Read(rules, request);
      var (yielded, pending) := Generate(rules, s.pending, request);
      StreamedIsExpansion(rules, request.inner, request.patience);
      ExpandAllConcat(rules, s.consumed, read);
      assert s.delivered + Waiting(s.pending) == s.delivered;
      assert (s.delivered + yielded) + Waiting(pending) == s.delivered + (yielded + Waiting(pending));
    } else {
      assert s.consumed + [] == s.consumed;
    }
  }

  /** As long as no cancelled call takes a batch, the replies are those read, split and in order, none missing. */
  lemma {:induction false} RepliesArriveInOrder<R, C>(rules: Rules<R, C>, requests: seq<Request<R>>)
    requires KeepsBatches(rules, requests)
    ensures var s := Run(rules, requests); s.delivered + Waiting(s.pending) == ExpandAll(rules, s.consumed)
  {
    if requests != [] {
      var n := |requests| - 1;
      RepliesArriveInOrder(rules, requests[..n]);
      NextExpands(Run(rules, requests[..n]), rules, requests[n]);
    }
  }

  lemma ReadingConserves<R, C>(rules: Rules<R, C>, consumed: seq<R>, request: Request<R>, call: C)
    ensures var (yielded, pending) := Streamed(rules, request.inner, request.patience);
      Count(rules, ExpandAll(rules, consumed + Read(rules, request)), call) ==
        Count(rules, ExpandAll(rules, consumed), call) +
        Count(rules, yielded, call) + Count(rules, Waiting(pending), call)
  {
    var read := Read(rules, request);
    var (yielded, pending) := Streamed(rules, request.inner, request.patience);
    StreamedIsExpansion(rules, request.inner, request.patience);
    ExpandAllConcat(rules, consumed, read);
    CountConcat(rules, ExpandAll(rules, consumed), ExpandAll(rules, read), call);
    CountConcat(rules, yielded, Waiting(pending), call);
  }

  predicate Conserves<R, C(==)>(rules: Rules<R, C>, s: Scheduler<R>, call: C) {
    Count(rules, s.delivered, call) + Count(rules, Waiting(s.pending), call) + Count(rules, s.lost, call) ==
      Count(rules, ExpandAll(rules, s.consumed), call)
  }

  lemma StepConserves<R, C>(rules: Rules<R, C>, s: Scheduler<R>, request: Request<R>, call: C)
    requires rules.calls(rules.refusal) == multiset{}
    requires Conserves(rules, s, call)
    ensures Conserves(rules, Next(s, rules, request), call)
  {
    CountConcat(rules, s.delivered, Generate(rules, s.pending, request).0, call);
    if s.pending.None? {
      assert s.lost + [] == s.lost;
      ReadingConserves(rules, s.consumed, request, call);
    } else {
      assert s.consumed + [] == s.consumed && s.lost + [] == s.lost;
      CountConcat(rules, s.lost, Waiting(s.pending), call);
      assert [rules.refusal][..0] == [];
    }
  }

  /** Every call that was read is yielded once, still waits, or was lost with a batch a cancelled call took. */
  lemma {:induction false} CallsAreConserved<R, C>(rules: Rules<R, C>, requests: seq<Request<R>>, call: C)
    requires rules.calls(rules.refusal) == multiset{}
    ensures Conserves(rules, Run(rules, requests), call)
  {
    if requests != [] {
      var n := |requests| - 1;
      CallsAreConserved(rules, requests[..n], call);
      StepConserves(rules, Run(rules, requests[..n]), requests[n], call);
    }
  }

  predicate FromExpansion<R(==), C>(s: Scheduler<R>, rules: Rules<R, C>, reply: R) {
    reply in s.delivered + Waiting(s.pending) ==> reply == rules.refusal || reply in ExpandAll(rules, s.consumed)
  }

  lemma NextFromExpansion<R, C>(s: Scheduler<R>, rules: Rules<R, C>, request: Request<R>, reply: R)
    requires FromExpansion(s, rules, reply)
    ensures FromExpansion(Next(s, rules, request), rules, reply)
  {
    if s.pending.None? {
      var (yielded, pending) := Generate(rules, s.pending, request);
      StreamedIsExpansion(rules, request.inner, request.patience);
      ExpandAllConcat(rules, s.consumed, Read(rules, request));
      assert (s.delivered + yielded) + Waiting(pending) == s.delivered + (yielded + Waiting(pending));
    } else {
      assert s.consumed + [] == s.consumed;
    }
  }

  /** What was yielded or waits came from the expansion of the replies read, or is the refusal. */
  lemma {:induction false} RepliesComeFromExpansion<R, C>(rules: Rules<R, C>, requests: seq<Request<R>>, reply: R)
    ensures FromExpansion(Run(rules, requests), rules, reply)
  {
    if requests != [] {
      var n := |requests| - 1;
      RepliesComeFromExpansion(rules, requests[..n], reply);
      NextFromExpansion(Run(rules, requests[..n]), rules, requests[n], reply);
    }
  }

  ghost predicate BatchesCarryCalls<R(!new), C>(rules: Rules<R, C>) {
    forall reply :: rules.split(reply).Halves? ==> rules.calls(rules.split(reply).later) != multiset{}
  }

  ghost predicate CarriesCalls<R, C>(rules: Rules<R, C>, replies: seq<R>) {
    forall i :: 0 <= i < |replies| ==> rules.calls(replies[i]) != multiset{}
  }

  /**
   Where every held-back part carries a call, a batch is lost, and calls with it, exactly when a call that was
   already cancelled takes it.
   */
  lemma {:induction false} LostExactlyToCancellation<R(!new), C>(rules: Rules<R, C>, requests: seq<Request<R>>)
    requires BatchesCarryCalls(rules)
    ensures var s := Run(rules, requests);
      CarriesCalls(rules, Waiting(s.pending)) && CarriesCalls(rules, s.lost) && (s.lost == [] <==> KeepsBatches(rules, requests))
  {
    if requests != [] {
      var n := |requests| - 1;
      LostExactlyToCancellation(rules, requests[..n]);
      if Run(rules, requests[..n]).pending.None? {
        StreamedLeavesCalls(rules, requests[n].inner, requests[n].patience);
      }
    }
  }

  /** What the calls leave unread of the streams they open: a split or an error ends a call, and so may its caller. */
  function Unread<R, C>(rules: Rules<R, C>, requests: seq<Request<R>>): seq<R> {
    if requests == [] then []
    else
      var init, last := requests[..|requests| - 1], requests[|requests| - 1];
      Unread(rules, init) +
        if Run(rules, init).pending.Some? then []
        else last.inner[Consumed(rules, last.inner, last.patience)..]
  }

  /** Everything the wrapped model streams, or would stream, to the calls that open a stream. */
  function Offered<R, C>(rules: Rules<R, C>, requests: seq<Request<R>>): seq<R> {
    if requests == [] then []
    else
      var init, last := requests[..|requests| - 1], requests[|requests| - 1];
      Offered(rules, init) + if Run(rules, init).pending.Some? then [] else last.inner
  }

  lemma {:induction false} OfferedIsReadOrUnread<R, C>(rules: Rules<R, C>, requests: seq<Request<R>>, call: C)
    ensures Count(rules, Offered(rules, requests), call) ==
      Count(rules, Run(rules, requests).consumed, call) + Count(rules, Unread(rules, requests), call)
  {
    if requests != [] {
      var init, last := requests[..|requests| - 1], requests[|requests| - 1];
      OfferedIsReadOrUnread(rules, init, call);
      if Run(rules, init).pending.None? {
        var n := Consumed(rules, last.inner, last.patience);
        assert last.inner == last.inner[..n] + last.inner[n..];
        CountConcat(rules, last.inner[..n], last.inner[n..], call);
        CountConcat(rules, Run(rules, init).consumed, last.inner[..n], call);
        CountConcat(rules, Unread(rules, init), last.inner[n..], call);
        CountConcat(rules, Offered(rules, init), last.inner, call);
      } else {
        SameWhenTaking(rules, requests);
      }
    }
  }

  /** A call that takes a waiting batch opens no stream. */
  lemma SameWhenTaking<R, C>(rules: Rules<R, C>, requests: seq<Request<R>>)
    requires requests != [] && Run(rules, requests[..|requests| - 1]).pending.Some?
    ensures var init := requests[..|requests| - 1];
      && Offered(rules, requests) == Offered(rules, init) && Unread(rules, requests) == Unread(rules, init)
      && Run(rules, requests).consumed == Run(rules, init).consumed
  {
    var init := requests[..|requests| - 1];
    assert Run(rules, init).consumed + [] == Run(rules, init).consumed;
    assert Offered(rules, init) + [] == Offered(rules, init) && Unread(rules, init) + [] == Unread(rules, init);
  }

  /** A call that reads one reply, and one that is cancelled before it starts. */
  function ReadThenCancelled<R>(reply: R): seq<Request<R>> {
    [Request([reply], false, 1), Request([], true, 1)]
  }

  /** Between them the part held back is lost. */
  lemma CancelledCallTakesBatch<R, C>(rules: Rules<R, C>, reply: R)
    requires rules.split(reply).Halves?
    ensures Run(rules, ReadThenCancelled(reply)) ==
      Scheduler(None, [rules.split(reply).now, rules.refusal], [reply], [rules.split(reply).later])
  {
    var requests := ReadThenCancelled(reply);
    var first := Scheduler(Some(rules.split(reply).later), [rules.split(reply).now], [reply], []);
    assert requests[..1] == [requests[0]] && [requests[0]][..0] == [];
    assert Run(rules, [requests[0]]) == Next(Idle(), rules, requests[0]) == first;
  }

  lemma {:induction false} StreamedLeavesCalls<R(!new), C>(rules: Rules<R, C>, inner: seq<R>, patience: nat)
    requires BatchesCarryCalls(rules)
    ensures var pending := Streamed(rules, inner, patience).1;
      CarriesCalls(rules, Waiting(pending))
    decreases |inner|
  {
    if inner != [] && rules.split(inner[0]).Whole? && patience > 1 {
      StreamedLeavesCalls(rules, inner[1..], patience - 1);
    }
  }
}
