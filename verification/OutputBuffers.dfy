/** Bounded captures of a byte stream: both must depend on the stream alone, however it was cut into writes. */
module OutputBuffers {
  import opened Utf8
  import opened Wrappers

  const MAX_COMMAND_OUTPUT_BYTES: nat := 256 * 1024
  const MAX_LIVE_OUTPUT_BYTES: nat := 512 * 1024
  const MAX_LIVE_TERMINAL_OUTPUT_BYTES: nat := 512 * 1024
  const HALF: nat := MAX_COMMAND_OUTPUT_BYTES / 2

  function Flatten(chunks: seq<Bytes>): Bytes {
    if chunks == [] then [] else Flatten(chunks[..|chunks| - 1]) + chunks[|chunks| - 1]
  }

  lemma FlattenSnoc(chunks: seq<Bytes>, chunk: Bytes)
    ensures Flatten(chunks + [chunk]) == Flatten(chunks) + chunk
  {
  }

  /** What a capture reports: everything, or a head and a tail with a count of what lies between. */
  datatype Report = Whole(content: Bytes) | Elided(head: Bytes, omitted: int, tail: Bytes)

  /** The report a stream deserves. */
  function ReportOf(stream: Bytes): Report {
    if |stream| <= MAX_COMMAND_OUTPUT_BYTES then Whole(stream)
    else Elided(stream[..HALF], |stream| - 2 * HALF, stream[|stream| - HALF..])
  }

  /** A report repeats a stream that fits, and otherwise its two ends and how much is missing between them. */
  predicate Reports(report: Report, stream: Bytes) {
    match report
    case Whole(content) => content == stream && |stream| <= 2 * HALF
    case Elided(head, omitted, tail) =>
      && |head| == |tail| == HALF && omitted > 0 && |head| + omitted + |tail| == |stream|
      && head == stream[..HALF] && tail == stream[|stream| - HALF..]
  }

  lemma SuffixOfAppend(s: Bytes, data: Bytes, n: nat)
    requires n <= |s| + |data|
    ensures (s + data)[|s| + |data| - n..] == if |data| >= n then data[|data| - n..] else s[|s| - (n - |data|)..] + data
  {
  }

  lemma PrefixOfAppend(s: Bytes, data: Bytes, n: nat)
    requires n <= |s| + |data|
    ensures (s + data)[..n] == if |s| >= n then s[..n] else s + data[..n - |s|]
  {
  }

  lemma SlidTail(s: Bytes, data: Bytes, n: nat)
    requires |data| <= n <= |s|
    ensures s[|s| - n..][|data|..] + data == (s + data)[|s| + |data| - n..]
    ensures data == [] ==> s[|s| - n..] + data == (s + data)[|s| + |data| - n..]
  {
  }

  lemma AppendKeeps(s: Bytes, data: Bytes, n: nat)
    requires n <= |s|
    ensures (s + data)[|s|..] == data && (s + data)[..n] == s[..n]
  {
  }

  lemma StartOfTail(s: Bytes, tail: Bytes, k: nat)
    requires k <= |tail| <= |s| && s[|s| - |tail|..] == tail
    ensures s[..|s| - |tail|] + tail[..k] == s[..|s| - |tail| + k]
  {
    var n := |s| - |tail|;
    forall i | 0 <= i < k
      ensures tail[..k][i] == s[n + i]
    {
      assert tail[i] == s[n..][i];
    }
  }

  class BoundedCommandOutput {
    const observed: bool
    var captured: Bytes
    var head: Option<Bytes>
    var tail: Bytes
    var total: int
    var live: int
    var emitted: seq<Bytes>
    ghost var stream: Bytes

    ghost predicate ValidCapture()
      reads this
    {
      && total == |stream|
      && (head == None ==> captured == stream && |stream| <= MAX_COMMAND_OUTPUT_BYTES)
      && (head.Some? ==>
        && |stream| > MAX_COMMAND_OUTPUT_BYTES
        && head.value == stream[..HALF]
        && tail == stream[|stream| - HALF..])
    }

    ghost predicate Valid()
      reads this
    {
      && ValidCapture()
      && live == (if observed then Min(|stream|, MAX_LIVE_OUTPUT_BYTES) else 0)
      && Flatten(emitted) == stream[..live]
    }

    constructor (observed: bool)
      ensures Valid() && stream == [] && this.observed == observed
    {
      this.observed := observed;
      captured, head, tail, total, live, emitted, stream := [], None, [], 0, 0, [], [];
    }

    method Write(data: Bytes) returns (written: int)
      requires Valid()
      modifies this
      ensures Valid() && stream == old(stream) + data && written == |data|
    {
      written := |data|;
      AppendKeeps(stream, data, live);
      Capture(data);
      Emit(data);
    }

    /** The part of Write that fills `captured`, or `head` and `tail` once the stream outgrows it. */
    method Capture(data: Bytes)
      requires ValidCapture()
      modifies this`captured, this`head, this`tail, this`total, this`stream
      ensures stream == old(stream) + data && ValidCapture()
    {
      total := total + |data|;
      if head == None && |captured| + |data| <= MAX_COMMAND_OUTPUT_BYTES {
        captured := captured + data;
      } else if head == None {
        Elide(data);
      } else {
        SlideTail(data);
        PrefixOfAppend(stream, data, HALF);
      }
      stream := stream + data;
    }

    /** The write with which the stream outgrows the capture. */
    method Elide(data: Bytes)
      requires head == None && captured == stream && |captured| <= MAX_COMMAND_OUTPUT_BYTES < |captured| + |data|
      modifies this`captured, this`head, this`tail
      ensures head == Some((stream + data)[..HALF]) && captured == []
      ensures tail == (stream + data)[|stream| + |data| - HALF..]
    {
      var first := FirstHalf(data);
      var last := LastHalf(data);
      head, tail, captured := Some(first), last, [];
    }

    method FirstHalf(data: Bytes) returns (first: Bytes)
      requires captured == stream && |captured| + |data| >= HALF
      ensures first == (stream + data)[..HALF]
    {
      PrefixOfAppend(stream, data, HALF);
      if |captured| >= HALF {
        return captured[..HALF];
      }
      first := captured + data[..HALF - |captured|];
    }

    method LastHalf(data: Bytes) returns (last: Bytes)
      requires captured == stream && |captured| + |data| >= HALF
      ensures last == (stream + data)[|stream| + |data| - HALF..]
    {
      SuffixOfAppend(stream, data, HALF);
      if |data| >= HALF {
        return data[|data| - HALF..];
      }
      var fromCaptured := HALF - |data|;
      last := captured[|captured| - fromCaptured..] + data;
    }

    method SlideTail(data: Bytes)
      requires |stream| >= HALF && tail == stream[|stream| - HALF..]
      modifies this`tail
      ensures tail == (stream + data)[|stream| + |data| - HALF..]
    {
      if |data| >= HALF {
        SuffixOfAppend(stream, data, HALF);
        tail := data[|data| - HALF..];
      } else {
        var overflow := |tail| + |data| - HALF;
        SlidTail(stream, data, HALF);
        if overflow > 0 {
          tail := tail[overflow..];
        }
        tail := tail + data;
      }
    }

    /** The live feed gets raw bytes until its own cap is reached. */
    method Emit(data: Bytes)
      requires |data| <= |stream| && stream[|stream| - |data|..] == data
      requires live == if observed then Min(|stream| - |data|, MAX_LIVE_OUTPUT_BYTES) else 0
      requires Flatten(emitted) == stream[..live]
      modifies this`live, this`emitted
      ensures live == if observed then Min(|stream|, MAX_LIVE_OUTPUT_BYTES) else 0
      ensures Flatten(emitted) == stream[..live]
    {
      if observed && live < MAX_LIVE_OUTPUT_BYTES {
        var keep := Min(MAX_LIVE_OUTPUT_BYTES - live, |data|);
        if keep > 0 {
          FlattenSnoc(emitted, data[..keep]);
          assert data[..keep] == stream[live..live + keep];
          emitted := emitted + [data[..keep]];
          live := live + keep;
        }
      }
    }

    method Result() returns (report: Report)
      requires Valid()
      ensures report == ReportOf(stream) && Reports(report, stream)
    {
      match head
      case None =>
        report := Whole(captured);
      case Some(first) =>
        report := Elided(first, total - (|first| + |tail|), tail);
    }
  }

  /** Any split of a stream into writes gives the report and the live bytes of the unsplit stream. */
  method CaptureChunks(chunks: seq<Bytes>, observed: bool) returns (report: Report, live: Bytes)
    ensures report == ReportOf(Flatten(chunks)) && Reports(report, Flatten(chunks))
    ensures live == if observed then Flatten(chunks)[..Min(|Flatten(chunks)|, MAX_LIVE_OUTPUT_BYTES)] else []
  {
    var output := new BoundedCommandOutput(observed);
    for i := 0 to |chunks|
      invariant fresh(output) && output.Valid() && output.observed == observed
      invariant output.stream == Flatten(chunks[..i])
    {
      var _ := output.Write(chunks[i]);
      FlattenSnoc(chunks[..i], chunks[i]);
      assert chunks[..i + 1] == chunks[..i] + [chunks[i]];
    }
    assert chunks[..|chunks|] == chunks;
    report := output.Result();
    live := Flatten(output.emitted);
  }

  // ---------------------------------------------------------------- the terminal's tail

  /** The first character start at or after `i`, or the end. */
  function CharacterStart(s: Bytes, i: nat): (k: nat)
    requires i <= |s|
    ensures i <= k <= |s| && (k < |s| ==> RuneStart(s[k]))
    ensures forall j :: i <= j < k ==> !RuneStart(s[j])
    decreases |s| - i
  {
    if i == |s| || RuneStart(s[i]) then i else CharacterStart(s, i + 1)
  }

  /** No more than `width` bytes in a row go without a character start. */
  ghost predicate Dense(s: Bytes, width: nat) {
    forall i :: 0 <= i && i + width < |s| ==> CharacterStart(s, i) <= i + width
  }

  /** Where the retained tail of a stream starts. */
  function TailStart(s: Bytes, limit: nat): nat
  {
    if |s| <= limit then 0
    else if limit == 0 then |s|
    else CharacterStart(s, |s| - limit)
  }

  /** Streams on which the retained tail does not depend on the chunking, whatever the stream's bytes mean. */
  ghost predicate Settled(s: Bytes, limit: nat) {
    limit == 0 || Dense(s, limit)
  }

  lemma {:induction false} StartOfPrefix(s: Bytes, t: Bytes, i: nat)
    requires i <= |s|
    ensures CharacterStart(s, i) < |s| ==> CharacterStart(s + t, i) == CharacterStart(s, i)
    ensures CharacterStart(s + t, i) < |s| ==> CharacterStart(s, i) == CharacterStart(s + t, i)
    decreases |s| - i
  {
    if i < |s| && !RuneStart(s[i]) {
      StartOfPrefix(s, t, i + 1);
    }
  }

  lemma {:induction false} StartIsMonotone(s: Bytes, i: nat, j: nat)
    requires i <= j <= |s| && j <= CharacterStart(s, i)
    ensures CharacterStart(s, j) == CharacterStart(s, i)
    decreases |s| - i
  {
  }

  lemma DensePrefix(s: Bytes, t: Bytes, width: nat)
    requires Dense(s + t, width)
    ensures Dense(s, width)
  {
    forall i | 0 <= i && i + width < |s|
      ensures CharacterStart(s, i) <= i + width
    {
      assert CharacterStart(s + t, i) <= i + width;
      StartOfPrefix(s, t, i);
    }
  }

  /** Well-formed UTF-8 is dense at every limit of three bytes or more. */
  lemma ValidIsDense(s: Bytes, width: nat)
    requires Valid(s) && width >= 3
    ensures Dense(s, width)
  {
    forall i | 0 <= i && i + width < |s|
      ensures CharacterStart(s, i) <= i + width
    {
      StartWithinFour(s, i);
    }
  }

  /** What one write makes of the retained bytes. */
  function Retained(output: Bytes, data: Bytes, limit: nat): Bytes {
    var all := output + data;
    if |all| > limit then all[TailStart(all, limit)..] else all
  }

  /** What a run of the terminal retains after the given writes. */
  function Kept(chunks: seq<Bytes>, limit: nat): Bytes {
    if chunks == [] then [] else Retained(Kept(chunks[..|chunks| - 1], limit), chunks[|chunks| - 1], limit)
  }

  class ClientTerminal {
    const limit: nat
    var output: Bytes
    var truncated: bool
    var liveBytes: int
    var emitted: seq<Bytes>
    ghost var stream: Bytes
    ghost var start: nat

    /** The buffer is a suffix of the stream; on dense streams it is the one TailStart names. */
    ghost predicate Valid()
      reads this
    {
      && ValidTail()
      && liveBytes == Min(|stream|, MAX_LIVE_TERMINAL_OUTPUT_BYTES)
      && Flatten(emitted) == stream[..liveBytes]
    }

    constructor (limit: nat)
      ensures Valid() && stream == [] && output == [] && this.limit == limit
    {
      this.limit := limit;
      output, truncated, liveBytes, emitted, stream, start := [], false, 0, [], [], 0;
    }

    method Write(data: Bytes) returns (written: int)
      requires Valid()
      modifies this
      ensures Valid() && stream == old(stream) + data && written == |data|
      ensures output == Retained(old(output), data, limit)
    {
      written := |data|;
      AppendKeeps(stream, data, liveBytes);
      Retain(data);
      Emit(data);
    }

    ghost predicate ValidTail()
      reads this
    {
      && start <= |stream| && output == stream[start..]
      && |output| <= limit
      && (truncated <==> start > 0)
      && (Settled(stream, limit) ==> start == TailStart(stream, limit))
    }

    method Retain(data: Bytes)
      requires ValidTail()
      modifies this`output, this`truncated, this`stream, this`start
      ensures ValidTail() && stream == old(stream) + data
      ensures output == Retained(old(output), data, limit)
    {
      ghost var before := stream;
      output := output + data;
      stream := stream + data;
      assert output == stream[start..];
      if |output| > limit {
        truncated := true;
        TrimmedTail(stream, start, limit);
        SliceOfSlice(stream, start, TailStart(output, limit));
        start := TailStart(stream, limit);
        output := TrimTerminalOutput(output, limit);
      } else {
        KeptTail(before, data, start, limit);
      }
    }

    method Emit(data: Bytes)
      requires |data| <= |stream| && stream[|stream| - |data|..] == data
      requires liveBytes == Min(|stream| - |data|, MAX_LIVE_TERMINAL_OUTPUT_BYTES)
      requires Flatten(emitted) == stream[..liveBytes]
      modifies this`liveBytes, this`emitted
      ensures liveBytes == Min(|stream|, MAX_LIVE_TERMINAL_OUTPUT_BYTES)
      ensures Flatten(emitted) == stream[..liveBytes]
    {
      var live := data;
      if liveBytes >= MAX_LIVE_TERMINAL_OUTPUT_BYTES {
        live := [];
      } else if |live| > MAX_LIVE_TERMINAL_OUTPUT_BYTES - liveBytes {
        live := live[..MAX_LIVE_TERMINAL_OUTPUT_BYTES - liveBytes];
      }
      liveBytes := liveBytes + |live|;
      if |live| > 0 {
        FlattenSnoc(emitted, live);
        StartOfTail(stream, data, |live|);
        emitted := emitted + [live];
      }
    }
  }

  /** trimTerminalOutput moves the cut forward to a character start. */
  method TrimTerminalOutput(output: Bytes, limit: nat) returns (trimmed: Bytes)
    requires |output| > limit
    ensures trimmed == output[TailStart(output, limit)..]
  {
    if limit == 0 {
      return [];
    }
    var start := |output| - limit;
    while start < |output| && !RuneStart(output[start])
      invariant |output| - limit <= start <= |output|
      invariant CharacterStart(output, start) == CharacterStart(output, |output| - limit)
    {
      start := start + 1;
    }
    trimmed := output[start..];
  }

  lemma SliceOfSlice(s: Bytes, i: nat, j: nat)
    requires i + j <= |s|
    ensures s[i..][j..] == s[i + j..]
  {
  }

  /** Trimming what was kept of a stream is trimming the stream. */
  lemma TrimmedTail(stream: Bytes, kept: nat, limit: nat)
    requires kept <= |stream| && |stream| - kept > limit
    ensures TailStart(stream[kept..], limit) == TailStart(stream, limit) - kept
    ensures TailStart(stream, limit) > 0
  {
  }

  /** A write that overflows nothing moves no cut. */
  lemma KeptTail(before: Bytes, data: Bytes, start: nat, limit: nat)
    requires start <= |before| && |before| + |data| - start <= limit
    requires Settled(before, limit) ==> start == TailStart(before, limit)
    ensures Settled(before + data, limit) ==> start == TailStart(before + data, limit)
  {
    var stream := before + data;
    if limit == 0 {
      assert start == |before| && data == [] && stream == before;
    } else if Dense(stream, limit) {
      DensePrefix(before, data, limit);
      if |stream| > limit && data != [] {
        assert CharacterStart(stream, |before| - limit) <= |before|;
        StartOfPrefix(before, data, |before| - limit);
        StartIsMonotone(stream, |before| - limit, |stream| - limit);
      } else {
        assert data == [] ==> stream == before;
      }
    }
  }

  lemma OneMoreChunk(chunks: seq<Bytes>, i: nat, limit: nat)
    requires i < |chunks|
    ensures Flatten(chunks[..i + 1]) == Flatten(chunks[..i]) + chunks[i]
    ensures Kept(chunks[..i + 1], limit) == Retained(Kept(chunks[..i], limit), chunks[i], limit)
  {
    assert chunks[..i + 1][..i] == chunks[..i];
    FlattenSnoc(chunks[..i], chunks[i]);
    assert chunks[..i + 1] == chunks[..i] + [chunks[i]];
  }

  /** Any split of a settled stream into writes leaves the same tail; truncation is reported exactly. */
  method RetainChunks(chunks: seq<Bytes>, limit: nat) returns (output: Bytes, truncated: bool, live: Bytes)
    ensures output == Kept(chunks, limit)
    ensures |output| <= limit && |output| <= |Flatten(chunks)|
    ensures output == Flatten(chunks)[|Flatten(chunks)| - |output|..]
    ensures truncated <==> |output| < |Flatten(chunks)|
    ensures |Flatten(chunks)| <= limit ==> output == Flatten(chunks)
    ensures Valid(Flatten(chunks)) && 4 <= limit < |Flatten(chunks)| ==> |output| > limit - 4
    ensures Settled(Flatten(chunks), limit) ==> output == Flatten(chunks)[TailStart(Flatten(chunks), limit)..]
    ensures live == Flatten(chunks)[..Min(|Flatten(chunks)|, MAX_LIVE_TERMINAL_OUTPUT_BYTES)]
  {
    var terminal := new ClientTerminal(limit);
    for i := 0 to |chunks|
      invariant fresh(terminal) && terminal.Valid() && terminal.limit == limit
      invariant terminal.stream == Flatten(chunks[..i]) && terminal.output == Kept(chunks[..i], limit)
    {
      OneMoreChunk(chunks, i, limit);
      var _ := terminal.Write(chunks[i]);
    }
    assert chunks[..|chunks|] == chunks;
    output, truncated, live := terminal.output, terminal.truncated, Flatten(terminal.emitted);
    if Valid(Flatten(chunks)) && 4 <= limit < |Flatten(chunks)| {
      LittleIsWasted(Flatten(chunks), limit);
    }
  }

  /** One write to a suffix of the stream leaves a suffix of the longer stream. */
  lemma RetainedIsTail(before: Bytes, data: Bytes, start: nat, limit: nat) returns (next: nat)
    requires start <= |before| && (Settled(before, limit) ==> start == TailStart(before, limit))
    ensures next <= |before + data| && Retained(before[start..], data, limit) == (before + data)[next..]
    ensures |before + data| - next <= limit
    ensures Settled(before + data, limit) ==> next == TailStart(before + data, limit)
  {
    var stream := before + data;
    assert before[start..] + data == stream[start..];
    if |stream| - start > limit {
      TrimmedTail(stream, start, limit);
      SliceOfSlice(stream, start, TailStart(stream[start..], limit));
      next := TailStart(stream, limit);
    } else {
      KeptTail(before, data, start, limit);
      next := start;
    }
  }

  /** A run keeps a suffix of its stream; on a settled stream it is the one `TailStart` names. */
  lemma {:induction false} KeptIsTail(chunks: seq<Bytes>, limit: nat) returns (start: nat)
    ensures start <= |Flatten(chunks)| && Kept(chunks, limit) == Flatten(chunks)[start..]
    ensures |Flatten(chunks)| - start <= limit
    ensures Settled(Flatten(chunks), limit) ==> start == TailStart(Flatten(chunks), limit)
  {
    if chunks == [] {
      start := 0;
    } else {
      start := KeptIsTail(chunks[..|chunks| - 1], limit);
      start := RetainedIsTail(Flatten(chunks[..|chunks| - 1]), chunks[|chunks| - 1], start, limit);
    }
  }

  lemma RunsAgree(a: seq<Bytes>, b: seq<Bytes>, limit: nat)
    requires Flatten(a) == Flatten(b) && Settled(Flatten(a), limit)
    ensures Kept(a, limit) == Kept(b, limit)
  {
    var _ := KeptIsTail(a, limit);
    var _ := KeptIsTail(b, limit);
  }

  lemma OneWrite(chunk: Bytes, limit: nat)
    ensures Kept([chunk], limit) == Retained([], chunk, limit) && Flatten([chunk]) == chunk
  {
    assert [chunk][..0] == [];
    assert [] + chunk == chunk;
  }

  lemma TwoWrites(first: Bytes, second: Bytes, limit: nat)
    ensures Kept([first, second], limit) == Retained(Retained([], first, limit), second, limit)
    ensures Flatten([first, second]) == first + second
  {
    OneWrite(first, limit);
    assert [first, second][..1] == [first];
  }

  /** A single write that holds no character start in its last bytes leaves nothing. */
  lemma NothingRetained(chunk: Bytes, limit: nat)
    requires 0 < limit < |chunk| && forall i :: |chunk| - limit <= i < |chunk| ==> !RuneStart(chunk[i])
    ensures Retained([], chunk, limit) == []
  {
    assert [] + chunk == chunk;
    assert CharacterStart(chunk, |chunk| - limit) == |chunk|;
  }

  lemma ShortWriteIsKept(chunk: Bytes, limit: nat)
    requires |chunk| <= limit
    ensures Retained([], chunk, limit) == chunk
  {
    assert [] + chunk == chunk;
  }

  /** A character of four bytes, written whole and cut before its last byte. */
  lemma CharacterInTwoWrites(head: Bytes, last: Bytes, limit: nat)
    requires limit == 1 || limit == 2
    requires |head| == 3 && |last| == 1 && !RuneStart(head[1]) && !RuneStart(head[2]) && !RuneStart(last[0])
    ensures Kept([head + last], limit) == []
    ensures Kept([head, last], limit) == last
    ensures Flatten([head + last]) == head + last == Flatten([head, last])
  {
    OneWrite(head + last, limit);
    TwoWrites(head, last, limit);
    NothingRetained(head + last, limit);
    NothingRetained(head, limit);
    ShortWriteIsKept(last, limit);
  }

  /** Two runs of the terminal that differ on one character: at one byte and at two the cut can fall inside it. */
  lemma TinyLimitDependsOnChunks(limit: nat) returns (whole: seq<Bytes>, parts: seq<Bytes>)
    requires limit == 1 || limit == 2
    ensures Valid(Flatten(whole)) && Flatten(whole) == Flatten(parts)
    ensures Kept(whole, limit) == [] && |Kept(parts, limit)| == 1
  {
    var head: Bytes, last: Bytes := [0xF0, 0x9F, 0x98], [0x80];
    var smile := head + last;
    assert smile[CharLength(smile)..] == [];
    CharacterInTwoWrites(head, last, limit);
    whole, parts := [smile], [head, last];
  }

  /** All runs over all well-formed text agree on the tail exactly when the limit is neither one byte nor two. */
  lemma TailsAgreeExactly(limit: nat)
    ensures (forall a, b | Valid(Flatten(a)) && Flatten(a) == Flatten(b) :: Kept(a, limit) == Kept(b, limit)) <==>
      limit != 1 && limit != 2
  {
    if limit == 1 || limit == 2 {
      var whole, parts := TinyLimitDependsOnChunks(limit);
      assert Kept(whole, limit) != Kept(parts, limit);
    } else {
      forall a, b | Valid(Flatten(a)) && Flatten(a) == Flatten(b)
        ensures Kept(a, limit) == Kept(b, limit)
      {
        if limit > 0 {
          ValidIsDense(Flatten(a), limit);
        }
        RunsAgree(a, b, limit);
      }
    }
  }

  /** On well-formed text a truncated terminal wastes fewer than four bytes of its limit. */
  lemma LittleIsWasted(s: Bytes, limit: nat)
    requires Valid(s) && 4 <= limit < |s|
    ensures Settled(s, limit)
    ensures limit - 4 < |s| - TailStart(s, limit) <= limit
    ensures TailStart(s, limit) < |s| && RuneStart(s[TailStart(s, limit)])
  {
    ValidIsDense(s, limit);
    StartWithinFour(s, |s| - limit);
  }
}
