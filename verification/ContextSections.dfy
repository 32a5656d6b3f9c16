/** Cutting the text of a conversation into pieces that fit a character budget. */
module ContextSections {
  import opened Wrappers
  import opened Utf8

  const NEWLINE: Byte := 0x0A

  /** strings.LastIndexByte */
  function LastIndexByte(s: Bytes, b: Byte): (i: int)
    ensures -1 <= i < |s|
    ensures i >= 0 ==> s[i] == b
    ensures forall k :: i < k < |s| ==> s[k] != b
  {
    if s == [] then -1
    else if s[|s| - 1] == b then |s| - 1
    else LastIndexByte(s[..|s| - 1], b)
  }

  /** The greatest character start at or below k, or 0. */
  function StartBefore(s: Bytes, k: nat): (j: nat)
    requires k < |s|
    ensures j <= k && (j == 0 || RuneStart(s[j]))
    ensures forall i :: j < i <= k ==> !RuneStart(s[i])
  {
    if k == 0 || RuneStart(s[k]) then k else StartBefore(s, k - 1)
  }

  /** Where the first fragment of a section ends. */
  function FragmentEnd(section: Bytes, maxChars: int): (end: nat)
    requires section != [] && maxChars > 0
    ensures 0 < end <= Min(maxChars, |section|)
  {
    var limit := Min(maxChars, |section|);
    var start := if limit < |section| then StartBefore(section, limit) else limit;
    var end := if start == 0 then limit else start;
    var newline := LastIndexByte(section[..end], NEWLINE);
    if newline >= end / 2 then newline + 1 else end
  }

  function Pieces(section: Bytes, maxChars: int): seq<Bytes>
    requires maxChars > 0
    decreases |section|
  {
    if section == [] then []
    else
      var end := FragmentEnd(section, maxChars);
      [section[..end]] + Pieces(section[end..], maxChars)
  }

  /** What splitContextSection returns. */
  function Fragments(section: Bytes, maxChars: int): seq<Bytes> {
    if maxChars <= 0 || |section| <= maxChars then [section] else Pieces(section, maxChars)
  }

  function Flatten(pieces: seq<Bytes>): Bytes {
    if pieces == [] then [] else pieces[0] + Flatten(pieces[1..])
  }

  method SplitContextSection(section: Bytes, maxChars: int) returns (result: seq<Bytes>)
    ensures result == Fragments(section, maxChars)
  {
    if maxChars <= 0 || |section| <= maxChars {
      return [section];
    }
    result := [];
    var rest := section;
    assert result + Pieces(rest, maxChars) == Pieces(section, maxChars);
    while |rest| > 0
      invariant result + Pieces(rest, maxChars) == Pieces(section, maxChars)
      decreases |rest|
    {
      var end := Min(maxChars, |rest|);
      while end > 0 && end < |rest| && !RuneStart(rest[end])
        invariant 0 <= end <= Min(maxChars, |rest|)
        invariant end == |rest| ==> end == Min(maxChars, |rest|)
        invariant end < |rest| ==> Min(maxChars, |rest|) < |rest|
        invariant end < |rest| ==> StartBefore(rest, end) == StartBefore(rest, Min(maxChars, |rest|))
      {
        end := end - 1;
      }
      if end == 0 {
        end := Min(maxChars, |rest|);
      }
      var newline := LastIndexByte(rest[..end], NEWLINE);
      if newline >= end / 2 {
        end := newline + 1;
      }
      assert end == FragmentEnd(rest, maxChars);
      assert result + ([rest[..end]] + Pieces(rest[end..], maxChars)) ==
        (result + [rest[..end]]) + Pieces(rest[end..], maxChars);
      result := result + [rest[..end]];
      rest := rest[end..];
    }
    assert result + [] == result;
  }

  /** What truncateContextFragment returns. */
  function Truncated(fragment: Bytes, maxChars: int): (r: Bytes)
    ensures r <= fragment
    ensures maxChars > 0 ==> |r| <= maxChars
  {
    if maxChars <= 0 || |fragment| <= maxChars then fragment
    else fragment[..StartBefore(fragment, maxChars)]
  }

  method TruncateContextFragment(fragment: Bytes, maxChars: int) returns (r: Bytes)
    ensures r == Truncated(fragment, maxChars)
  {
    if maxChars <= 0 || |fragment| <= maxChars {
      return fragment;
    }
    var end := maxChars;
    while end > 0 && !RuneStart(fragment[end])
      invariant 0 <= end <= maxChars
      invariant StartBefore(fragment, end) == StartBefore(fragment, maxChars)
    {
      end := end - 1;
    }
    return fragment[..end];
  }

  predicate Bounded(pieces: seq<Bytes>, maxChars: int) {
    forall i :: 0 <= i < |pieces| ==> 0 < |pieces[i]| <= maxChars
  }

  lemma {:induction false} PiecesAreBounded(section: Bytes, maxChars: int)
    requires maxChars > 0
    ensures Bounded(Pieces(section, maxChars), maxChars)
    decreases |section|
  {
    if section != [] {
      PiecesAreBounded(section[FragmentEnd(section, maxChars)..], maxChars);
    }
  }

  lemma FlattenCut(section: Bytes, end: nat, rest: seq<Bytes>)
    requires end <= |section| && Flatten(rest) == section[end..]
    ensures Flatten([section[..end]] + rest) == section
  {
  }

  lemma {:induction false} PiecesAreLossless(section: Bytes, maxChars: int)
    requires maxChars > 0
    ensures Flatten(Pieces(section, maxChars)) == section
    decreases |section|
  {
    if section != [] {
      var end := FragmentEnd(section, maxChars);
      PiecesAreLossless(section[end..], maxChars);
      FlattenCut(section, end, Pieces(section[end..], maxChars));
    }
  }

  /** Splitting is lossless. */
  lemma SplitIsLossless(section: Bytes, maxChars: int)
    ensures Flatten(Fragments(section, maxChars)) == section
  {
    if maxChars <= 0 || |section| <= maxChars {
      assert Flatten([section]) == section + Flatten([]);
    } else {
      PiecesAreLossless(section, maxChars);
    }
  }

  /** Every fragment is within the bound, and none is empty. */
  lemma SplitIsBounded(section: Bytes, maxChars: int)
    requires section != [] && maxChars > 0
    ensures Bounded(Fragments(section, maxChars), maxChars)
  {
    PiecesAreBounded(section, maxChars);
  }

  /** With room for any character, a fragment of well-formed text ends where a character ends. */
  lemma FragmentEndsAtStart(section: Bytes, maxChars: int)
    requires Valid(section) && section != [] && maxChars >= 4
    ensures var end := FragmentEnd(section, maxChars); end < |section| ==> RuneStart(section[end])
  {
    var limit := Min(maxChars, |section|);
    if limit < |section| {
      StartWithinFour(section, limit - 3);
      assert StartBefore(section, limit) > 0;
    }
    var start := if limit < |section| then StartBefore(section, limit) else limit;
    var newline := LastIndexByte(section[..start], NEWLINE);
    if newline >= start / 2 && newline + 1 < |section| {
      assert section[newline] == NEWLINE;
      StartAfterAscii(section, newline);
    }
  }

  /** The room of a fragment: as many whole characters as fit. */
  predicate IsRoom(section: Bytes, maxChars: nat, room: nat) {
    && maxChars - 4 < room <= maxChars < |section| && RuneStart(section[room])
    && forall k :: room < k <= maxChars ==> !RuneStart(section[k])
  }

  /** A fragment ends after the last line end in the second half of its room, if there is one, else it takes it all. */
  predicate FillsRoom(section: Bytes, room: nat, end: nat)
    requires room <= |section|
  {
    if exists k :: room / 2 <= k < room && section[k] == NEWLINE then
      && room / 2 < end <= room && section[end - 1] == NEWLINE
      && forall k :: end <= k < room ==> section[k] != NEWLINE
    else end == room
  }

  /** A section that is too long is cut as late as its characters allow, at a line end where one is near. */
  lemma FragmentsAreLong(section: Bytes, maxChars: nat)
    requires Valid(section) && 4 <= maxChars < |section|
    ensures exists room :: IsRoom(section, maxChars, room) && FillsRoom(section, room, FragmentEnd(section, maxChars))
    ensures 2 * FragmentEnd(section, maxChars) > maxChars - 4
  {
    StartWithinFour(section, maxChars - 3);
    var room := StartBefore(section, maxChars);
    assert IsRoom(section, maxChars, room);
    assert forall k :: 0 <= k < room ==> section[..room][k] == section[k];
    assert FillsRoom(section, room, FragmentEnd(section, maxChars));
  }

  lemma {:induction false} PiecesAreWellFormed(section: Bytes, maxChars: int)
    requires Valid(section) && maxChars >= 4
    ensures forall piece :: piece in Pieces(section, maxChars) ==> Valid(piece)
    decreases |section|
  {
    if section != [] {
      var end := FragmentEnd(section, maxChars);
      FragmentEndsAtStart(section, maxChars);
      ValidSplit(section, end);
      PiecesAreWellFormed(section[end..], maxChars);
    }
  }

  /** No character of well-formed text is ever cut in two, by splitting or by truncating. */
  lemma SplitKeepsCharacters(section: Bytes, maxChars: int, fragment: Bytes, available: int)
    requires Valid(section) && (maxChars <= 0 || maxChars >= 4)
    requires fragment in Fragments(section, maxChars)
    ensures Valid(fragment) && Valid(Truncated(fragment, available))
  {
    if maxChars > 0 && |section| > maxChars {
      PiecesAreWellFormed(section, maxChars);
    }
    if 0 < available < |fragment| {
      var end := StartBefore(fragment, available);
      FirstIsStart(fragment);
      ValidSplit(fragment, end);
    }
  }

  /** Below four characters there is a section that is cut inside a character. */
  lemma TinyBudgetCutsCharacters(maxChars: int) returns (section: Bytes)
    requires 1 <= maxChars <= 3
    ensures Valid(section) && |Fragments(section, maxChars)| > 0 && !Valid(Fragments(section, maxChars)[0])
  {
    section := [0xF0, 0x9F, 0x98, 0x80];
    assert CharLength(section) == 4 && section[4..] == [];
    assert StartBefore(section, maxChars) == 0;
    assert FragmentEnd(section, maxChars) == maxChars;
    assert Fragments(section, maxChars)[0] == section[..maxChars];
    assert CharLength(section[..maxChars]) == 0;
  }

  /** Well-formed text splits into well-formed fragments, for every text, exactly with room for any character. */
  lemma CharactersSurviveExactlyFromFour(maxChars: int)
    ensures (forall section: Bytes, f: Bytes | Valid(section) && f in Fragments(section, maxChars) :: Valid(f)) <==>
      maxChars <= 0 || maxChars >= 4
  {
    if maxChars <= 0 || maxChars >= 4 {
      forall section: Bytes, f: Bytes | Valid(section) && f in Fragments(section, maxChars)
        ensures Valid(f)
      {
        SplitKeepsCharacters(section, maxChars, f, 0);
      }
    } else {
      var section := TinyBudgetCutsCharacters(maxChars);
      assert Fragments(section, maxChars)[0] in Fragments(section, maxChars);
    }
  }

  /** Unless nothing but an unfinished character fits, truncation wastes fewer than four characters. */
  lemma TruncationWastesLittle(fragment: Bytes, available: int)
    requires Valid(fragment) && 4 <= available < |fragment|
    ensures |Truncated(fragment, available)| > available - 4
  {
    StartWithinFour(fragment, available - 3);
  }
}
