/** applyTextReplacements: ordered exact replacements, each of which must match exactly once. */
module TextReplacement {
  import opened Filesystem
  import opened Utf8
  import opened Wrappers

  datatype Replacement = Replacement(oldText: Bytes, newText: Bytes)

  datatype EditError = NotFound | Ambiguous | TooLarge | Unchanged

  predicate OccursAt(s: Bytes, t: Bytes, i: nat) {
    i + |t| <= |s| && s[i..i + |t|] == t
  }

  /** strings.Count from position `i`: matches are counted left to right and do not overlap. */
  function CountFrom(s: Bytes, t: Bytes, i: nat): nat
    requires t != []
    decreases |s| - i
  {
    if i + |t| > |s| then 0
    else if OccursAt(s, t, i) then 1 + CountFrom(s, t, i + |t|)
    else CountFrom(s, t, i + 1)
  }

  /** strings.Index from position `i`, or |s| when there is no match. */
  function IndexFrom(s: Bytes, t: Bytes, i: nat): (j: nat)
    requires t != []
    ensures j < |s| ==> i <= j && OccursAt(s, t, j)
    ensures forall k :: i <= k < j ==> !OccursAt(s, t, k)
    ensures j >= |s| ==> forall k :: i <= k ==> !OccursAt(s, t, k)
    decreases |s| - i
  {
    if i + |t| > |s| then Max(i, |s|)
    else if OccursAt(s, t, i) then i
    else IndexFrom(s, t, i + 1)
  }

  function ReplaceFirst(s: Bytes, t: Bytes, replacement: Bytes): Bytes
    requires t != []
  {
    var j := IndexFrom(s, t, 0);
    if j < |s| then s[..j] + replacement + s[j + |t|..] else s
  }

  predicate Usable(edits: seq<Replacement>) {
    forall i :: 0 <= i < |edits| ==> edits[i].oldText != []
  }

  /** The content after all the edits, or the first reason to refuse them. */
  function EditsFrom(s: Bytes, edits: seq<Replacement>): Result<Bytes, EditError>
    requires Usable(edits)
    decreases |edits|
  {
    if edits == [] then Ok(s)
    else
      var count := CountFrom(s, edits[0].oldText, 0);
      if count == 0 then Err(NotFound)
      else if count > 1 then Err(Ambiguous)
      else
        var updated := ReplaceFirst(s, edits[0].oldText, edits[0].newText);
        if |updated| > MAX_EDIT_FILE_BYTES then Err(TooLarge) else EditsFrom(updated, edits[1..])
  }

  function Edited(s: Bytes, edits: seq<Replacement>): Result<Bytes, EditError>
    requires Usable(edits)
  {
    match EditsFrom(s, edits)
    case Err(e) => Err(e)
    case Ok(updated) => if updated == s then Err(Unchanged) else Ok(updated)
  }

  method ApplyTextReplacements(s: Bytes, edits: seq<Replacement>) returns (result: Result<Bytes, EditError>)
    requires Usable(edits)
    ensures result == Edited(s, edits)
  {
    var updated := s;
    for i := 0 to |edits|
      invariant EditsFrom(s, edits) == EditsFrom(updated, edits[i..])
    {
      assert edits[i..][0] == edits[i] && edits[i..][1..] == edits[i + 1..];
      var count := CountFrom(updated, edits[i].oldText, 0);
      if count == 0 {
        return Err(NotFound);
      }
      if count > 1 {
        return Err(Ambiguous);
      }
      updated := ReplaceFirst(updated, edits[i].oldText, edits[i].newText);
      if |updated| > MAX_EDIT_FILE_BYTES {
        return Err(TooLarge);
      }
    }
    if updated == s {
      return Err(Unchanged);
    }
    result := Ok(updated);
  }

  // ---------------------------------------------------------------- what "exactly once" means

  ghost predicate OccursOnce(s: Bytes, t: Bytes) {
    exists j: nat :: OccursOnlyAt(s, t, j)
  }

  ghost predicate OccursOnlyAt(s: Bytes, t: Bytes, j: nat) {
    j <= |s| && OccursAt(s, t, j) && forall k: nat :: k <= |s| && OccursAt(s, t, k) ==> k == j
  }

  lemma {:induction false} CountZero(s: Bytes, t: Bytes, i: nat)
    requires t != []
    ensures CountFrom(s, t, i) == 0 <==> forall k :: i <= k ==> !OccursAt(s, t, k)
    decreases |s| - i
  {
    if i + |t| <= |s| && !OccursAt(s, t, i) {
      CountZero(s, t, i + 1);
    }
  }

  /** An accepted match is the first one, and no match starts at or after its end. */
  lemma {:induction false} CountOne(s: Bytes, t: Bytes, i: nat)
    requires t != []
    ensures CountFrom(s, t, i) == 1 <==>
      var j := IndexFrom(s, t, i); j < |s| && forall k :: j + |t| <= k ==> !OccursAt(s, t, k)
    decreases |s| - i
  {
    if i + |t| > |s| {
    } else if OccursAt(s, t, i) {
      CountZero(s, t, i + |t|);
    } else {
      CountOne(s, t, i + 1);
    }
  }

  /** A proper prefix of `t` of length `b` is also its suffix. */
  predicate Border(t: Bytes, b: nat) {
    0 < b < |t| && t[..b] == t[|t| - b..]
  }

  lemma OverlapIsBorder(s: Bytes, t: Bytes, j: nat, k: nat)
    requires OccursAt(s, t, j) && OccursAt(s, t, k) && j < k < j + |t|
    ensures Border(t, j + |t| - k)
  {
  }

  /** A single occurrence always counts once; the converse needs the text not to overlap itself. */
  lemma OnceCountsOnce(s: Bytes, t: Bytes)
    requires t != []
    ensures OccursOnce(s, t) ==> CountFrom(s, t, 0) == 1
    ensures CountFrom(s, t, 0) == 1 && (forall b :: !Border(t, b)) ==> OccursOnce(s, t)
  {
    CountOne(s, t, 0);
    var j := IndexFrom(s, t, 0);
    if OccursOnce(s, t) {
      var only: nat :| OccursOnlyAt(s, t, only);
      assert j == only;
    }
    if CountFrom(s, t, 0) == 1 && forall b :: !Border(t, b) {
      forall k: nat | k <= |s| && OccursAt(s, t, k)
        ensures k == j
      {
        if j < k < j + |t| {
          OverlapIsBorder(s, t, j, k);
        }
      }
      assert OccursOnlyAt(s, t, j);
    }
  }

  /** "aa" in "aaa" is accepted although it occurs at two places; so it goes for every text with a border. */
  lemma OverlappingTextIsAccepted(t: Bytes, b: nat)
    requires Border(t, b)
    ensures CountFrom(t + t[b..], t, 0) == 1 && !OccursOnce(t + t[b..], t)
  {
    var s := t + t[b..];
    assert s[0..|t|] == t;
    var k := |t| - b;
    assert s[k..k + |t|] == t by {
      assert s[k..|t|] == t[|t| - b..] == t[..b];
      assert s[k..k + |t|] == s[k..|t|] + s[|t|..k + |t|];
      assert s[|t|..k + |t|] == t[b..];
    }
    assert CountFrom(s, t, 0) == 1 + CountFrom(s, t, |t|);
    if OccursOnce(s, t) {
      var only: nat :| OccursOnlyAt(s, t, only);
      assert OccursAt(s, t, 0) && OccursAt(s, t, k);
      assert false;
    }
  }

  lemma BorderEndsBetweenCharacters(t: Bytes, b: nat)
    requires ValidEditText(t) && Border(t, b)
    ensures ValidEditText(t + t[b..])
  {
    var k := |t| - b;
    FirstIsStart(t);
    assert t[..b][0] == t[0] && t[k..][0] == t[k];
    ValidSplit(t, k);
    ValidOfPrefix(t, t[k..], b);
    ValidConcat(t, t[b..]);
  }

  /** A well-formed prefix ends between characters. */
  lemma {:induction false} ValidOfPrefix(t: Bytes, prefix: Bytes, b: nat)
    requires Valid(t) && b <= |t| && prefix == t[..b] && Valid(prefix)
    ensures Valid(t[b..])
    decreases |t|
  {
    if b == 0 {
      assert t[0..] == t;
    } else {
      var n := CharLength(prefix);
      assert CharLength(t) == n;
      assert prefix[n..] == t[n..][..b - n] && t[n..][b - n..] == t[b..];
      ValidOfPrefix(t[n..], prefix[n..], b - n);
    }
  }

  /** Two places of a text that count once overlap, so the content is at least as long as the two together. */
  lemma OverlapNeedsRoom(s: Bytes, t: Bytes) returns (b: nat)
    requires t != [] && CountFrom(s, t, 0) == 1 && !OccursOnce(s, t)
    ensures Border(t, b) && 2 * |t| - b <= |s|
  {
    CountOne(s, t, 0);
    var j := IndexFrom(s, t, 0);
    assert !OccursOnlyAt(s, t, j);
    var k: nat :| k <= |s| && OccursAt(s, t, k) && k != j;
    OverlapIsBorder(s, t, j, k);
    b := j + |t| - k;
  }

  /**
   In text content of at most `limit` bytes the count check guarantees what the tool promises, a single occurrence,
   exactly when no two overlapping occurrences of the text fit in.
   */
  lemma CountCheckIsExact(t: Bytes, limit: nat)
    requires t != [] && ValidEditText(t)
    ensures (forall s: Bytes | |s| <= limit && ValidEditText(s) :: CountFrom(s, t, 0) == 1 ==> OccursOnce(s, t)) <==>
      (forall b :: Border(t, b) ==> 2 * |t| - b > limit)
  {
    if b: nat :| Border(t, b) && 2 * |t| - b <= limit {
      OverlappingTextIsAccepted(t, b);
      BorderEndsBetweenCharacters(t, b);
      var s := t + t[b..];
      assert |s| <= limit && CountFrom(s, t, 0) == 1 && !OccursOnce(s, t);
    } else {
      forall s: Bytes | |s| <= limit && ValidEditText(s) && CountFrom(s, t, 0) == 1
        ensures OccursOnce(s, t)
      {
        if !OccursOnce(s, t) {
          var b := OverlapNeedsRoom(s, t);
          assert false;
        }
      }
    }
  }

  /** A passed edit replaces one occurrence of its old text and keeps what surrounds it. */
  lemma ReplaceKeepsContext(s: Bytes, edit: Replacement)
    requires edit.oldText != [] && CountFrom(s, edit.oldText, 0) == 1
    ensures exists head, tail ::
      && SplitsAround(s, edit.oldText, head, tail)
      && SplitsAround(ReplaceFirst(s, edit.oldText, edit.newText), edit.newText, head, tail)
  {
    CountOne(s, edit.oldText, 0);
    var j := IndexFrom(s, edit.oldText, 0);
    var head, tail := s[..j], s[j + |edit.oldText|..];
    assert s == head + edit.oldText + tail;
    assert SplitsAround(s, edit.oldText, head, tail);
    assert SplitsAround(ReplaceFirst(s, edit.oldText, edit.newText), edit.newText, head, tail);
  }

  /** One edit: it is refused for no place, for two that do not overlap, or for its size, and else put in its place. */
  lemma SingleEdit(s: Bytes, edit: Replacement)
    requires edit.oldText != []
    ensures var result := EditsFrom(s, [edit]);
      && (result == Err(NotFound) <==> forall i: nat :: !OccursAt(s, edit.oldText, i))
      && (result == Err(Ambiguous) <==>
            exists i: nat, j: nat :: i + |edit.oldText| <= j && OccursAt(s, edit.oldText, i) && OccursAt(s, edit.oldText, j))
      && (result.Ok? ==> |result.value| <= MAX_EDIT_FILE_BYTES && exists head, tail ::
            SplitsAround(s, edit.oldText, head, tail) && SplitsAround(result.value, edit.newText, head, tail))
  {
    CountZero(s, edit.oldText, 0);
    CountOne(s, edit.oldText, 0);
    CountMany(s, edit.oldText);
    assert [edit][1..] == [];
    if CountFrom(s, edit.oldText, 0) == 1 {
      ReplaceKeepsContext(s, edit);
    }
  }

  /** More than one match is counted exactly when two places do not overlap. */
  lemma CountMany(s: Bytes, t: Bytes)
    requires t != []
    ensures CountFrom(s, t, 0) > 1 <==>
      exists i: nat, j: nat :: i + |t| <= j && OccursAt(s, t, i) && OccursAt(s, t, j)
  {
    CountZero(s, t, 0);
    CountOne(s, t, 0);
    var first := IndexFrom(s, t, 0);
    if CountFrom(s, t, 0) > 1 {
      var k :| first + |t| <= k && OccursAt(s, t, k);
      assert OccursAt(s, t, first);
    }
    if i: nat, j: nat :| i + |t| <= j && OccursAt(s, t, i) && OccursAt(s, t, j) {
      assert first <= i && first + |t| <= j;
    }
  }

  /** Edits apply one after the other, each to what the one before left. */
  lemma {:induction false} EditsCompose(s: Bytes, a: seq<Replacement>, b: seq<Replacement>)
    requires Usable(a) && Usable(b)
    ensures Usable(a + b) && EditsFrom(s, a + b) ==
      match EditsFrom(s, a) case Err(e) => Err(e) case Ok(updated) => EditsFrom(updated, b)
    decreases |a|
  {
    if a == [] {
      assert a + b == b;
    } else {
      var updated := ReplaceFirst(s, a[0].oldText, a[0].newText);
      EditsCompose(updated, a[1..], b);
      assert (a + b)[0] == a[0] && (a + b)[1..] == a[1..] + b;
    }
  }

  predicate SplitsAround(s: Bytes, middle: Bytes, head: Bytes, tail: Bytes) {
    s == head + middle + tail
  }
}
