/** Byte strings and the UTF-8 grammar of section 3 of RFC 3629. */
module Utf8 {
  type Byte = b: int | 0 <= b < 256
  type Bytes = seq<Byte>

  predicate Continuation(b: Byte) {
    0x80 <= b < 0xC0
  }

  /** Go's utf8.RuneStart. */
  predicate RuneStart(b: Byte) {
    !Continuation(b)
  }

  /** The length of the well-formed character at the head of `s`, or 0 when there is none. */
  function CharLength(s: Bytes): nat
  {
    if |s| >= 1 && s[0] < 0x80 then 1
    else if |s| >= 2 && 0xC2 <= s[0] <= 0xDF && Continuation(s[1]) then 2
    else if |s| >= 3 && 0xE0 <= s[0] <= 0xEF && Continuation(s[1]) && Continuation(s[2])
      && (s[0] == 0xE0 ==> s[1] >= 0xA0) && (s[0] == 0xED ==> s[1] <= 0x9F) then 3
    else if |s| >= 4 && 0xF0 <= s[0] <= 0xF4 && Continuation(s[1]) && Continuation(s[2]) && Continuation(s[3])
      && (s[0] == 0xF0 ==> s[1] >= 0x90) && (s[0] == 0xF4 ==> s[1] <= 0x8F) then 4
    else 0
  }

  predicate Valid(s: Bytes)
    decreases |s|
  {
    s == [] || (CharLength(s) > 0 && Valid(s[CharLength(s)..]))
  }

  /** A character start may be cut at: both halves stay well formed. */
  lemma {:induction false} ValidSplit(s: Bytes, k: nat)
    requires Valid(s) && k <= |s|
    requires k < |s| ==> RuneStart(s[k])
    ensures Valid(s[..k]) && Valid(s[k..])
    decreases |s|
  {
    var n := CharLength(s);
    if k == 0 {
      assert s[0..] == s;
    } else {
      assert k >= n;
      var rest := s[n..];
      ValidSplit(rest, k - n);
      assert rest[k - n..] == s[k..];
      assert s[..k][n..] == rest[..k - n];
      assert CharLength(s[..k]) == n;
    }
  }

  lemma LongerIsSame(a: Bytes, b: Bytes)
    requires CharLength(a) > 0
    ensures CharLength(a + b) == CharLength(a) <= |a|
  {
  }

  lemma {:induction false} ValidConcat(a: Bytes, b: Bytes)
    requires Valid(a) && Valid(b)
    ensures Valid(a + b)
    decreases |a|
  {
    if a == [] {
      assert a + b == b;
    } else {
      var n := CharLength(a);
      LongerIsSame(a, b);
      ValidConcat(a[n..], b);
      assert (a + b)[n..] == a[n..] + b;
    }
  }

  /** Any four consecutive bytes of a well-formed string hold a character start. */
  lemma {:induction false} StartWithinFour(s: Bytes, i: nat)
    requires Valid(s) && i + 4 <= |s|
    ensures RuneStart(s[i]) || RuneStart(s[i + 1]) || RuneStart(s[i + 2]) || RuneStart(s[i + 3])
    decreases |s|
  {
    var n := CharLength(s);
    if i >= n {
      StartWithinFour(s[n..], i - n);
    } else if i > 0 && n < |s| {
      FirstIsStart(s[n..]);
    }
  }

  lemma FirstIsStart(s: Bytes)
    requires Valid(s) && s != []
    ensures RuneStart(s[0])
  {
  }

  /** After an ASCII byte comes a character start or the end. */
  lemma {:induction false} StartAfterAscii(s: Bytes, i: nat)
    requires Valid(s) && i + 1 < |s| && s[i] < 0x80
    ensures RuneStart(s[i + 1])
    decreases |s|
  {
    var n := CharLength(s);
    if i >= n {
      StartAfterAscii(s[n..], i - n);
    } else {
      FirstIsStart(s[n..]);
    }
  }
}
