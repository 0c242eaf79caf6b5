/** UTF-8 byte strings, after the syntax in section 4 of RFC 3629, and cutting one
    without splitting a character. */
module Utf8 {
  type Byte = n: nat | n < 256

  type Bytes = seq<Byte>

  predicate Tail(b: Byte) {
    0x80 <= b <= 0xBF
  }

  predicate TailsAt(s: Bytes, from: nat, to: nat) {
    to <= |s| && forall i :: from <= i < to ==> Tail(s[i])
  }

  /** The length of the character at the front of `s`, or 0 if none is well formed. */
  function FrontLength(s: Bytes): (n: nat)
    ensures n <= |s| && n <= 4
    ensures n > 0 ==> !Tail(s[0]) && TailsAt(s, 1, n)
  {
    if |s| == 0 then 0
    else if s[0] <= 0x7F then 1
    else if 0xC2 <= s[0] <= 0xDF then (if TailsAt(s, 1, 2) then 2 else 0)
    else if 0xE0 <= s[0] <= 0xEF then
      (if TailsAt(s, 1, 3) && (s[0] == 0xE0 ==> s[1] >= 0xA0) && (s[0] == 0xED ==> s[1] <= 0x9F) then 3 else 0)
    else if 0xF0 <= s[0] <= 0xF4 then
      (if TailsAt(s, 1, 4) && (s[0] == 0xF0 ==> s[1] >= 0x90) && (s[0] == 0xF4 ==> s[1] <= 0x8F) then 4 else 0)
    else 0
  }

  predicate Valid(s: Bytes)
    decreases |s|
  {
    s == [] || (FrontLength(s) > 0 && Valid(s[FrontLength(s)..]))
  }

  /** `is_char_boundary`: an end of the string, or the first byte of a character. */
  predicate Boundary(s: Bytes, i: nat) {
    i == 0 || i == |s| || (i < |s| && !Tail(s[i]))
  }

  /** Extending a string does not change its first character. */
  lemma FrontStays(s: Bytes, t: Bytes)
    requires FrontLength(s) > 0
    ensures FrontLength(s + t) == FrontLength(s)
  {
    assert (s + t)[0] == s[0];
    assert forall i :: 0 <= i < |s| ==> (s + t)[i] == s[i];
  }

  lemma {:induction false} ValidConcat(s: Bytes, t: Bytes)
    requires Valid(s) && Valid(t)
    ensures Valid(s + t)
    decreases |s|
  {
    if s == [] {
      assert s + t == t;
    } else {
      var n := FrontLength(s);
      FrontStays(s, t);
      ValidConcat(s[n..], t);
      assert (s + t)[n..] == s[n..] + t;
    }
  }

  /** A prefix that holds the first character whole has the same first character. */
  lemma FrontOfPrefix(s: Bytes, i: nat)
    requires 0 < FrontLength(s) <= i <= |s|
    ensures FrontLength(s[..i]) == FrontLength(s)
  {
    assert s[..i][0] == s[0];
    assert forall k :: 0 <= k < i ==> s[..i][k] == s[k];
  }

  /** A boundary past the first character is a boundary of what follows it. */
  lemma BoundaryOfRest(s: Bytes, i: nat)
    requires 0 < FrontLength(s) && 0 < i <= |s| && Boundary(s, i)
    ensures FrontLength(s) <= i && Boundary(s[FrontLength(s)..], i - FrontLength(s))
  {
    var n := FrontLength(s);
    if i < |s| && n < i {
      assert s[n..][i - n] == s[i];
    }
  }

  lemma CutParts(s: Bytes, n: nat, i: nat)
    requires n <= i <= |s|
    ensures s[..i][n..] == s[n..][..i - n] && s[i..] == s[n..][i - n..]
  {
  }

  /** Cutting a valid string at a boundary leaves two valid strings. */
  lemma {:induction false} CutAtBoundary(s: Bytes, i: nat)
    requires Valid(s) && i <= |s| && Boundary(s, i)
    ensures Valid(s[..i]) && Valid(s[i..])
    decreases |s|
  {
    if i == 0 {
      assert s[..i] == [] && s[i..] == s;
    } else {
      var n := FrontLength(s);
      BoundaryOfRest(s, i);
      CutAtBoundary(s[n..], i - n);
      FrontOfPrefix(s, i);
      CutParts(s, n, i);
    }
  }

  /** From anywhere in a valid string a boundary is at most three bytes back. */
  lemma {:induction false} BoundaryNear(s: Bytes, i: nat) returns (j: nat)
    requires Valid(s) && i <= |s|
    ensures j <= i <= j + 3 && Boundary(s, j)
    decreases |s|
  {
    var n := FrontLength(s);
    if i < n || i == 0 {
      j := 0;
    } else {
      j := BoundaryNear(s[n..], i - n);
      if 0 < j < |s[n..]| {
        assert s[n..][j] == s[n + j];
      } else if j == 0 && n < |s| {
        assert FrontLength(s[n..]) > 0;
        assert s[n..][0] == s[n];
      }
      j := j + n;
    }
  }

  const MAX_SUBSTITUTION: nat := 4096

  /** " […truncated]", whose ellipsis takes three bytes. */
  const MARK: Bytes :=
    [0x20, 0x5B, 0xE2, 0x80, 0xA6, 0x74, 0x72, 0x75, 0x6E, 0x63, 0x61, 0x74, 0x65, 0x64, 0x5D]

  /** The bytes are those characters, all of them ASCII. */
  predicate Says(bytes: Bytes, s: string) {
    |bytes| == |s| && forall i :: 0 <= i < |s| ==> s[i] <= '~' && bytes[i] == s[i] as int
  }

  /** The character that three bytes stand for. */
  function ThreeBytes(a: Byte, b: Byte, c: Byte): int {
    (a - 0xE0) * 0x1000 + (b - 0x80) * 0x40 + (c - 0x80)
  }

  /** The mark is a space, an opening bracket, the ellipsis U+2026, `truncated` and a
      closing bracket. */
  lemma MarkReads()
    ensures |MARK| == 15 && Says(MARK[..2], " [") && Says(MARK[5..], "truncated]")
    ensures ThreeBytes(MARK[2], MARK[3], MARK[4]) == 0x2026
  {
  }

  lemma MarkIsValid()
    ensures Valid(MARK) && |MARK| == 15
  {
    AsciiValid(MARK[5..]);
    var ellipsis := MARK[2..];
    assert ellipsis[3..] == MARK[5..];
    assert FrontLength(ellipsis) == 3;
    assert MARK[1..][1..] == ellipsis;
  }

  lemma {:induction false} AsciiValid(s: Bytes)
    requires forall i :: 0 <= i < |s| ==> s[i] <= 0x7F
    ensures Valid(s)
    decreases |s|
  {
    if s != [] {
      AsciiValid(s[1..]);
    }
  }

  /** The last boundary at or before `i`. */
  function LastBoundary(s: Bytes, i: nat): (j: nat)
    ensures j <= i && Boundary(s, j) && forall k :: j < k <= i ==> !Boundary(s, k)
  {
    if Boundary(s, i) then i else LastBoundary(s, i - 1)
  }

  function Truncated(value: Bytes): Bytes {
    if |value| <= MAX_SUBSTITUTION then value else value[..LastBoundary(value, MAX_SUBSTITUTION)] + MARK
  }

  /** A truncated value is valid UTF-8 of at most 4111 bytes, and at most three bytes
      short of the limit before the mark. */
  lemma TruncatedIsValid(value: Bytes)
    requires Valid(value)
    ensures Valid(Truncated(value)) && |Truncated(value)| <= 4111
    ensures |value| <= 4096 ==> Truncated(value) == value
    ensures |value| > 4096 ==>
              && 4093 <= LastBoundary(value, 4096) <= 4096
              && Truncated(value) == value[..LastBoundary(value, 4096)] + MARK
  {
    if |value| > MAX_SUBSTITUTION {
      var near := BoundaryNear(value, MAX_SUBSTITUTION);
      var end := LastBoundary(value, MAX_SUBSTITUTION);
      CutAtBoundary(value, end);
      MarkIsValid();
      ValidConcat(value[..end], MARK);
    }
  }

  /** Clamp a value: one that fits is unchanged; a longer one is cut at the last
      character boundary up to the limit, found in at most three steps, and marked. */
  method Truncate(value: Bytes) returns (cut: Bytes, steps: nat)
    requires Valid(value)
    ensures cut == Truncated(value) && Valid(cut) && |cut| <= 4111
    ensures steps <= 3
  {
    steps := 0;
    TruncatedIsValid(value);
    if |value| <= MAX_SUBSTITUTION {
      return value, 0;
    }
    var end := MAX_SUBSTITUTION;
    while !Boundary(value, end)
      invariant LastBoundary(value, MAX_SUBSTITUTION) <= end <= MAX_SUBSTITUTION && steps == MAX_SUBSTITUTION - end
      invariant forall k :: end < k <= MAX_SUBSTITUTION ==> !Boundary(value, k)
      decreases end
    {
      end, steps := end - 1, steps + 1;
    }
    cut := value[..end] + MARK;
  }
}
