/** UTF-8 text as bytes, by the syntax of section 4 of RFC 3629. */
module Utf8 {
  import opened Trees

  predicate Within(s: Bytes, i: nat, lo: int, hi: int) {
    i < |s| && lo <= s[i] <= hi
  }

  predicate IsTail(s: Bytes, i: nat) {
    Within(s, i, 0x80, 0xbf)
  }

  /** The length of the character that `s` starts with; zero if there is none. */
  function CharLength(s: Bytes): (n: nat)
    ensures n <= 4 && n <= |s|
    ensures forall k | 0 < k < n :: IsTail(s, k)
    ensures n > 0 ==> !IsTail(s, 0)
    ensures n == 1 <==> Within(s, 0, 0, 0x7f)
  {
    if Within(s, 0, 0x00, 0x7f) then 1
    else if Within(s, 0, 0xc2, 0xdf) && IsTail(s, 1) then 2
    else if Within(s, 0, 0xe0, 0xef) && IsTail(s, 1) && IsTail(s, 2)
            && (s[0] == 0xe0 ==> s[1] >= 0xa0) && (s[0] == 0xed ==> s[1] <= 0x9f) then 3
    else if Within(s, 0, 0xf0, 0xf4) && IsTail(s, 1) && IsTail(s, 2) && IsTail(s, 3)
            && (s[0] == 0xf0 ==> s[1] >= 0x90) && (s[0] == 0xf4 ==> s[1] <= 0x8f) then 4
    else 0
  }

  predicate Valid(s: Bytes) {
    s == [] || (CharLength(s) > 0 && Valid(s[CharLength(s)..]))
  }

  /** A Unicode scalar value: no surrogate. */
  predicate IsScalar(c: nat) {
    c < 0xd800 || 0xe000 <= c < 0x110000
  }

  /** The encoding of section 3 of RFC 3629. */
  function Encode(c: nat): (s: Bytes)
    requires IsScalar(c)
    ensures 1 <= |s| <= 4
  {
    if c < 0x80 then [c]
    else if c < 0x800 then [0xc0 + c / 0x40, 0x80 + c % 0x40]
    else if c < 0x1_0000 then [0xe0 + c / 0x1000, 0x80 + c / 0x40 % 0x40, 0x80 + c % 0x40]
    else [0xf0 + c / 0x4_0000, 0x80 + c / 0x1000 % 0x40, 0x80 + c / 0x40 % 0x40, 0x80 + c % 0x40]
  }

  /** The second byte of a longer encoding keeps to its range. */
  lemma SecondByte(high: nat)
    ensures 0x20 <= high < 0x400 && !(0x360 <= high < 0x380) ==>
      && 0xe0 <= 0xe0 + high / 0x40 <= 0xef
      && (high / 0x40 == 0 ==> high % 0x40 >= 0x20) && (high / 0x40 == 0xd ==> high % 0x40 <= 0x1f)
    ensures 0x10 <= high < 0x110 ==>
      && 0xf0 <= 0xf0 + high / 0x40 <= 0xf4
      && (high / 0x40 == 0 ==> high % 0x40 >= 0x10) && (high / 0x40 == 4 ==> high % 0x40 <= 0xf)
  {
  }

  /** Every scalar value is a character of valid text. */
  lemma ScalarIsCharacter(c: nat, rest: Bytes)
    requires IsScalar(c)
    ensures CharLength(Encode(c) + rest) == |Encode(c)|
  {
    SecondByte(c / 0x40);
    SecondByte(c / 0x1000);
    assert c / 0x40 / 0x40 == c / 0x1000 && c / 0x1000 / 0x40 == c / 0x4_0000;
  }

  lemma ThreeBytes(b: int, b1: int, b2: int) returns (c: nat)
    requires 0xe0 <= b <= 0xef && 0x80 <= b1 <= 0xbf && 0x80 <= b2 <= 0xbf
    requires (b == 0xe0 ==> b1 >= 0xa0) && (b == 0xed ==> b1 <= 0x9f)
    ensures 0x800 <= c < 0x1_0000 && IsScalar(c)
    ensures 0xe0 + c / 0x1000 == b && 0x80 + c / 0x40 % 0x40 == b1 && 0x80 + c % 0x40 == b2
  {
    var high := (b - 0xe0) * 0x40 + (b1 - 0x80);
    c := high * 0x40 + (b2 - 0x80);
    assert c / 0x40 == high && high / 0x40 == b - 0xe0;
    assert c / 0x1000 == high / 0x40;
  }

  lemma FourBytes(b: int, b1: int, b2: int, b3: int) returns (c: nat)
    requires 0xf0 <= b <= 0xf4 && 0x80 <= b1 <= 0xbf && 0x80 <= b2 <= 0xbf && 0x80 <= b3 <= 0xbf
    requires (b == 0xf0 ==> b1 >= 0x90) && (b == 0xf4 ==> b1 <= 0x8f)
    ensures 0x1_0000 <= c && IsScalar(c)
    ensures 0xf0 + c / 0x4_0000 == b && 0x80 + c / 0x1000 % 0x40 == b1
    ensures 0x80 + c / 0x40 % 0x40 == b2 && 0x80 + c % 0x40 == b3
  {
    var top := (b - 0xf0) * 0x40 + (b1 - 0x80);
    var high := top * 0x40 + (b2 - 0x80);
    c := high * 0x40 + (b3 - 0x80);
    assert c / 0x40 == high && high / 0x40 == top && top / 0x40 == b - 0xf0;
    assert c / 0x1000 == high / 0x40 && c / 0x4_0000 == top / 0x40;
  }

  /** And every character of valid text is a scalar value. */
  lemma CharacterIsScalar(s: Bytes) returns (c: nat)
    requires CharLength(s) > 0
    ensures IsScalar(c) && Encode(c) == s[..CharLength(s)]
  {
    var n := CharLength(s);
    var b: int := s[0];
    if n == 1 {
      c := b;
    } else if n == 2 {
      var b1: int := s[1];
      c := (b - 0xc0) * 0x40 + (b1 - 0x80);
    } else if n == 3 {
      c := ThreeBytes(b, s[1], s[2]);
    } else {
      c := FourBytes(b, s[1], s[2], s[3]);
    }
  }

  /** `is_char_boundary`, for indices within the text. */
  predicate IsBoundary(s: Bytes, i: nat)
    requires i <= |s|
  {
    i == 0 || i == |s| || !IsTail(s, i)
  }

  lemma CharLengthOfPrefix(s: Bytes, i: nat)
    requires CharLength(s) > 0 && CharLength(s) <= i <= |s|
    ensures CharLength(s[..i]) == CharLength(s)
  {
  }

  /** Valid text can be cut at any boundary. */
  lemma {:induction false} CutAtBoundary(s: Bytes, i: nat)
    requires Valid(s) && i <= |s| && IsBoundary(s, i)
    ensures Valid(s[..i]) && Valid(s[i..])
    decreases |s|
  {
    hide CharLength;
    if s == [] || i == 0 {
      assert s[..i] == [] && s[i..] == s;
    } else {
      var n := CharLength(s);
      assert n <= i;
      var rest := s[n..];
      assert i < |s| ==> rest[i - n] == s[i];
      CutAtBoundary(rest, i - n);
      CharLengthOfPrefix(s, i);
      assert s[..i][n..] == rest[..i - n];
      assert s[i..] == rest[i - n..];
    }
  }

  /** Valid texts can be joined. */
  lemma {:induction false} Join(a: Bytes, b: Bytes)
    requires Valid(a) && Valid(b)
    ensures Valid(a + b)
    decreases |a|
  {
    if a == [] {
      assert a + b == b;
    } else {
      var n := CharLength(a);
      assert (a + b)[..|a|] == a;
      Join(a[n..], b);
      CharLengthExtends(a, b);
      assert (a + b)[n..] == a[n..] + b;
    }
  }

  lemma CharLengthExtends(a: Bytes, b: Bytes)
    requires CharLength(a) > 0
    ensures CharLength(a + b) == CharLength(a)
  {
  }

  predicate IsAscii(s: Bytes) {
    forall i | 0 <= i < |s| :: s[i] < 0x80
  }

  lemma {:induction false} AsciiIsValid(s: Bytes)
    requires IsAscii(s)
    ensures Valid(s)
    decreases |s|
  {
    if s != [] {
      AsciiIsValid(s[1..]);
    }
  }

  lemma BoundaryFromRest(s: Bytes, n: nat, a: nat)
    requires n <= |s| && Valid(s[n..]) && a <= |s| - n && IsBoundary(s[n..], a)
    ensures IsBoundary(s, n + a)
  {
    hide CharLength;
    if 0 < |s[n..]| && a == 0 {
      assert s[n..][0] == s[n];
    } else if a < |s| - n {
      assert s[n..][a] == s[n + a];
    }
  }

  /** The character around the byte at `i`. */
  lemma {:induction false} CharacterAt(s: Bytes, i: nat) returns (start: nat, end: nat)
    requires Valid(s) && i < |s|
    ensures start <= i < end <= |s| && end - start <= 4
    ensures IsBoundary(s, start) && IsBoundary(s, end)
    ensures s[i] < 0x80 ==> start == i && end == i + 1
    decreases |s|
  {
    hide CharLength;
    var n := CharLength(s);
    if i < n {
      start, end := 0, n;
      BoundaryFromRest(s, n, 0);
      assert i > 0 ==> IsTail(s, i);
    } else {
      var a, b := CharacterAt(s[n..], i - n);
      start, end := n + a, n + b;
      BoundaryFromRest(s, n, a);
      BoundaryFromRest(s, n, b);
    }
  }

  /** Line ends are single characters, so text can be cut around them. */
  lemma CutAroundAscii(s: Bytes, i: nat)
    requires Valid(s) && i < |s| && s[i] < 0x80
    ensures Valid(s[..i]) && Valid(s[i + 1..])
  {
    var start, end := CharacterAt(s, i);
    CutAtBoundary(s, i);
    CutAtBoundary(s, i + 1);
  }
}
