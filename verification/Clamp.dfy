/** Shaping captured output: line clamping and byte clamping. */
module Clamp {
  import opened Trees
  import opened Utf8
  import opened TextLines

  const MAX_LINES := 200
  const MAX_BYTES := 64 * 1024

  // ----- markers -----

  /** The bytes of ASCII text. */
  function Ascii(s: string): (b: Bytes)
    ensures |b| == |s| && IsAscii(b)
  {
    seq<byte>(|s|, i requires 0 <= i < |s| => if s[i] as int < 0x80 then s[i] as byte else 0x3f)
  }

  function Decimal(n: nat): (s: Bytes)
    ensures IsAscii(s) && forall d | d in s :: 0x30 <= d <= 0x39
  {
    if n < 10 then [0x30 + n] else Decimal(n / 10) + [0x30 + n % 10]
  }

  function Value(s: Bytes): int {
    if s == [] then 0 else Value(s[..|s| - 1]) * 10 + (s[|s| - 1] as int - 0x30)
  }

  /** The count in a marker is the true one. */
  lemma {:induction false} DecimalIsExact(n: nat)
    ensures Value(Decimal(n)) == n
  {
    if n >= 10 {
      DecimalIsExact(n / 10);
      assert Decimal(n)[..|Decimal(n)| - 1] == Decimal(n / 10);
    } else {
      assert Decimal(n)[..0] == [];
    }
  }

  function LinesMarker(omitted: nat): (m: Bytes)
    ensures IsAscii(m)
  {
    Ascii("[... ") + Decimal(omitted) + Ascii(" lines omitted ...]")
  }

  function BytesMarker(omitted: nat): (m: Bytes)
    ensures IsAscii(m)
  {
    Ascii("\n[... ") + Decimal(omitted) + Ascii(" bytes omitted ...]\n")
  }

  /** Between the fixed parts of a marker stand the digits of the number it is for. */
  lemma MarkersSayTheNumber(n: nat)
    ensures exists d: Bytes ::
      && (forall c | c in d :: 0x30 <= c <= 0x39) && Value(d) == n
      && BytesMarker(n) == Ascii("\n[... ") + d + Ascii(" bytes omitted ...]\n")
    ensures exists d: Bytes ::
      && (forall c | c in d :: 0x30 <= c <= 0x39) && Value(d) == n
      && LinesMarker(n) == Ascii("[... ") + d + Ascii(" lines omitted ...]")
  {
    hide Ascii, Value;
    DecimalIsExact(n);
    var d := Decimal(n);
    assert forall c | c in d :: 0x30 <= c <= 0x39;
  }

  // ----- bytes -----

  /** `floor_boundary`: the last boundary at or before `i`. */
  method FloorBoundary(s: Bytes, i: nat) returns (r: nat)
    requires i <= |s|
    ensures r <= i && IsBoundary(s, r)
    ensures forall k | r < k <= i :: !IsBoundary(s, k)
  {
    r := i;
    while r > 0 && !IsBoundary(s, r)
      invariant r <= i
      invariant forall k | r < k <= i :: !IsBoundary(s, k)
    {
      r := r - 1;
    }
  }

  /** `ceil_boundary`: the first boundary at or after `i`. */
  method CeilBoundary(s: Bytes, i: nat) returns (r: nat)
    requires i <= |s|
    ensures i <= r <= |s| && IsBoundary(s, r)
    ensures forall k | i <= k < r :: !IsBoundary(s, k)
  {
    r := i;
    while r < |s| && !IsBoundary(s, r)
      invariant i <= r <= |s|
      invariant forall k | i <= k < r :: !IsBoundary(s, k)
    {
      r := r + 1;
    }
  }

  /** In valid text a boundary is never more than three bytes away on either side. */
  lemma BoundariesAreNear(s: Bytes, i: nat) returns (below: nat, above: nat)
    requires Valid(s) && i <= |s|
    ensures i - 3 <= below <= i && IsBoundary(s, below)
    ensures i <= above <= i + 3 && above <= |s| && IsBoundary(s, above)
  {
    if IsBoundary(s, i) {
      below, above := i, i;
    } else {
      below, above := CharacterAt(s, i);
    }
  }

  /**
   A head and a tail of at most half the limit each, ending and starting at the character
   boundaries nearest to it.
   */
  predicate CutsOut(s: Bytes, head: nat, tail: nat) {
    && head < tail <= |s| && IsBoundary(s, head) && IsBoundary(s, tail)
    && 32765 <= head <= 32768
    && 32765 <= |s| - tail <= 32768
  }

  function Around(s: Bytes, head: nat, tail: nat): Bytes
    requires head <= tail <= |s|
  {
    s[..head] + BytesMarker(tail - head) + s[tail..]
  }

  /** `clamp_bytes`: the marker between head and tail counts exactly what is missing. */
  method ClampBytes(s: Bytes) returns (r: Bytes, head: nat, tail: nat)
    requires Valid(s)
    ensures |s| <= 65536 ==> r == s
    ensures |s| > 65536 ==> CutsOut(s, head, tail) && r == Around(s, head, tail)
  {
    if |s| <= MAX_BYTES {
      return s, 0, 0;
    }
    hide Valid, BytesMarker, IsBoundary;
    head := FloorBoundary(s, MAX_BYTES / 2);
    tail := CeilBoundary(s, |s| - MAX_BYTES / 2);
    ghost var below, _ := BoundariesAreNear(s, MAX_BYTES / 2);
    ghost var _, above := BoundariesAreNear(s, |s| - MAX_BYTES / 2);
    r := s[..head] + BytesMarker(tail - head) + s[tail..];
  }

  /** Clamped text is valid, loses exactly what the marker says, and is within the cap plus the marker. */
  lemma ClampedBytesAreBounded(s: Bytes, head: nat, tail: nat)
    requires Valid(s) && CutsOut(s, head, tail)
    ensures Valid(Around(s, head, tail))
    ensures |Around(s, head, tail)| == |s| - (tail - head) + |BytesMarker(tail - head)|
    ensures |Around(s, head, tail)| <= 65536 + |BytesMarker(tail - head)|
  {
    hide Valid, BytesMarker, IsBoundary;
    CutIsValid(s, head, tail);
  }

  lemma CutIsValid(s: Bytes, head: nat, tail: nat)
    requires Valid(s) && head < tail <= |s| && IsBoundary(s, head) && IsBoundary(s, tail)
    ensures Valid(s[..head] + BytesMarker(tail - head) + s[tail..])
  {
    hide Valid, BytesMarker, Ascii, Decimal, IsBoundary, IsAscii;
    CutAtBoundary(s, head);
    CutAtBoundary(s, tail);
    AsciiIsValid(BytesMarker(tail - head));
    Join(s[..head], BytesMarker(tail - head));
    Join(s[..head] + BytesMarker(tail - head), s[tail..]);
  }

  // ----- lines -----

  const NL: byte := 10
  const CR: byte := 13

  /** Head lines, marker and tail lines. */
  function Clamped(ls: seq<Bytes>): seq<Bytes>
    requires |ls| > MAX_LINES
  {
    ls[..MAX_LINES / 2] + [LinesMarker(|ls| - MAX_LINES)] + ls[|ls| - MAX_LINES / 2..]
  }

  /** `clamp_lines`: beyond the limit, the first and the last hundred lines around a marker. */
  method ClampLines(s: Bytes) returns (r: Bytes)
    ensures r == LineClamped(s)
    ensures
      var ls := Lines(s, NL, CR);
      r == if |ls| <= 200 then s else Unlines(ls[..100] + [LinesMarker(|ls| - 200)] + ls[|ls| - 100..], NL)
  {
    hide Lines, Unlines, LinesMarker;
    var lines := Lines(s, NL, CR);
    if |lines| <= MAX_LINES {
      return s;
    }
    var head := MAX_LINES / 2;
    var tail := MAX_LINES - head;
    var omitted := |lines| - head - tail;
    ghost var all := Clamped(lines);
    r := [];
    NoLines<byte>(NL);
    assert all[..0] == [];
    var i := 0;
    while i < head
      invariant i <= head && r == Unlines(all[..i], NL)
    {
      UnlinesStep(all, NL, i);
      r := r + lines[i] + [NL];
      i := i + 1;
    }
    UnlinesStep(all, NL, head);
    r := r + LinesMarker(omitted) + [NL];
    i := |lines| - tail;
    while i < |lines|
      invariant |lines| - tail <= i <= |lines|
      invariant r == Unlines(all[..head + 1 + (i - (|lines| - tail))], NL)
    {
      UnlinesStep(all, NL, head + 1 + (i - (|lines| - tail)));
      r := r + lines[i] + [NL];
      i := i + 1;
    }
    assert all[..head + 1 + tail] == all;
  }

  /** The clamped text holds exactly the kept lines and the marker, unless a kept line ends in a carriage return. */
  lemma ClampedLinesReadBack(s: Bytes)
    requires |Lines(s, NL, CR)| > MAX_LINES
    ensures
      var kept := Clamped(Lines(s, NL, CR));
      Lines(Unlines(kept, NL), NL, CR) == kept <==> forall i | 0 <= i < |kept| :: !EndsIn(kept[i], CR)
  {
    hide Lines, Unlines;
    var ls := Lines(s, NL, CR);
    LinesAreFree(s, NL, CR);
    MarkerIsOneLine(|ls| - MAX_LINES);
    LinesReadBack(Clamped(ls), NL, CR);
  }

  lemma MarkerIsOneLine(omitted: nat)
    ensures NL !in LinesMarker(omitted)
  {
    var d := Decimal(omitted);
    assert forall c | c in d :: c != NL;
  }

  // ----- both -----

  lemma {:induction false} LinesAreValid(s: Bytes)
    requires Valid(s)
    ensures forall l | l in Lines(s, NL, CR) :: Valid(l)
    decreases |s|
  {
    if s != [] {
      var i := FirstAt(s, NL);
      if i < |s| {
        CutAroundAscii(s, i);
        if EndsIn(s[..i], CR) {
          CutAroundAscii(s[..i], i - 1);
        }
        LinesAreValid(s[i + 1..]);
      }
    }
  }

  lemma {:induction false} UnlinesIsValid(ls: seq<Bytes>)
    requires forall l | l in ls :: Valid(l)
    ensures Valid(Unlines(ls, NL))
  {
    if ls != [] {
      UnlinesIsValid(ls[..|ls| - 1]);
      AsciiIsValid([NL]);
      Join(Unlines(ls[..|ls| - 1], NL), ls[|ls| - 1]);
      Join(Unlines(ls[..|ls| - 1], NL) + ls[|ls| - 1], [NL]);
    }
  }

  function LineClamped(s: Bytes): Bytes {
    if |Lines(s, NL, CR)| <= MAX_LINES then s else Unlines(Clamped(Lines(s, NL, CR)), NL)
  }

  /** `clamp`, after the lossy decoding: valid text in, valid and bounded text out. */
  method ClampText(text: Bytes) returns (r: Bytes, head: nat, tail: nat)
    requires Valid(text)
    ensures Valid(r)
    ensures |LineClamped(text)| <= MAX_BYTES ==> r == LineClamped(text)
    ensures |LineClamped(text)| > MAX_BYTES ==>
      && CutsOut(LineClamped(text), head, tail)
      && r == Around(LineClamped(text), head, tail)
      && |r| <= MAX_BYTES + |BytesMarker(tail - head)|
  {
    hide Valid, Lines, Unlines, BytesMarker, IsBoundary, CutsOut, Around;
    var lined := ClampLines(text);
    if |Lines(text, NL, CR)| > MAX_LINES {
      ClampedIsValid(text);
    }
    r, head, tail := ClampBytes(lined);
    if |lined| > MAX_BYTES {
      ClampedBytesAreBounded(lined, head, tail);
    }
  }

  lemma ClampedIsValid(text: Bytes)
    requires Valid(text) && |Lines(text, NL, CR)| > MAX_LINES
    ensures Valid(Unlines(Clamped(Lines(text, NL, CR)), NL))
  {
    hide Valid, Lines, Unlines, LinesMarker, Ascii, Decimal, IsAscii;
    var ls := Lines(text, NL, CR);
    LinesAreValid(text);
    AsciiIsValid(LinesMarker(|ls| - MAX_LINES));
    forall l | l in Clamped(ls)
      ensures Valid(l)
    {
      assert l in ls || l == LinesMarker(|ls| - MAX_LINES);
    }
    UnlinesIsValid(Clamped(ls));
  }
}
