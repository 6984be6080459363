/**
 Length-prefixed framing of one message stream: a big-endian 32-bit length and that many
 bytes of encoded message. The encoding itself is a parameter.
 */
module Framing {
  import opened Options
  import opened Trees

  const MAX_FRAME_LEN := 0x10_0000
  const MAX_CHUNK_LEN := 0x1_0000
  const TWO_TO_THE_32 := 0x1_0000_0000

  /** A message encoding; `decode` rejects what it does not understand. */
  datatype Codec<!M> = Codec(encode: M -> Bytes, decode: Bytes -> Option<M>)

  ghost predicate Lawful<M(!new)>(c: Codec<M>) {
    forall m: M :: c.decode(c.encode(m)) == Some(m)
  }

  // ----- lengths -----

  function BigEndian(n: nat): (b: Bytes)
    requires n < TWO_TO_THE_32
    ensures |b| == 4
  {
    [n / 0x100_0000, n / 0x1_0000 % 0x100, n / 0x100 % 0x100, n % 0x100]
  }

  function FromBigEndian(b: Bytes): nat
    requires |b| == 4
  {
    var b0: int, b1: int, b2: int, b3: int := b[0], b[1], b[2], b[3];
    ((b0 * 0x100 + b1) * 0x100 + b2) * 0x100 + b3
  }

  lemma BigEndianRoundTrip(n: nat)
    requires n < TWO_TO_THE_32
    ensures FromBigEndian(BigEndian(n)) == n
  {
    var n1 := n / 0x100;
    var n2 := n1 / 0x100;
    assert n / 0x1_0000 == n2 && n / 0x100_0000 == n2 / 0x100;
  }

  // ----- one frame -----

  datatype FrameError = Oversized | Truncated | Malformed

  datatype Frame<+M> = Message(message: M) | End | Broken(error: FrameError)

  /** Bytes that a peer has sent, or will send before it closes, and that are not read yet. */
  class ByteStream {
    var pending: Bytes

    constructor (b: Bytes)
      ensures pending == b
    {
      pending := b;
    }

    /** `read_exact`: all the bytes asked for, or whatever is left before the end. */
    method ReadExact(n: nat) returns (buf: Option<Bytes>)
      modifies this
      ensures buf == if n <= |old(pending)| then Some(old(pending)[..n]) else None
      ensures pending == if n <= |old(pending)| then old(pending)[n..] else []
    {
      if n <= |pending| {
        buf := Some(pending[..n]);
        pending := pending[n..];
      } else {
        buf := None;
        pending := [];
      }
    }

    method WriteAll(b: Bytes)
      modifies this
      ensures pending == old(pending) + b
    {
      pending := pending + b;
    }
  }

  /** What one `read_frame` makes of a stream, and what it leaves unread. */
  function NextFrame<M>(c: Codec<M>, s: Bytes): (Frame<M>, Bytes) {
    if |s| < 4 then (End, [])
    else
      var len := FromBigEndian(s[..4]);
      if len > MAX_FRAME_LEN then (Broken(Oversized), s[4..])
      else if |s| - 4 < len then (Broken(Truncated), [])
      else
        match c.decode(s[4..4 + len])
        case Some(m) => (Message(m), s[4 + len..])
        case None => (Broken(Malformed), s[4 + len..])
  }

  method ReadFrame<M>(c: Codec<M>, s: ByteStream) returns (f: Frame<M>)
    modifies s
    ensures (f, s.pending) == NextFrame(c, old(s.pending))
  {
    var head := s.ReadExact(4);
    if head.None? {
      return End;
    }
    var len := FromBigEndian(head.value);
    if len > MAX_FRAME_LEN {
      return Broken(Oversized);
    }
    var body := s.ReadExact(len);
    if body.None? {
      return Broken(Truncated);
    }
    assert old(s.pending)[4..][..len] == old(s.pending)[4..4 + len];
    assert |old(s.pending)| >= 4 + len ==> old(s.pending)[4..][len..] == old(s.pending)[4 + len..];
    var m := c.decode(body.value);
    f := if m.Some? then Message(m.value) else Broken(Malformed);
  }

  predicate Fits<M>(c: Codec<M>, m: M) {
    |c.encode(m)| <= MAX_FRAME_LEN
  }

  function FrameBytes<M>(c: Codec<M>, m: M): Bytes
    requires Fits(c, m)
  {
    BigEndian(|c.encode(m)|) + c.encode(m)
  }

  /** The guest's `write_frame`: a message that does not fit leaves the stream untouched. */
  method WriteFrame<M>(c: Codec<M>, s: ByteStream, m: M) returns (ok: bool)
    modifies s
    ensures ok == Fits(c, m)
    ensures s.pending == if Fits(c, m) then old(s.pending) + FrameBytes(c, m) else old(s.pending)
  {
    var body := c.encode(m);
    if |body| > MAX_FRAME_LEN {
      return false;
    }
    s.WriteAll(BigEndian(|body|));
    s.WriteAll(body);
    assert old(s.pending) + BigEndian(|body|) + body == old(s.pending) + (BigEndian(|body|) + body);
    return true;
  }

  /** A written frame reads back as its message, and only its own bytes are consumed. */
  lemma FrameRoundTrip<M(!new)>(c: Codec<M>, m: M, rest: Bytes)
    requires Lawful(c) && Fits(c, m)
    ensures NextFrame(c, FrameBytes(c, m) + rest) == (Message(m), rest)
  {
    hide BigEndian, FromBigEndian;
    var s, len := FrameBytes(c, m) + rest, |c.encode(m)|;
    BigEndianRoundTrip(len);
    assert s[..4] == BigEndian(len);
    assert s[4..4 + len] == c.encode(m);
    assert s[4 + len..] == rest;
  }

  // ----- a whole stream -----

  /** Reading until the first frame that is not a message. */
  function ReadAll<M>(c: Codec<M>, s: Bytes): (seq<M>, Frame<M>)
    decreases |s|
  {
    var (f, rest) := NextFrame(c, s);
    if f.Message? then
      var (ms, last) := ReadAll(c, rest);
      ([f.message] + ms, last)
    else ([], f)
  }

  ghost predicate AllFit<M>(c: Codec<M>, ms: seq<M>) {
    forall m | m in ms :: Fits(c, m)
  }

  function Wire<M>(c: Codec<M>, ms: seq<M>): Bytes
    requires AllFit(c, ms)
  {
    if ms == [] then [] else FrameBytes(c, ms[0]) + Wire(c, ms[1..])
  }

  /** How many frames lie wholly within the first `k` bytes. */
  function WholeFrames<M>(c: Codec<M>, ms: seq<M>, k: nat): (j: nat)
    requires AllFit(c, ms)
    ensures j <= |ms|
    decreases ms
  {
    if ms == [] || k < |FrameBytes(c, ms[0])| then 0
    else 1 + WholeFrames(c, ms[1..], k - |FrameBytes(c, ms[0])|)
  }

  /**
   A stream cut after `k` bytes yields exactly its whole frames; then the end if at most
   three stray bytes remain, and an error otherwise.
   */
  lemma {:induction false} CutStream<M(!new)>(c: Codec<M>, ms: seq<M>, k: nat)
    requires Lawful(c) && AllFit(c, ms) && k <= |Wire(c, ms)|
    ensures
      var j := WholeFrames(c, ms, k);
      && |Wire(c, ms[..j])| <= k
      && ReadAll(c, Wire(c, ms)[..k]) ==
           (ms[..j], if k - |Wire(c, ms[..j])| < 4 then End else Broken(Truncated))
    decreases ms
  {
    hide BigEndian, FromBigEndian, NextFrame;
    var j := WholeFrames(c, ms, k);
    var s := Wire(c, ms)[..k];
    if ms == [] {
      EmptyStream(c);
    } else if k < |FrameBytes(c, ms[0])| {
      PartialFrame(c, ms[0], k);
      assert s == FrameBytes(c, ms[0])[..k];
    } else {
      var first := FrameBytes(c, ms[0]);
      var rest := Wire(c, ms[1..])[..k - |first|];
      assert s == first + rest;
      FrameRoundTrip(c, ms[0], rest);
      CutStream(c, ms[1..], k - |first|);
      assert ms[..j] == [ms[0]] + ms[1..][..j - 1];
      assert ms[..j][1..] == ms[1..][..j - 1];
    }
  }

  lemma EmptyStream<M>(c: Codec<M>)
    ensures NextFrame(c, []) == (End, [])
  {
  }

  /** A proper prefix of one frame is the end or a truncation. */
  lemma PartialFrame<M>(c: Codec<M>, m: M, k: nat)
    requires Fits(c, m) && k < |FrameBytes(c, m)|
    ensures NextFrame(c, FrameBytes(c, m)[..k]).0 == if k < 4 then End else Broken(Truncated)
  {
    hide BigEndian, FromBigEndian;
    if k >= 4 {
      BigEndianRoundTrip(|c.encode(m)|);
      assert FrameBytes(c, m)[..k][..4] == BigEndian(|c.encode(m)|);
    }
  }

  /** The uncut stream yields all its messages and then the end. */
  lemma WholeStream<M(!new)>(c: Codec<M>, ms: seq<M>)
    requires Lawful(c) && AllFit(c, ms)
    ensures ReadAll(c, Wire(c, ms)) == (ms, End)
  {
    AllFramesAreWhole(c, ms);
    CutStream(c, ms, |Wire(c, ms)|);
    assert Wire(c, ms)[..|Wire(c, ms)|] == Wire(c, ms) && ms[..|ms|] == ms;
  }

  lemma {:induction false} AllFramesAreWhole<M>(c: Codec<M>, ms: seq<M>)
    requires AllFit(c, ms)
    ensures WholeFrames(c, ms, |Wire(c, ms)|) == |ms|
    decreases ms
  {
    if ms != [] {
      AllFramesAreWhole(c, ms[1..]);
    }
  }

  // ----- the host's writer -----

  /** The host's `write_frame` does not check the limit: it truncates the length to 32 bits. */
  function HostFrameBytes<M>(c: Codec<M>, m: M): Bytes {
    BigEndian(|c.encode(m)| % TWO_TO_THE_32) + c.encode(m)
  }

  function HostLength<M>(c: Codec<M>, m: M): nat {
    |c.encode(m)| % TWO_TO_THE_32
  }

  lemma HostFrameHead<M>(c: Codec<M>, m: M, rest: Bytes)
    ensures
      var s, len := HostFrameBytes(c, m) + rest, HostLength(c, m);
      |s| == 4 + |c.encode(m)| + |rest| && FromBigEndian(s[..4]) == len && s[4..] == c.encode(m) + rest
  {
    hide BigEndian, FromBigEndian;
    BigEndianRoundTrip(HostLength(c, m));
    assert (HostFrameBytes(c, m) + rest)[..4] == BigEndian(HostLength(c, m));
    assert (HostFrameBytes(c, m) + rest)[4..] == c.encode(m) + rest;
  }

  /**
   A host message reaches the guest exactly when it is within the frame limit. One that is
   not is rejected as oversized exactly when its length, truncated to 32 bits, still is
   over the limit.
   */
  lemma HostFrameIsReadIffItFits<M(!new)>(c: Codec<M>, m: M, rest: Bytes)
    requires Lawful(c)
    ensures NextFrame(c, HostFrameBytes(c, m) + rest) == (Message(m), rest) <==> Fits(c, m)
    ensures Fits(c, m) <==> |c.encode(m)| <= 1024 * 1024
    ensures !Fits(c, m) ==>
      (NextFrame(c, HostFrameBytes(c, m) + rest).0 == Broken(Oversized) <==> HostLength(c, m) > MAX_FRAME_LEN)
  {
    hide FromBigEndian, BigEndian;
    HostFrameHead(c, m, rest);
    if Fits(c, m) {
      assert HostLength(c, m) == |c.encode(m)|;
      FrameRoundTrip(c, m, rest);
    } else if HostLength(c, m) <= MAX_FRAME_LEN {
      TruncatedLengthIsMisread(c, m, rest);
    }
  }

  /** Otherwise the guest takes a first part of the body for the whole, and the rest of it for frames. */
  lemma TruncatedLengthIsMisread<M>(c: Codec<M>, m: M, rest: Bytes)
    requires !Fits(c, m) && HostLength(c, m) <= MAX_FRAME_LEN
    ensures
      var body, len := c.encode(m), HostLength(c, m);
      var (f, left) := NextFrame(c, HostFrameBytes(c, m) + rest);
      && len + TWO_TO_THE_32 <= |body|
      && left == body[len..] + rest && left != rest
      && f == match c.decode(body[..len]) case Some(other) => Message(other) case None => Broken(Malformed)
  {
    hide FromBigEndian, BigEndian, HostFrameBytes;
    var s, body, len := HostFrameBytes(c, m) + rest, c.encode(m), HostLength(c, m);
    HostFrameHead(c, m, rest);
    assert s[4..4 + len] == s[4..][..len] == body[..len];
    assert s[4 + len..] == s[4..][len..] == body[len..] + rest;
  }

  /** For byte strings sent as they are, a body of 4 GiB arrives as the empty message. */
  lemma HugeBodyIsMisread(rest: Bytes) returns (c: Codec<Bytes>, m: Bytes)
    ensures Lawful(c) && m != []
    ensures NextFrame(c, HostFrameBytes(c, m) + rest) == (Message([]), m + rest)
  {
    c := Codec((b: Bytes) => b, (b: Bytes) => Some(b));
    m := seq<byte>(TWO_TO_THE_32, _ => 0);
    TruncatedLengthIsMisread(c, m, rest);
    assert m[..0] == [] && m[0..] == m;
  }
}
