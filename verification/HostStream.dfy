/** The host's side of an exec connection: a reader task that turns frames into events. */
module HostStream {
  import opened Options
  import opened Trees
  import opened Framing
  import opened ExecProtocol
  import opened ExecSafety

  datatype ExecEvent =
    | BeganEvent(pid: int)
    | StdoutEvent(data: Bytes)
    | StderrEvent(data: Bytes)
    | ExitedEvent(code: Option<int>, signal: Option<int>)
    | FailedEvent(kind: string)

  function EventFor(m: GuestMessage): ExecEvent {
    match m
    case Started(pid) => BeganEvent(pid)
    case Stdout(data) => StdoutEvent(data)
    case Stderr(data) => StderrEvent(data)
    case Exit(code, signal) => ExitedEvent(code, signal)
    case Error(kind) => FailedEvent(kind)
  }

  /** The texts of the three error kinds. */
  lemma KindsAreThese()
    ensures PROTOCOL == "protocol" && TIMEOUT == "timeout" && SPAWN_FAILED == "spawn-failed"
  {
  }

  /** The frame that an event stands for. */
  function FrameOf(e: ExecEvent): GuestMessage {
    match e
    case BeganEvent(pid) => Started(pid)
    case StdoutEvent(data) => Stdout(data)
    case StderrEvent(data) => Stderr(data)
    case ExitedEvent(code, signal) => Exit(code, signal)
    case FailedEvent(kind) => Error(kind)
  }

  /** Frames and events carry the same: pids, bytes, statuses and error kinds arrive unchanged. */
  lemma EventsAreFrames(m: GuestMessage, e: ExecEvent)
    ensures FrameOf(EventFor(m)) == m && EventFor(FrameOf(e)) == e
    ensures EventFor(m) == e <==> m == FrameOf(e)
  {
  }

  /** The events for the frames up to the first terminal one; without one, a protocol failure. */
  function EventsOf(ms: seq<GuestMessage>): seq<ExecEvent> {
    if ms == [] then [FailedEvent(PROTOCOL)]
    else if IsTerminal(ms[0]) then [EventFor(ms[0])]
    else [EventFor(ms[0])] + EventsOf(ms[1..])
  }

  predicate EndsTheStream(e: ExecEvent) {
    e.ExitedEvent? || e.FailedEvent?
  }

  /** Any number of events that do not end the stream, and then one that does. */
  predicate OneTerminalEvent(es: seq<ExecEvent>) {
    && es != [] && EndsTheStream(es[|es| - 1])
    && forall i | 0 <= i < |es| - 1 :: !EndsTheStream(es[i])
  }

  /** Whatever bytes the guest sends, an undropped handle sees exactly one terminal event, last. */
  method ReadEvents(c: Codec<GuestMessage>, s: ByteStream) returns (events: seq<ExecEvent>)
    modifies s
    ensures OneTerminalEvent(events)
    ensures events == EventsOf(ReadAll(c, old(s.pending)).0)
  {
    hide EventsOf, ReadAll, NextFrame, EventFor;
    events := [];
    while true
      invariant forall i | 0 <= i < |events| :: !EndsTheStream(events[i])
      invariant events + EventsOf(ReadAll(c, s.pending).0) == EventsOf(ReadAll(c, old(s.pending)).0)
      decreases |s.pending|
    {
      ghost var before, unread := events, s.pending;
      var f := ReadFrame(c, s);
      match f {
        case Message(m) =>
          events := events + [EventFor(m)];
          MessageStep(c, unread);
          TerminalsEnd(m);
          if IsTerminal(m) {
            return;
          }
          assert before + ([EventFor(m)] + EventsOf(ReadAll(c, s.pending).0))
                 == events + EventsOf(ReadAll(c, s.pending).0);
        case End =>
          LastStep(c, unread);
          events := events + [FailedEvent(PROTOCOL)];
          return;
        case Broken(_) =>
          LastStep(c, unread);
          events := events + [FailedEvent(PROTOCOL)];
          return;
      }
    }
  }

  lemma MessageStep(c: Codec<GuestMessage>, s: Bytes)
    requires NextFrame(c, s).0.Message?
    ensures
      var (f, rest) := NextFrame(c, s);
      && |rest| < |s|
      && EventsOf(ReadAll(c, s).0) ==
           if IsTerminal(f.message) then [EventFor(f.message)]
           else [EventFor(f.message)] + EventsOf(ReadAll(c, rest).0)
  {
    hide EventFor;
    var (f, rest) := NextFrame(c, s);
    assert ReadAll(c, s).0 == [f.message] + ReadAll(c, rest).0;
  }

  lemma LastStep(c: Codec<GuestMessage>, s: Bytes)
    requires !NextFrame(c, s).0.Message?
    ensures EventsOf(ReadAll(c, s).0) == [FailedEvent(PROTOCOL)]
  {
    hide NextFrame;
    assert ReadAll(c, s).0 == [];
  }

  lemma TerminalsEnd(m: GuestMessage)
    ensures EndsTheStream(EventFor(m)) <==> IsTerminal(m)
  {
  }

  function EventsFor(ms: seq<GuestMessage>): seq<ExecEvent> {
    seq(|ms|, i requires 0 <= i < |ms| => EventFor(ms[i]))
  }

  lemma {:induction false} UnfinishedFrames(ms: seq<GuestMessage>)
    requires forall i | 0 <= i < |ms| :: !IsTerminal(ms[i])
    ensures EventsOf(ms) == EventsFor(ms) + [FailedEvent(PROTOCOL)]
  {
    if ms != [] {
      UnfinishedFrames(ms[1..]);
      assert EventsFor(ms) == [EventFor(ms[0])] + EventsFor(ms[1..]);
    }
  }

  lemma {:induction false} FinishedFrames(ms: seq<GuestMessage>)
    requires ms != [] && IsTerminal(ms[|ms| - 1])
    requires forall i | 0 <= i < |ms| - 1 :: !IsTerminal(ms[i])
    ensures EventsOf(ms) == EventsFor(ms)
  {
    if |ms| > 1 {
      FinishedFrames(ms[1..]);
      assert EventsFor(ms) == [EventFor(ms[0])] + EventsFor(ms[1..]);
    }
  }

  predicate HasEnded(w: seq<GuestMessage>) {
    w != [] && IsTerminal(w[|w| - 1])
  }

  lemma TerminalIsLast(w: seq<GuestMessage>, i: nat)
    requires LegalFrames(w) && i < |w| - 1
    ensures !IsTerminal(w[i])
  {
    assert w[..|w| - 1][i] == w[i];
  }

  /** `write_frame` puts a frame on the wire only if its encoding is within the limit. */
  ghost predicate WritesFit(c: Codec<GuestMessage>, cs: seq<Conn>) {
    forall i | 0 < i < |cs| && cs[i].wire != cs[i - 1].wire && cs[i].wire != [] ::
      Fits(c, cs[i].wire[|cs[i].wire| - 1])
  }

  lemma NoneFit(c: Codec<GuestMessage>)
    ensures AllFit(c, FRESH.wire)
  {
  }

  lemma OneMoreFits(c: Codec<GuestMessage>, w: seq<GuestMessage>, v: seq<GuestMessage>)
    requires AllFit(c, w) && AtMostOneMore(w, v)
    requires v != w && v != [] ==> Fits(c, v[|v| - 1])
    ensures AllFit(c, v)
  {
    hide Fits;
    assert v != w ==> v == w + [v[|v| - 1]];
  }

  lemma {:induction false} WireFits(cs: seq<Conn>, ss: seq<Step>, i: nat, c: Codec<GuestMessage>)
    requires Run(cs, ss) && i < |cs| && WritesFit(c, cs)
    ensures AllFit(c, cs[i].wire)
  {
    hide Enabled, Next, Fits, AllFit, AtMostOneMore;
    if i > 0 {
      WireFits(cs, ss, i - 1, c);
      StepKeepsWire(cs[i - 1], ss[i - 1]);
      OneMoreFits(c, cs[i - 1].wire, cs[i].wire);
    } else {
      NoneFit(c);
    }
  }

  /** The bytes of the frames written so far. */
  ghost function Written(cs: seq<Conn>, ss: seq<Step>, i: nat, c: Codec<GuestMessage>): Bytes
    requires Run(cs, ss) && i < |cs| && WritesFit(c, cs)
  {
    WireFits(cs, ss, i, c);
    Wire(c, cs[i].wire)
  }

  /** Of the frames written so far, those wholly within the first `k` bytes. */
  ghost function Received(cs: seq<Conn>, ss: seq<Step>, i: nat, c: Codec<GuestMessage>, k: nat): seq<GuestMessage>
    requires Run(cs, ss) && i < |cs| && WritesFit(c, cs)
  {
    WireFits(cs, ss, i, c);
    cs[i].wire[..WholeFrames(c, cs[i].wire, k)]
  }

  lemma {:induction false} WireGrows(c: Codec<GuestMessage>, w: seq<GuestMessage>, next: GuestMessage, k: nat)
    requires AllFit(c, w) && Fits(c, next)
    ensures AllFit(c, w + [next]) && Wire(c, w + [next]) == Wire(c, w) + FrameBytes(c, next)
    ensures k < |Wire(c, w + [next])| ==> WholeFrames(c, w + [next], k) == WholeFrames(c, w, k)
    decreases |w|, k
  {
    hide FrameBytes, Fits;
    if w == [] {
      assert w + [next] == [next] && [next][1..] == [];
    } else {
      assert (w + [next])[1..] == w[1..] + [next];
      WireGrows(c, w[1..], next, if k < |FrameBytes(c, w[0])| then 0 else k - |FrameBytes(c, w[0])|);
    }
  }

  /**
   End to end: the host receives some first bytes of what a connection wrote in some run and,
   if a write failed or the guest died on the way, of one more frame that never was
   complete. Its events are those of the whole frames it received, and if these do not
   include the terminal frame, one protocol failure.
   */
  lemma HostSeesTheRun(
      cs: seq<Conn>, ss: seq<Step>, i: nat, c: Codec<GuestMessage>, torn: GuestMessage, bytes: Bytes)
    requires Run(cs, ss) && i < |cs|
    requires Lawful(c) && WritesFit(c, cs) && Fits(c, torn)
    requires bytes < Written(cs, ss, i, c) + FrameBytes(c, torn)
    ensures
      var whole := Received(cs, ss, i, c, |bytes|);
      var events := EventsOf(ReadAll(c, bytes).0);
      && OneTerminalEvent(events)
      && events == if HasEnded(whole) then EventsFor(whole) else EventsFor(whole) + [FailedEvent(PROTOCOL)]
  {
    var w := cs[i].wire;
    var whole := Received(cs, ss, i, c, |bytes|);
    hide Run, Fits, FrameBytes, Wire, ReadAll, WholeFrames, LegalFrames, EventsOf, OneTerminalEvent, WritesFit;
    WireFits(cs, ss, i, c);
    WireGrows(c, w, torn, |bytes|);
    CutStream(c, w + [torn], |bytes|);
    assert whole == (w + [torn])[..WholeFrames(c, w, |bytes|)];
    assert bytes == Wire(c, w + [torn])[..|bytes|];
    FramesAreLegal(cs, ss, i);
    forall n | 0 <= n < |whole| - 1
      ensures !IsTerminal(whole[n])
    {
      TerminalIsLast(w, n);
    }
    EventsOfFrames(whole);
  }

  lemma TerminalsOf(ms: seq<GuestMessage>)
    ensures forall i | 0 <= i < |ms| :: EndsTheStream(EventsFor(ms)[i]) <==> IsTerminal(ms[i])
  {
    hide EventFor;
    forall i | 0 <= i < |ms|
      ensures EndsTheStream(EventsFor(ms)[i]) <==> IsTerminal(ms[i])
    {
      TerminalsEnd(ms[i]);
    }
  }

  lemma FailureEnds(kind: string)
    ensures EndsTheStream(FailedEvent(kind))
  {
  }

  lemma EventsOfFrames(ms: seq<GuestMessage>)
    requires forall i | 0 <= i < |ms| - 1 :: !IsTerminal(ms[i])
    ensures OneTerminalEvent(EventsOf(ms))
    ensures EventsOf(ms) == if HasEnded(ms) then EventsFor(ms) else EventsFor(ms) + [FailedEvent(PROTOCOL)]
  {
    hide EventsOf, EventFor, EndsTheStream, IsTerminal, PROTOCOL;
    TerminalsOf(ms);
    FailureEnds(PROTOCOL);
    if HasEnded(ms) {
      FinishedFrames(ms);
    } else {
      UnfinishedFrames(ms);
    }
  }
}
