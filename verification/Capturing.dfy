/** Collecting the output of one exec: the host's event loop over two capped buffers. */
module Capturing {
  import opened Numbers
  import opened Trees
  import opened Framing
  import opened ExecProtocol
  import opened ExecSafety
  import opened ExecOutcome
  import opened HostStream

  const MAX_CAPTURE := 4 * 1024 * 1024

  /** One stream's capture buffer; `seen` is all that was ever pushed. */
  class Capture {
    var buf: Bytes
    ghost var seen: Bytes

    ghost predicate Valid()
      reads this
    {
      buf == seen[..Min(|seen|, 4194304)]
    }

    constructor ()
      ensures Valid() && seen == []
    {
      buf, seen := [], [];
    }

    /** `push_capped`: however a stream is chunked, what is kept is its first bytes. */
    method Push(data: Bytes)
      requires Valid()
      modifies this
      ensures Valid() && seen == old(seen) + data
    {
      seen := seen + data;
      if |buf| >= MAX_CAPTURE {
        return;
      }
      var room := MAX_CAPTURE - |buf|;
      buf := buf + data[..Min(|data|, room)];
    }
  }

  function DataOf(e: ExecEvent, isOut: bool): Bytes {
    match e
    case StdoutEvent(data) => if isOut then data else []
    case StderrEvent(data) => if isOut then [] else data
    case _ => []
  }

  /** All that the events carry of one stream. */
  function Said(es: seq<ExecEvent>, isOut: bool): Bytes {
    if es == [] then [] else Said(es[..|es| - 1], isOut) + DataOf(es[|es| - 1], isOut)
  }

  lemma SaidOneMore(es: seq<ExecEvent>, i: nat, isOut: bool)
    requires i < |es|
    ensures Said(es[..i + 1], isOut) == Said(es[..i], isOut) + DataOf(es[i], isOut)
  {
    assert es[..i + 1][..i] == es[..i];
  }

  /** The loop of `do_exec`, up to the terminal event. */
  method Gather(es: seq<ExecEvent>) returns (out: Capture, err: Capture, last: ExecEvent)
    requires OneTerminalEvent(es)
    ensures fresh(out) && fresh(err) && out.Valid() && err.Valid()
    ensures out.seen == Said(es, true) && err.seen == Said(es, false)
    ensures last == es[|es| - 1]
  {
    out := new Capture();
    err := new Capture();
    var i := 0;
    while true
      invariant i < |es| && fresh(out) && fresh(err) && out != err && out.Valid() && err.Valid()
      invariant out.seen == Said(es[..i], true) && err.seen == Said(es[..i], false)
      decreases |es| - i
    {
      SaidOneMore(es, i, true);
      SaidOneMore(es, i, false);
      match es[i] {
        case BeganEvent(_) =>
        case StdoutEvent(d) => out.Push(d);
        case StderrEvent(d) => err.Push(d);
        case ExitedEvent(_, _) => break;
        case FailedEvent(_) => break;
      }
      i := i + 1;
    }
    last := es[i];
    assert es[..i + 1] == es;
  }

  lemma {:induction false} EventsSayThePayload(ms: seq<GuestMessage>, isOut: bool)
    ensures Said(EventsFor(ms), isOut) == Payload(ms, isOut)
  {
    if ms != [] {
      EventsSayThePayload(ms[..|ms| - 1], isOut);
      assert EventsFor(ms)[..|ms| - 1] == EventsFor(ms[..|ms| - 1]);
    }
  }

  lemma FinishedFramesSay(ms: seq<GuestMessage>)
    requires HasEnded(ms) && forall n | 0 <= n < |ms| - 1 :: !IsTerminal(ms[n])
    ensures
      var es := EventsOf(ms);
      && OneTerminalEvent(es) && es[|es| - 1] == EventFor(ms[|ms| - 1])
      && Said(es, true) == Payload(ms, true) && Said(es, false) == Payload(ms, false)
  {
    hide EventsOf, Said, Payload, EventFor;
    EventsOfFrames(ms);
    EventsSayThePayload(ms, true);
    EventsSayThePayload(ms, false);
  }

  lemma FailureIsError(kind: string)
    ensures FrameOf(FailedEvent(kind)) == Error(kind)
  {
  }

  lemma FinishedRun(cs: seq<Conn>, ss: seq<Step>, i: nat)
    requires Run(cs, ss) && i < |cs| && Complete(cs[i].wire)
    ensures
      var w := cs[i].wire;
      && HasEnded(w) && (forall n | 0 <= n < |w| - 1 :: !IsTerminal(w[n]))
  {
    hide Run, Open;
    FramesAreLegal(cs, ss, i);
    forall n | 0 <= n < |cs[i].wire| - 1
      ensures !IsTerminal(cs[i].wire[n])
    {
      TerminalIsLast(cs[i].wire, n);
    }
  }

  /**
   From the child to the buffers: when the terminal frame is out, no read or write failed and
   the host has read everything, its events carry exactly what the child wrote, and end with
   the timeout, exactly if that was marked when the frame was chosen, or else with the status
   routed to the connection, its own unless that was lost.
   */
  lemma EventsSayWhatTheChildWrote(cs: seq<Conn>, ss: seq<Step>, i: nat, c: Codec<GuestMessage>) returns (k: nat)
    requires Run(cs, ss) && i < |cs| && Lawful(c) && WritesFit(c, cs)
    requires Complete(cs[i].wire) && !cs[i].lossy
    ensures
      var es := EventsOf(ReadAll(c, Written(cs, ss, i, c)).0);
      && OneTerminalEvent(es)
      && Said(es, true) == cs[i].out.produced && Said(es, false) == cs[i].err.produced
      && k < i && ss[k] == OfCompletion(ChooseTerminal)
      && (es[|es| - 1] == FailedEvent("timeout") <==> cs[k].flags.timedOut)
      && FrameOf(es[|es| - 1]) == Outcome(cs[k].routed, cs[k].child, cs[k].flags.timedOut)
  {
    var w := cs[i].wire;
    hide Run, Wire, ReadAll, EventsOf, Said, Payload, OneTerminalEvent, WritesFit, SmallChunks, AllFit;
    hide Complete, HasEnded, IsTerminal, EventFor, FrameOf, Outcome;
    k := TerminalIsTheOutcome(cs, ss, i);
    EventsAreFrames(w[|w| - 1], FailedEvent("timeout"));
    FailureIsError("timeout");
    FinishedRun(cs, ss, i);
    FinishedFramesSay(w);
    WireFits(cs, ss, i, c);
    WholeStream(c, w);
    OutputIsCompleteAtTheTerminal(cs, ss, i);
  }
}
