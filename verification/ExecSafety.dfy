/** Invariants of an exec connection over every interleaving of its threads. */
module ExecSafety {
  import opened Trees
  import opened Framing
  import opened ExecProtocol

  predicate PastFlag(k: Completion) {
    k.Flagged? || k.Notified? || k.JoinedOut? || k.Flushed? || k.Chose? || k.Wrote? || k.Closed?
  }

  predicate PastJoins(k: Completion) {
    k.Flushed? || k.Chose? || k.Wrote? || k.Closed?
  }

  /** How far each thread can be, given the others. */
  predicate Control(c: Conn) {
    && (c.completion.NoCompletion? <==> !HasThreads(c.main))
    && (c.outPump.NotStarted? <==> !HasThreads(c.main))
    && (c.errPump.NotStarted? <==> !HasThreads(c.main))
    && (!HasThreads(c.main) ==> c.watchdog.Unarmed? && !c.seen.deadlinePassed)
    && (c.flags.done <==> PastFlag(c.completion))
    && (c.flags.shut <==> c.completion.Closed?)
    && (c.completion.JoinedOut? ==> c.outPump.Finished?)
    && (PastJoins(c.completion) ==> c.outPump.Finished? && c.errPump.Finished?)
    && (c.main.Returned? ==> c.completion.Closed?)
    && (PastFlag(c.completion) || c.completion.HasStatus? ==> !c.child.running && !c.routed.Lost?)
    && (c.child.running ==> HasChild(c.main))
  }

  /** What the main loop saw and did about cancellation. */
  predicate Cancellation(c: Conn) {
    && (c.seen.shutAtExit ==> c.flags.done)
    && (c.seen.doneAtCheck ==> c.flags.done)
    && (c.main.SawNotDone? ==> !c.seen.shutAtExit && !c.seen.doneAtCheck)
    && (c.seen.killedByMain ==> !c.seen.shutAtExit && !c.seen.doneAtCheck)
    && (c.main.Joining? || c.main.Returned? ==> c.seen.killedByMain || c.seen.doneAtCheck)
    && (!c.main.Joining? && !c.main.Returned? ==> !c.seen.killedByMain)
    && ((c.main.LeftLoop? && !c.seen.shutAtExit) || c.main.SawNotDone? || c.seen.killedByMain ==>
          c.host.Gone? || c.ending)
  }

  predicate WasTooLate(c: Conn) {
    c.seen.deadlinePassed && !c.seen.doneAtDeadline
  }

  /** What a timeout takes. */
  predicate Timing(c: Conn) {
    && (c.seen.doneAtDeadline ==> c.flags.done && c.seen.deadlinePassed)
    && (c.watchdog.Doomed? || c.watchdog.Marked? ==> WasTooLate(c))
    && (c.watchdog.Marked? ==> c.flags.timedOut)
    && (c.watchdog.Expired? ==> c.seen.deadlinePassed)
    && (c.watchdog.Stopped? ==> c.flags.done || c.seen.killedByWatchdog)
    && (c.seen.killedByWatchdog ==> c.watchdog.Stopped? && c.flags.timedOut)
    && (c.flags.timedOut || c.seen.killedByWatchdog ==> WasTooLate(c))
    && (c.completion.Chose? ==> Justified(c, c.completion.terminal))
  }

  /** A terminal frame that tells the truth. */
  predicate Justified(c: Conn, f: GuestMessage) {
    f == ExitFrame(c) || (f == Error(TIMEOUT) && c.flags.timedOut)
  }

  predicate IsRefusal(f: GuestMessage) {
    f == Error("protocol") || f == Error("spawn-failed")
  }

  /** What is on the wire in each phase. */
  predicate Phases(c: Conn) {
    if !HasThreads(c.main) then
      c.wire == [] || (c.main.Refused? && |c.wire| == 1 && IsRefusal(c.wire[0]))
    else if c.completion.Wrote? || c.completion.Closed? then
      || (c.lossy && Open(c.wire))
      || (Complete(c.wire) && Justified(c, c.wire[|c.wire| - 1]))
    else Open(c.wire)
  }

  predicate Safe(c: Conn) {
    Control(c) && Cancellation(c) && Timing(c) && Phases(c)
  }

  lemma OpenGrows(w: seq<GuestMessage>, f: GuestMessage)
    requires Open(w)
    ensures IsOutput(f) ==> Open(w + [f])
    ensures IsTerminal(f) ==> Complete(w + [f])
  {
    assert (w + [f])[..|w|] == w;
  }

  lemma MainKeepsControl(c: Conn, m: MainStep)
    requires Control(c) && MainEnabled(c, m)
    ensures Control(MainNext(c, m))
  {
    hide Writes, ReadEnds;
  }

  lemma MainKeepsCancellation(c: Conn, m: MainStep)
    requires Control(c) && Cancellation(c) && MainEnabled(c, m)
    ensures Cancellation(MainNext(c, m))
  {
    hide Writes;
  }

  lemma MainKeepsTiming(c: Conn, m: MainStep)
    requires Control(c) && Timing(c) && MainEnabled(c, m)
    ensures Timing(MainNext(c, m))
  {
    hide Writes, ReadEnds, Cancellation;
  }

  lemma MainKeepsPhases(c: Conn, m: MainStep)
    requires Control(c) && Phases(c) && MainEnabled(c, m)
    ensures Phases(MainNext(c, m))
  {
    hide Complete;
  }

  lemma MainKeepsSafe(c: Conn, m: MainStep)
    requires Safe(c) && MainEnabled(c, m)
    ensures Safe(MainNext(c, m))
  {
    hide Control, Cancellation, Timing, Phases, MainNext, MainEnabled;
    MainKeepsControl(c, m);
    MainKeepsCancellation(c, m);
    MainKeepsTiming(c, m);
    MainKeepsPhases(c, m);
  }

  /** Putting an output frame on the wire, or failing to, changes no phase. */
  lemma OutputKeepsPhases(c: Conn, f: GuestMessage, ok: bool)
    requires Control(c) && Phases(c) && IsOutput(f) && HasThreads(c.main) && !PastJoins(c.completion)
    ensures Phases(Emit(c, f, ok))
  {
    OpenGrows(c.wire, f);
  }

  lemma OutPumpKeepsSafe(c: Conn, p: PumpStep)
    requires Safe(c) && Enabled(c, OfOutPump(p))
    ensures Safe(Next(c, OfOutPump(p)))
  {
    hide Open, Complete;
    var after := Next(c, OfOutPump(p));
    if p.Send? {
      OutputKeepsPhases(c, Tag(true, c.outPump.data), p.ok);
      assert Phases(after) == Phases(Emit(c, Tag(true, c.outPump.data), p.ok));
    }
  }

  lemma ErrPumpKeepsSafe(c: Conn, p: PumpStep)
    requires Safe(c) && Enabled(c, OfErrPump(p))
    ensures Safe(Next(c, OfErrPump(p)))
  {
    hide Open, Complete;
    var after := Next(c, OfErrPump(p));
    if p.Send? {
      OutputKeepsPhases(c, Tag(false, c.errPump.data), p.ok);
      assert Phases(after) == Phases(Emit(c, Tag(false, c.errPump.data), p.ok));
    }
  }

  lemma CompletionKeepsSafe(c: Conn, k: CompletionStep)
    requires Safe(c) && CompletionEnabled(c, k)
    ensures Safe(CompletionNext(c, k))
  {
    if k.SendTerminal? {
      OpenGrows(c.wire, c.completion.terminal);
    }
  }

  lemma WatchdogKeepsSafe(c: Conn, w: WatchdogStep)
    requires Safe(c) && WatchdogEnabled(c, w)
    ensures Safe(WatchdogNext(c, w))
  {
  }

  /** The world leaves the threads alone, and closes or ends things for good. */
  lemma WorldIsElsewhere(c: Conn, v: WorldStep)
    requires WorldEnabled(c, v)
    ensures
      var after := WorldNext(c, v);
      && after == c.(out := after.out, err := after.err, child := after.child, seen := after.seen,
                     host := after.host, ending := after.ending, stdinStuck := after.stdinStuck,
                     routed := after.routed)
      && (after.routed == c.routed || (c.completion.Waiting? && !c.child.running))
      && (after.child == c.child || (c.child.running && !after.child.running))
      && (after.seen == c.seen ||
          (HasThreads(c.main) && after.seen == c.seen.(deadlinePassed := true, doneAtDeadline := c.flags.done)
           && !c.seen.deadlinePassed))
      && (c.host.Gone? ==> after.host.Gone?) && (c.ending ==> after.ending)
  {
  }

  lemma WorldKeepsControl(c: Conn, v: WorldStep)
    requires Control(c) && Cancellation(c) && WorldEnabled(c, v)
    ensures Control(WorldNext(c, v)) && Cancellation(WorldNext(c, v))
  {
    hide WorldNext, WorldEnabled;
    WorldIsElsewhere(c, v);
  }

  lemma WorldKeepsTiming(c: Conn, v: WorldStep)
    requires Control(c) && Timing(c) && WorldEnabled(c, v)
    ensures Timing(WorldNext(c, v))
  {
    hide WorldNext, WorldEnabled;
    WorldIsElsewhere(c, v);
  }

  lemma WorldKeepsPhases(c: Conn, v: WorldStep)
    requires Control(c) && Phases(c) && WorldEnabled(c, v)
    ensures Phases(WorldNext(c, v))
  {
    hide WorldNext, WorldEnabled, Open, Complete;
    WorldIsElsewhere(c, v);
  }

  lemma WorldKeepsSafe(c: Conn, v: WorldStep)
    requires Safe(c) && WorldEnabled(c, v)
    ensures Safe(WorldNext(c, v))
  {
    hide Control, Cancellation, Timing, Phases, WorldNext, WorldEnabled;
    WorldKeepsControl(c, v);
    WorldKeepsTiming(c, v);
    WorldKeepsPhases(c, v);
  }

  lemma {:induction false} RunsAreSafe(cs: seq<Conn>, ss: seq<Step>, i: nat)
    requires Run(cs, ss) && i < |cs|
    ensures Safe(cs[i])
  {
    if i > 0 {
      RunsAreSafe(cs, ss, i - 1);
      match ss[i - 1]
      case OfMain(m) => MainKeepsSafe(cs[i - 1], m);
      case OfOutPump(p) => OutPumpKeepsSafe(cs[i - 1], p);
      case OfErrPump(p) => ErrPumpKeepsSafe(cs[i - 1], p);
      case OfCompletion(k) => CompletionKeepsSafe(cs[i - 1], k);
      case OfWatchdog(w) => WatchdogKeepsSafe(cs[i - 1], w);
      case OfWorld(v) => WorldKeepsSafe(cs[i - 1], v);
    }
  }

  // ----- the theorems -----

  /** The frames of a connection, at any point of any run. */
  lemma FramesAreLegal(cs: seq<Conn>, ss: seq<Step>, i: nat)
    requires Run(cs, ss) && i < |cs|
    ensures LegalFrames(cs[i].wire)
    ensures |cs[i].wire| == 1 ==> cs[i].wire[0].Started? || IsRefusal(cs[i].wire[0])
    ensures Complete(cs[i].wire) ==> cs[i].completion.Wrote? || cs[i].completion.Closed?
    ensures (cs[i].completion.Wrote? || cs[i].completion.Closed?) && !cs[i].lossy ==> Complete(cs[i].wire)
  {
    RunsAreSafe(cs, ss, i);
  }

  predicate AtMostOneMore(w: seq<GuestMessage>, v: seq<GuestMessage>) {
    v == w || (|v| == |w| + 1 && v[..|w|] == w)
  }

  lemma MainKeepsWire(c: Conn, m: MainStep)
    requires MainEnabled(c, m)
    ensures AtMostOneMore(c.wire, MainNext(c, m).wire)
  {
    hide Writes, ReadEnds;
  }

  lemma CompletionKeepsWire(c: Conn, k: CompletionStep)
    requires CompletionEnabled(c, k)
    ensures AtMostOneMore(c.wire, CompletionNext(c, k).wire)
  {
    hide Writes;
  }

  /** A step puts at most one frame on the wire. */
  lemma StepKeepsWire(c: Conn, s: Step)
    requires Enabled(c, s)
    ensures AtMostOneMore(c.wire, Next(c, s).wire)
  {
    hide Writes, PumpAfter, PipeAfter, MainEnabled, MainNext;
    hide CompletionEnabled, CompletionNext, WorldEnabled, WorldNext;
    match s
    case OfMain(m) => MainKeepsWire(c, m);
    case OfCompletion(k) => CompletionKeepsWire(c, k);
    case OfWorld(v) => WorldIsElsewhere(c, v);
    case _ =>
  }

  /** Nothing already on the wire is ever taken back. */
  lemma {:induction false} WireOnlyGrows(cs: seq<Conn>, ss: seq<Step>, i: nat, j: nat)
    requires Run(cs, ss) && i <= j < |cs|
    ensures cs[i].wire <= cs[j].wire
  {
    hide Enabled, Next;
    if i < j {
      WireOnlyGrows(cs, ss, i, j - 1);
      StepKeepsWire(cs[j - 1], ss[j - 1]);
    }
  }

  /** Once the terminal frame is out, the wire never changes again. */
  lemma NothingFollowsTheTerminal(cs: seq<Conn>, ss: seq<Step>, i: nat, j: nat)
    requires Run(cs, ss) && i <= j < |cs|
    requires Complete(cs[i].wire)
    ensures cs[j].wire == cs[i].wire
  {
    WireOnlyGrows(cs, ss, i, j);
    RunsAreSafe(cs, ss, j);
    CompleteIsMaximal(cs[i].wire, cs[j].wire);
  }

  lemma CompleteIsMaximal(w: seq<GuestMessage>, v: seq<GuestMessage>)
    requires Complete(w) && LegalFrames(v) && w <= v
    ensures v == w
  {
    assert IsTerminal(v[|w| - 1]);
    assert forall k | 1 <= k < |v| - 1 :: v[..|v| - 1][k] == v[k];
    assert |w| == |v|;
  }

  /**
   Cancellation: the main loop kills the process group after it left its loop exactly when
   it found the child unfinished. The completion thread's own shutdown never makes it, only a
   host that closed the connection or broke the protocol does.
   */
  lemma KillsExactlyWhenUnfinished(cs: seq<Conn>, ss: seq<Step>, i: nat)
    requires Run(cs, ss) && i < |cs|
    ensures cs[i].main.Joining? || cs[i].main.Returned? ==> (cs[i].seen.killedByMain <==> !cs[i].seen.doneAtCheck)
    ensures cs[i].seen.shutAtExit ==> !cs[i].seen.killedByMain
    ensures cs[i].seen.killedByMain ==> cs[i].host.Gone? || cs[i].ending
  {
    RunsAreSafe(cs, ss, i);
  }

  /**
   Timeouts: a TIMEOUT frame means that the deadline passed before the child was done; if
   it was done in time, the terminal frame is the status that was routed to the connection,
   which is the child's own unless that was lost to an eviction.
   */
  lemma TimeoutMeansTooLate(cs: seq<Conn>, ss: seq<Step>, i: nat)
    requires Run(cs, ss) && i < |cs| && Complete(cs[i].wire)
    ensures
      var c, last := cs[i], cs[i].wire[|cs[i].wire| - 1];
      && (last == Error(TIMEOUT) || last == ExitFrame(c)) && !c.routed.Lost?
      && (last.Error? ==> WasTooLate(c))
      && (c.seen.doneAtDeadline || !c.seen.deadlinePassed ==> last == ExitFrame(c))
      && (c.routed.Own? ==> ExitFrame(c) == Exit(c.child.code, c.child.signal))
      && (c.routed.Foreign? ==> ExitFrame(c) == Exit(c.routed.code, c.routed.signal))
  {
    RunsAreSafe(cs, ss, i);
  }

  // ----- output is complete and in order -----

  /** The payload of one stream, in wire order. */
  function Payload(w: seq<GuestMessage>, isOut: bool): Bytes {
    if w == [] then []
    else
      var last := w[|w| - 1];
      Payload(w[..|w| - 1], isOut) +
      (if isOut && last.Stdout? then last.data else if !isOut && last.Stderr? then last.data else [])
  }

  lemma PayloadGrows(w: seq<GuestMessage>, f: GuestMessage, isOut: bool)
    ensures Payload(w + [f], isOut) == Payload(w, isOut) +
      (if isOut && f.Stdout? then f.data else if !isOut && f.Stderr? then f.data else [])
  {
    assert (w + [f])[..|w|] == w;
  }

  predicate SmallChunks(w: seq<GuestMessage>) {
    forall i | 0 <= i < |w| ::
      && (w[i].Stdout? ==> 1 <= |w[i].data| <= MAX_CHUNK_LEN)
      && (w[i].Stderr? ==> 1 <= |w[i].data| <= MAX_CHUNK_LEN)
  }

  /** What one pump has moved: a prefix of what its pipe carried, and all of it if it finished well. */
  predicate Drained(pump: Pump, pipe: Pipe, payload: Bytes, lossy: bool) {
    && pipe.taken <= |pipe.produced|
    && payload <= pipe.produced[..pipe.taken]
    && (pump.NotStarted? ==> pipe.taken == 0)
    && (pump.Idle? ==> payload == pipe.produced[..pipe.taken])
    && (pump.Holding? ==> payload + pump.data == pipe.produced[..pipe.taken] && 1 <= |pump.data| <= MAX_CHUNK_LEN)
    && (pump.Finished? && !lossy ==> pipe.closed && payload == pipe.produced)
  }

  predicate Flows(c: Conn) {
    && SmallChunks(c.wire)
    && Drained(c.outPump, c.out, Payload(c.wire, true), c.lossy)
    && Drained(c.errPump, c.err, Payload(c.wire, false), c.lossy)
  }

  lemma PumpMovesBytes(pump: Pump, pipe: Pipe, payload: Bytes, lossy: bool, s: PumpStep)
    requires Drained(pump, pipe, payload, lossy) && PumpEnabled(pump, pipe, s)
    ensures
      var sent := if s.Send? && s.ok then pump.data else [];
      var failed := s.ReadFails? || (s.Send? && !s.ok);
      Drained(PumpAfter(pump, pipe, s), PipeAfter(pipe, s), payload + sent, lossy || failed)
    ensures s.Send? ==> 1 <= |pump.data| <= MAX_CHUNK_LEN
  {
    if s.Read? {
      var n := s.n;
      assert pipe.produced[..pipe.taken] + pipe.produced[pipe.taken..pipe.taken + n]
             == pipe.produced[..pipe.taken + n];
    } else if s.Eof? {
      assert pipe.produced[..pipe.taken] == pipe.produced;
    }
    assert payload + [] == payload;
  }

  lemma HoldingToSend(pump: Pump, pipe: Pipe, s: PumpStep)
    requires PumpEnabled(pump, pipe, s)
    ensures s.Send? ==> pump.Holding?
  {
  }

  lemma OutPumpKeepsFlows(c: Conn, p: PumpStep)
    requires Flows(c) && Enabled(c, OfOutPump(p))
    ensures Flows(Next(c, OfOutPump(p)))
  {
    hide Drained, PumpEnabled, PumpAfter, PipeAfter, Payload;
    assert p.Send? ==> c.outPump.Holding? by {
      HoldingToSend(c.outPump, c.out, p);
    }
    LossesAreAllowed(c.errPump, c.err, Payload(c.wire, false), c.lossy);
    PumpMovesBytes(c.outPump, c.out, Payload(c.wire, true), c.lossy, p);
    assert Payload(c.wire, true) + [] == Payload(c.wire, true);
    assert Payload(c.wire, false) + [] == Payload(c.wire, false);
    if p.Send? {
      PayloadGrows(c.wire, Tag(true, c.outPump.data), true);
      PayloadGrows(c.wire, Tag(true, c.outPump.data), false);
    }
  }

  lemma ErrPumpKeepsFlows(c: Conn, p: PumpStep)
    requires Flows(c) && Enabled(c, OfErrPump(p))
    ensures Flows(Next(c, OfErrPump(p)))
  {
    hide Drained, PumpEnabled, PumpAfter, PipeAfter, Payload;
    assert p.Send? ==> c.errPump.Holding? by {
      HoldingToSend(c.errPump, c.err, p);
    }
    LossesAreAllowed(c.outPump, c.out, Payload(c.wire, true), c.lossy);
    PumpMovesBytes(c.errPump, c.err, Payload(c.wire, false), c.lossy, p);
    assert Payload(c.wire, true) + [] == Payload(c.wire, true);
    assert Payload(c.wire, false) + [] == Payload(c.wire, false);
    if p.Send? {
      PayloadGrows(c.wire, Tag(false, c.errPump.data), true);
      PayloadGrows(c.wire, Tag(false, c.errPump.data), false);
    }
  }

  lemma LossesAreAllowed(pump: Pump, pipe: Pipe, payload: Bytes, lossy: bool)
    requires Drained(pump, pipe, payload, lossy)
    ensures Drained(pump, pipe, payload, true)
  {
  }

  /** Frames that carry no output do not disturb the flow. */
  lemma OtherFramesKeepFlows(c: Conn, f: GuestMessage, ok: bool)
    requires Flows(c) && !IsOutput(f)
    ensures Flows(Emit(c, f, ok))
  {
    hide Drained;
    PayloadGrows(c.wire, f, true);
    PayloadGrows(c.wire, f, false);
    assert Payload(c.wire, true) + [] == Payload(c.wire, true);
    assert Payload(c.wire, false) + [] == Payload(c.wire, false);
    LossesAreAllowed(c.outPump, c.out, Payload(c.wire, true), c.lossy);
    LossesAreAllowed(c.errPump, c.err, Payload(c.wire, false), c.lossy);
  }

  /** All that the flow of output depends on. */
  predicate SameFlow(c: Conn, d: Conn) {
    && c.wire == d.wire && c.lossy == d.lossy && c.outPump == d.outPump && c.errPump == d.errPump
    && c.out == d.out && c.err == d.err
  }

  /** A pump that starts has nothing to account for. */
  lemma PumpStarts(pipe: Pipe, payload: Bytes, lossy: bool)
    requires Drained(NotStarted, pipe, payload, lossy)
    ensures Drained(Idle, pipe, payload, lossy)
  {
  }

  lemma NotStartedYet(c: Conn)
    requires Control(c) && c.main.Starting?
    ensures c.outPump == NotStarted && c.errPump == NotStarted
  {
  }

  lemma StartedFlows(c: Conn, ok: bool)
    requires Control(c) && Flows(c) && MainEnabled(c, SendStarted(ok))
    ensures Flows(MainNext(c, SendStarted(ok)))
  {
    hide Control, Drained, Payload, SmallChunks, Writes;
    NotStartedYet(c);
    OtherFramesKeepFlows(c, Started(c.child.pid), ok);
    var sent := Emit(c, Started(c.child.pid), ok);
    PumpStarts(sent.out, Payload(sent.wire, true), sent.lossy);
    PumpStarts(sent.err, Payload(sent.wire, false), sent.lossy);
  }

  lemma MainKeepsFlows(c: Conn, m: MainStep)
    requires Safe(c) && Flows(c) && MainEnabled(c, m)
    ensures Flows(MainNext(c, m))
  {
    hide Control, Cancellation, Timing, Phases, Flows, Writes, ReadEnds;
    if m.SendStarted? {
      StartedFlows(c, m.ok);
    } else if m.Refuse? {
      OtherFramesKeepFlows(c, Error(m.kind), m.ok);
      SameFlowFlows(Emit(c, Error(m.kind), m.ok), MainNext(c, m));
    } else {
      SameFlowFlows(c, MainNext(c, m));
    }
  }

  lemma SameFlowFlows(c: Conn, d: Conn)
    requires Flows(c) && SameFlow(c, d)
    ensures Flows(d)
  {
  }

  lemma CompletionKeepsFlows(c: Conn, k: CompletionStep)
    requires Safe(c) && Flows(c) && CompletionEnabled(c, k)
    ensures Flows(CompletionNext(c, k))
  {
    hide Control, Cancellation, Phases, Flows, Writes;
    if k.SendTerminal? {
      OtherFramesKeepFlows(c, c.completion.terminal, k.ok);
      SameFlowFlows(Emit(c, c.completion.terminal, k.ok), CompletionNext(c, k));
    } else {
      SameFlowFlows(c, CompletionNext(c, k));
    }
  }

  lemma WorldKeepsFlows(c: Conn, v: WorldStep)
    requires Flows(c) && WorldEnabled(c, v)
    ensures Flows(WorldNext(c, v))
  {
    hide SmallChunks, Payload;
    if v.Produce? {
      var p := if v.isOut then c.out else c.err;
      assert (p.produced + v.data)[..p.taken] == p.produced[..p.taken];
    }
  }

  lemma WatchdogKeepsFlows(c: Conn, w: WatchdogStep)
    requires Flows(c) && WatchdogEnabled(c, w)
    ensures Flows(WatchdogNext(c, w))
  {
  }

  lemma FreshFlows()
    ensures Flows(FRESH)
  {
  }

  lemma {:induction false} RunsFlow(cs: seq<Conn>, ss: seq<Step>, i: nat)
    requires Run(cs, ss) && i < |cs|
    ensures Safe(cs[i]) && Flows(cs[i])
  {
    RunsAreSafe(cs, ss, i);
    FreshFlows();
    if i > 0 {
      hide Safe, Flows;
      RunsFlow(cs, ss, i - 1);
      match ss[i - 1]
      case OfMain(m) => MainKeepsFlows(cs[i - 1], m);
      case OfOutPump(p) => OutPumpKeepsFlows(cs[i - 1], p);
      case OfErrPump(p) => ErrPumpKeepsFlows(cs[i - 1], p);
      case OfCompletion(k) => CompletionKeepsFlows(cs[i - 1], k);
      case OfWatchdog(w) => WatchdogKeepsFlows(cs[i - 1], w);
      case OfWorld(v) => WorldKeepsFlows(cs[i - 1], v);
    }
  }

  /**
   Output: every payload is a chunk of bounded size; the payloads of a stream, in wire
   order, are a prefix of what its pipe carried; and when the terminal frame goes out with
   no failed read or write, they are all of it.
   */
  lemma OutputIsCompleteAtTheTerminal(cs: seq<Conn>, ss: seq<Step>, i: nat)
    requires Run(cs, ss) && i < |cs|
    ensures SmallChunks(cs[i].wire)
    ensures forall f | f in cs[i].wire && (f.Stdout? || f.Stderr?) :: 1 <= |f.data| <= 65536
    ensures Payload(cs[i].wire, true) <= cs[i].out.produced && Payload(cs[i].wire, false) <= cs[i].err.produced
    ensures Complete(cs[i].wire) && !cs[i].lossy ==>
      && Payload(cs[i].wire, true) == cs[i].out.produced && cs[i].out.closed
      && Payload(cs[i].wire, false) == cs[i].err.produced && cs[i].err.closed
  {
    RunsFlow(cs, ss, i);
  }
}
