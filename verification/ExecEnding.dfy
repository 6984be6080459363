/** When an exec connection whose child is gone comes to its end, and when it hangs. */
module ExecEnding {
  import opened Options
  import opened Trees
  import opened ExecProtocol
  import opened ExecSafety

  /** Steps of the program's own threads, as opposed to the child, the host and the clock. */
  predicate IsThreadStep(s: Step) {
    match s
    case OfMain(m) => !m.StdinFrame?
    case OfWorld(_) => false
    case _ => true
  }

  function MainRank(m: Main): nat {
    match m
    case ReadingRequest => 9
    case Starting(_) => 8
    case Feeding => 5
    case Looping => 4
    case LeftLoop => 3
    case SawNotDone => 2
    case Joining => 1
    case _ => 0
  }

  function CompletionRank(k: Completion): nat {
    match k
    case NoCompletion => 9
    case Waiting => 8
    case HasStatus => 7
    case Flagged => 6
    case Notified => 5
    case JoinedOut => 4
    case Flushed => 3
    case Chose(_) => 2
    case Wrote => 1
    case Closed => 0
  }

  function WatchdogRank(w: Watchdog): nat {
    match w
    case Unarmed => 0
    case Armed => 4
    case Expired => 3
    case Doomed => 2
    case Marked => 1
    case Stopped => 0
  }

  function PumpRank(p: Pump, pipe: Pipe): int {
    (if p.Finished? then 0 else if p.Holding? then 2 else 1) + 2 * (|pipe.produced| - pipe.taken)
  }

  /** A bound on how many thread steps are still possible while the world stands still. */
  function Rank(c: Conn): int {
    MainRank(c.main) + CompletionRank(c.completion) + WatchdogRank(c.watchdog)
    + PumpRank(c.outPump, c.out) + PumpRank(c.errPump, c.err)
  }

  lemma PumpRankIsNatural(pump: Pump, pipe: Pipe, payload: Bytes, lossy: bool)
    requires Drained(pump, pipe, payload, lossy)
    ensures 0 <= PumpRank(pump, pipe)
  {
  }

  lemma PumpStepsCostRank(pump: Pump, pipe: Pipe, payload: Bytes, lossy: bool, s: PumpStep)
    requires Drained(pump, pipe, payload, lossy) && PumpEnabled(pump, pipe, s)
    ensures 0 <= PumpRank(PumpAfter(pump, pipe, s), PipeAfter(pipe, s)) < PumpRank(pump, pipe)
  {
  }

  lemma MainStepsCostRank(c: Conn, m: MainStep)
    requires HasThreads(c.main) && MainEnabled(c, m) && !m.StdinFrame?
    ensures MainNext(c, m) == c.(main := MainNext(c, m).main, seen := MainNext(c, m).seen)
    ensures MainRank(MainNext(c, m).main) < MainRank(c.main)
  {
  }

  lemma CompletionStepsCostRank(c: Conn, k: CompletionStep)
    requires CompletionEnabled(c, k)
    ensures
      var after := CompletionNext(c, k);
      && CompletionRank(after.completion) < CompletionRank(c.completion)
      && after.main == c.main && after.watchdog == c.watchdog
      && after.outPump == c.outPump && after.errPump == c.errPump && after.out == c.out && after.err == c.err
  {
  }

  lemma WatchdogStepsCostRank(c: Conn, w: WatchdogStep)
    requires WatchdogEnabled(c, w)
    ensures
      var after := WatchdogNext(c, w);
      && WatchdogRank(after.watchdog) < WatchdogRank(c.watchdog)
      && after.main == c.main && after.completion == c.completion
      && after.outPump == c.outPump && after.errPump == c.errPump && after.out == c.out && after.err == c.err
  {
  }

  lemma ThreadStepsCostRank(c: Conn, s: Step)
    requires Flows(c) && HasThreads(c.main) && Enabled(c, s) && IsThreadStep(s)
    ensures 0 <= Rank(Next(c, s)) < Rank(c)
  {
    hide Payload, SmallChunks, Drained, PumpEnabled, PumpAfter, PipeAfter, PumpRank, Writes, ReadEnds;
    hide MainNext, CompletionNext, WatchdogNext, MainRank, CompletionRank, WatchdogRank;
    PumpRankIsNatural(c.outPump, c.out, Payload(c.wire, true), c.lossy);
    PumpRankIsNatural(c.errPump, c.err, Payload(c.wire, false), c.lossy);
    match s
    case OfMain(m) => MainStepsCostRank(c, m);
    case OfOutPump(p) => PumpStepsCostRank(c.outPump, c.out, Payload(c.wire, true), c.lossy, p);
    case OfErrPump(p) => PumpStepsCostRank(c.errPump, c.err, Payload(c.wire, false), c.lossy, p);
    case OfCompletion(k) => CompletionStepsCostRank(c, k);
    case OfWatchdog(w) => WatchdogStepsCostRank(c, w);
  }

  // ----- returning or hanging -----

  /** A started connection whose child is dead and whose pipes are closed. */
  predicate ChildIsGone(c: Conn) {
    HasThreads(c.main) && !c.child.running && c.out.closed && c.err.closed
  }

  /**
   The host is stalled before the terminal frame is out, the main loop is feeding a stdin that
   somebody holds open without reading, or the completion thread waits for a lost status.
   */
  predicate WillHang(c: Conn) {
    || (c.host.Stalled? && !c.completion.Wrote? && !c.completion.Closed?)
    || (c.main.Feeding? && c.stdinStuck)
    || (c.completion.Waiting? && c.routed.Lost?)
  }

  ghost predicate AtRest(c: Conn) {
    forall s: Step | IsThreadStep(s) :: !Enabled(c, s)
  }

  function PumpMove(pump: Pump, pipe: Pipe, host: Host): PumpStep {
    if pump.Holding? then Send(host.Reading?)
    else if pipe.taken < |pipe.produced| then Read(1)
    else Eof
  }

  /** Some thread can move: a pump, then the completion thread, then the main loop. */
  function AvailableStep(c: Conn): Step {
    if !c.outPump.Finished? then OfOutPump(PumpMove(c.outPump, c.out, c.host))
    else if !c.errPump.Finished? then OfErrPump(PumpMove(c.errPump, c.err, c.host))
    else
      match c.completion
      case Waiting => OfCompletion(TakeStatus)
      case HasStatus => OfCompletion(SetDone)
      case Flagged => OfCompletion(Notify)
      case Notified => OfCompletion(JoinOut)
      case JoinedOut => OfCompletion(JoinErr)
      case Flushed => OfCompletion(ChooseTerminal)
      case Chose(_) => OfCompletion(SendTerminal(c.host.Reading?))
      case Wrote => OfCompletion(ShutDown)
      case _ =>
        match c.main
        case Feeding => OfMain(Fed)
        case Looping => OfMain(LeaveLoop)
        case LeftLoop => OfMain(CheckDone)
        case SawNotDone => OfMain(KillGroup)
        case _ => OfMain(Return)
  }

  lemma PumpCanMove(pump: Pump, pipe: Pipe, payload: Bytes, lossy: bool, host: Host)
    requires Drained(pump, pipe, payload, lossy) && pipe.closed
    requires !pump.NotStarted? && !pump.Finished?
    ensures PumpEnabled(pump, pipe, PumpMove(pump, pipe, host))
  {
  }

  lemma SomeThreadCanMove(c: Conn)
    requires Safe(c) && Flows(c) && ChildIsGone(c) && !WillHang(c) && !c.main.Returned?
    ensures Enabled(c, AvailableStep(c)) && IsThreadStep(AvailableStep(c))
  {
    hide Cancellation, Timing, Phases, SmallChunks, Drained, PumpEnabled, Payload;
    if !c.outPump.Finished? {
      PumpCanMove(c.outPump, c.out, Payload(c.wire, true), c.lossy, c.host);
    } else if !c.errPump.Finished? {
      PumpCanMove(c.errPump, c.err, Payload(c.wire, false), c.lossy, c.host);
    }
  }

  lemma HangingIsNotReturned(c: Conn)
    requires Control(c) && WillHang(c)
    ensures !c.main.Returned?
  {
  }

  /** What the program's own threads never change. */
  predicate ThreadStep(c: Conn, after: Conn) {
    && ChildIsGone(after) && after.host == c.host && after.stdinStuck == c.stdinStuck && after.routed == c.routed
    && (after.main.Feeding? ==> c.main.Feeding?)
    && (c.main.Feeding? && c.stdinStuck ==> after.main.Feeding?)
  }

  lemma MainIsElsewhere(c: Conn, m: MainStep)
    requires ChildIsGone(c) && MainEnabled(c, m) && !m.StdinFrame?
    ensures ThreadStep(c, MainNext(c, m)) && MainNext(c, m).completion == c.completion
  {
    hide Writes, ReadEnds;
  }

  lemma CompletionIsElsewhere(c: Conn, k: CompletionStep)
    requires ChildIsGone(c) && CompletionEnabled(c, k)
    ensures ThreadStep(c, CompletionNext(c, k))
  {
    hide Writes;
  }

  lemma WatchdogIsElsewhere(c: Conn, w: WatchdogStep)
    requires ChildIsGone(c) && WatchdogEnabled(c, w)
    ensures ThreadStep(c, WatchdogNext(c, w)) && WatchdogNext(c, w).completion == c.completion
  {
  }

  lemma ThreadsAreElsewhere(c: Conn, s: Step)
    requires ChildIsGone(c) && Enabled(c, s) && IsThreadStep(s)
    ensures ThreadStep(c, Next(c, s))
    ensures !s.OfCompletion? ==> Next(c, s).completion == c.completion
  {
    hide Writes, MainEnabled, MainNext, CompletionEnabled, CompletionNext, WatchdogEnabled, WatchdogNext, PumpAfter;
    match s
    case OfMain(m) => MainIsElsewhere(c, m);
    case OfCompletion(k) => CompletionIsElsewhere(c, k);
    case OfWatchdog(w) => WatchdogIsElsewhere(c, w);
    case _ =>
  }

  predicate TerminalIsOut(k: Completion) {
    k.Wrote? || k.Closed?
  }

  /** Only a host that is not stalled lets the terminal frame out, or fail. */
  lemma TerminalNeedsTheHost(c: Conn, k: CompletionStep)
    requires Control(c) && CompletionEnabled(c, k)
    ensures
      var after := CompletionNext(c, k).completion;
      && (TerminalIsOut(c.completion) ==> TerminalIsOut(after))
      && (c.host.Stalled? && TerminalIsOut(after) ==> TerminalIsOut(c.completion))
      && !after.Waiting? && (c.completion.Waiting? ==> !c.routed.Lost?)
  {
  }

  /** Whether a connection will hang is decided once the world stands still. */
  lemma ThreadsDoNotDecide(c: Conn, s: Step)
    requires ChildIsGone(c) && Safe(c) && Enabled(c, s) && IsThreadStep(s)
    ensures WillHang(Next(c, s)) <==> WillHang(c)
  {
    hide Control, Cancellation, Timing, Phases, CompletionEnabled, CompletionNext, MainNext, WatchdogNext, ChildIsGone;
    ThreadsAreElsewhere(c, s);
    if s.OfCompletion? {
      TerminalNeedsTheHost(c, s.k);
    }
  }

  ghost predicate OnlyThreads(ss: seq<Step>, i: nat, j: nat)
    requires j <= |ss|
  {
    forall k | i <= k < j :: IsThreadStep(ss[k])
  }

  lemma OneThreadStep(c: Conn, s: Step)
    requires Safe(c) && Flows(c) && ChildIsGone(c) && Enabled(c, s) && IsThreadStep(s)
    ensures ChildIsGone(Next(c, s)) && (WillHang(Next(c, s)) <==> WillHang(c))
    ensures 0 <= Rank(Next(c, s)) < Rank(c)
  {
    hide Safe, Flows, Enabled, Next, ChildIsGone, WillHang, Rank, IsThreadStep;
    StartedHasThreads(c);
    ThreadsAreElsewhere(c, s);
    ThreadsDoNotDecide(c, s);
    ThreadStepsCostRank(c, s);
  }

  /** Along thread steps nothing is decided anew, and each of them uses up some of the remaining work. */
  lemma {:induction false} ThreadsOnly(cs: seq<Conn>, ss: seq<Step>, i: nat, j: nat)
    requires Run(cs, ss) && i <= j < |cs| && OnlyThreads(ss, i, j)
    requires ChildIsGone(cs[i])
    ensures ChildIsGone(cs[j]) && (WillHang(cs[j]) <==> WillHang(cs[i]))
    ensures 0 <= Rank(cs[j]) <= Rank(cs[i]) - (j - i)
  {
    hide Safe, Flows, Enabled, Next, ChildIsGone, WillHang, Rank, IsThreadStep;
    RunsFlow(cs, ss, j);
    RankIsNatural(cs[j]);
    if i < j {
      ThreadsOnly(cs, ss, i, j - 1);
      RunsFlow(cs, ss, j - 1);
      OneThreadStep(cs[j - 1], ss[j - 1]);
    }
  }

  lemma RankIsNatural(c: Conn)
    requires Flows(c)
    ensures 0 <= Rank(c)
  {
  }

  lemma StartedHasThreads(c: Conn)
    requires ChildIsGone(c)
    ensures HasThreads(c.main)
  {
  }

  /**
   Once the child is dead, its pipes are closed and the outside world stands still, the
   threads take only so many more steps; and when they are at rest the connection has
   returned, exactly if it was not bound to hang.
   */
  lemma ReturnsIffNotHanging(cs: seq<Conn>, ss: seq<Step>, i: nat, j: nat)
    requires Run(cs, ss) && i <= j < |cs| && OnlyThreads(ss, i, j)
    requires ChildIsGone(cs[i])
    ensures j - i <= Rank(cs[i])
    ensures AtRest(cs[j]) ==> (cs[j].main.Returned? <==> !WillHang(cs[i]))
  {
    hide Enabled, Next, Flows, ChildIsGone, WillHang, Rank;
    RunsFlow(cs, ss, j);
    ThreadsOnly(cs, ss, i, j);
    if AtRest(cs[j]) {
      if WillHang(cs[j]) {
        HangingIsNotReturned(cs[j]);
      } else if !cs[j].main.Returned? {
        SomeThreadCanMove(cs[j]);
      }
    }
  }

  // ----- a connection that hangs -----

  ghost function Last(cs: seq<Conn>): Conn
    requires cs != []
  {
    cs[|cs| - 1]
  }

  lemma Extend(cs: seq<Conn>, ss: seq<Step>, s: Step) returns (cs': seq<Conn>, ss': seq<Step>)
    requires Run(cs, ss) && Enabled(Last(cs), s)
    ensures Run(cs', ss') && Last(cs') == Next(Last(cs), s)
  {
    cs', ss' := cs + [Next(Last(cs), s)], ss + [s];
  }

  lemma StartsFresh()
    ensures Run([FRESH], [])
  {
  }

  function Copies<T>(n: nat, x: T): seq<T> {
    seq(n, i => x)
  }

  /** A started connection whose child has written `n` bytes, each sent in a frame of its own. */
  function Pumped(n: nat): Conn {
    FRESH.(main := Looping, outPump := Idle, errPump := Idle, completion := Waiting,
           wire := [Started(7)] + Copies(n, Stdout([65])), out := Pipe(Copies(n, 65), n, false),
           child := Child(7, true, None, None))
  }

  lemma StartedIsReached() returns (cs: seq<Conn>, ss: seq<Step>)
    ensures Run(cs, ss) && Last(cs) == Pumped(0)
  {
    hide Run;
    cs, ss := [FRESH], [];
    assert Run(cs, ss) by { StartsFresh(); }
    cs, ss := Extend(cs, ss, OfMain(Spawn(7, false)));
    cs, ss := Extend(cs, ss, OfMain(SendStarted(true)));
    assert Last(cs).wire == [Started(7)] == Pumped(0).wire;
    assert Copies<byte>(0, 65) == [];
  }

  /** One more byte, held by the pump. */
  function HoldingAfter(n: nat): Conn {
    Pumped(n).(outPump := Holding([65]), out := Pipe(Copies(n + 1, 65), n + 1, false))
  }

  lemma HoldingIsReached(cs: seq<Conn>, ss: seq<Step>, n: nat) returns (cs': seq<Conn>, ss': seq<Step>)
    requires Run(cs, ss) && Last(cs) == Pumped(n)
    ensures Run(cs', ss') && Last(cs') == HoldingAfter(n)
  {
    hide Run;
    var one: Bytes := [65];
    var more: Bytes := Copies(n + 1, 65);
    assert Copies<byte>(n, 65) + one == more;
    cs', ss' := Extend(cs, ss, OfWorld(Produce(true, one)));
    assert Last(cs').out == Pipe(more, n, false);
    cs', ss' := Extend(cs', ss', OfOutPump(Read(1)));
    assert more[n..n + 1] == one;
  }

  lemma {:induction false} PumpedIsReached(n: nat) returns (cs: seq<Conn>, ss: seq<Step>)
    ensures Run(cs, ss) && Last(cs) == Pumped(n)
  {
    if n == 0 {
      cs, ss := StartedIsReached();
    } else {
      hide Run;
      cs, ss := PumpedIsReached(n - 1);
      cs, ss := HoldingIsReached(cs, ss, n - 1);
      cs, ss := Extend(cs, ss, OfOutPump(Send(true)));
      var w := Pumped(n - 1).wire;
      assert w + [Stdout([65])] == Pumped(n).wire;
    }
  }

  lemma {:induction false} PumpedPayload(n: nat)
    ensures |Payload(Pumped(n).wire, true)| == n
  {
    var w := Pumped(n).wire;
    if n == 0 {
      assert w == [Started(7)] && w[..0] == [];
    } else {
      PumpedPayload(n - 1);
      assert w[..n] == Pumped(n - 1).wire && w[n] == Stdout([65]);
    }
  }

  /** Then the host stops reading, and the child dies. */
  function Dying(n: nat): Conn {
    var c := HoldingAfter(n);
    c.(host := Stalled, child := Child(7, false, Some(0), None), out := c.out.(closed := true),
       err := c.err.(closed := true))
  }

  lemma DyingIsReached(n: nat) returns (cs: seq<Conn>, ss: seq<Step>)
    ensures Run(cs, ss) && Last(cs) == Dying(n)
  {
    hide Run, Pumped;
    cs, ss := PumpedIsReached(n);
    cs, ss := HoldingIsReached(cs, ss, n);
    PumpedIsOpen(n);
    cs, ss := Extend(cs, ss, OfWorld(HostTurns(Stalled)));
    cs, ss := Extend(cs, ss, OfWorld(ChildExits(Some(0), None)));
    cs, ss := Extend(cs, ss, OfWorld(ClosePipe(true)));
    cs, ss := Extend(cs, ss, OfWorld(ClosePipe(false)));
  }

  lemma PumpedIsOpen(n: nat)
    ensures
      var c := Pumped(n);
      && c.main.Looping? && c.child == Child(7, true, None, None) && c.host.Reading? && c.routed.Own?
      && c.err == Pipe([], 0, false) && c.errPump.Idle? && c.outPump.Idle? && c.completion.Waiting?
      && !c.ending && !c.flags.shut && c.watchdog.Unarmed? && !c.out.closed && c.flags == Flags(false, false, false)
      && c.out.taken == |c.out.produced|
  {
  }

  function Stuck(n: nat): Conn {
    Dying(n).(errPump := Finished, completion := Notified, flags := Flags(true, false, false))
  }

  lemma StuckIsAtRest(n: nat)
    ensures AtRest(Stuck(n)) && ChildIsGone(Stuck(n)) && Stuck(n).wire == Pumped(n).wire
  {
    hide Pumped;
    PumpedIsOpen(n);
  }

  /**
   So a host that stops reading keeps the connection open, with the child long dead, however
   much the socket holds: here `unread` bytes of output or more.
   */
  lemma StalledHostHangs(unread: nat) returns (cs: seq<Conn>, ss: seq<Step>)
    ensures Run(cs, ss)
    ensures ChildIsGone(Last(cs)) && !Last(cs).main.Returned? && AtRest(Last(cs))
    ensures Last(cs).host.Stalled? && !Last(cs).ending && |Payload(Last(cs).wire, true)| == unread
  {
    hide Run, AtRest, Pumped, Payload;
    PumpedIsOpen(unread);
    PumpedPayload(unread);
    cs, ss := DyingIsReached(unread);
    cs, ss := Extend(cs, ss, OfErrPump(Eof));
    cs, ss := Extend(cs, ss, OfCompletion(TakeStatus));
    cs, ss := Extend(cs, ss, OfCompletion(SetDone));
    cs, ss := Extend(cs, ss, OfCompletion(Notify));
    assert Last(cs) == Stuck(unread);
    StuckIsAtRest(unread);
  }

  function Bereft(): Conn {
    Pumped(0).(outPump := Finished, errPump := Finished, child := Child(7, false, Some(0), None), routed := Lost,
               out := Pumped(0).out.(closed := true), err := Pipe([], 0, true))
  }

  lemma BereftIsAtRest()
    ensures AtRest(Bereft()) && ChildIsGone(Bereft())
    ensures Bereft().host.Reading? && Bereft().main.Looping? && Bereft().routed.Lost?
  {
    hide Pumped;
    PumpedIsOpen(0);
  }

  /** And so does a lost status, with a host that reads. */
  lemma LostStatusHangs() returns (cs: seq<Conn>, ss: seq<Step>)
    ensures Run(cs, ss)
    ensures ChildIsGone(Last(cs)) && !Last(cs).main.Returned? && AtRest(Last(cs))
    ensures Last(cs).host.Reading? && !Last(cs).main.Feeding? && Last(cs).routed.Lost?
  {
    hide Run, Pumped, AtRest;
    cs, ss := StartedIsReached();
    PumpedIsOpen(0);
    cs, ss := Extend(cs, ss, OfWorld(ChildExits(Some(0), None)));
    cs, ss := Extend(cs, ss, OfWorld(Routes(Lost)));
    cs, ss := Extend(cs, ss, OfWorld(ClosePipe(true)));
    cs, ss := Extend(cs, ss, OfWorld(ClosePipe(false)));
    cs, ss := Extend(cs, ss, OfOutPump(Eof));
    cs, ss := Extend(cs, ss, OfErrPump(Eof));
    assert Last(cs) == Bereft();
    BereftIsAtRest();
  }

  // ----- cancellation and the deadline, once everything has come to rest -----

  /**
   A host that is gone gets the child killed, or it was done by itself, except exactly in two
   cases: the connection ended before any thread was started, or its main loop is stuck
   feeding the child.
   */
  lemma LeftRunningIff(cs: seq<Conn>, ss: seq<Step>, i: nat)
    requires Run(cs, ss) && i < |cs| && HasChild(cs[i].main)
    requires cs[i].host.Gone? && AtRest(cs[i])
    ensures
      var c := cs[i];
      !c.seen.killedByMain && !c.flags.done <==>
        c.main.Abandoned? || (c.main.Feeding? && c.stdinStuck && !c.flags.done)
  {
    hide Run;
    RunsAreSafe(cs, ss, i);
    CancellationComesToRest(cs[i]);
  }

  lemma CancellationComesToRest(c: Conn)
    requires Control(c) && Cancellation(c) && HasChild(c.main) && c.host.Gone? && AtRest(c)
    ensures
      !c.seen.killedByMain && !c.flags.done <==>
        c.main.Abandoned? || (c.main.Feeding? && c.stdinStuck && !c.flags.done)
  {
    assert !Enabled(c, OfMain(SendStarted(false)));
    assert !Enabled(c, OfMain(LeaveLoop));
    assert !Enabled(c, OfMain(Fed));
    assert !Enabled(c, OfMain(CheckDone));
    assert !Enabled(c, OfMain(KillGroup));
  }

  /** A deadline that has passed gets the child killed, or it was done by then, if there is a watchdog. */
  lemma DeadlineIsKeptIff(cs: seq<Conn>, ss: seq<Step>, i: nat)
    requires Run(cs, ss) && i < |cs| && HasThreads(cs[i].main)
    requires cs[i].seen.deadlinePassed && AtRest(cs[i])
    ensures
      var c := cs[i];
      !c.seen.killedByWatchdog && !c.flags.done <==> c.watchdog.Unarmed? && !c.flags.done
  {
    hide Run;
    RunsAreSafe(cs, ss, i);
    DeadlineComesToRest(cs[i]);
  }

  lemma DeadlineComesToRest(c: Conn)
    requires Timing(c) && c.seen.deadlinePassed && AtRest(c)
    ensures !c.seen.killedByWatchdog && !c.flags.done <==> c.watchdog.Unarmed? && !c.flags.done
  {
    assert !Enabled(c, OfWatchdog(Expire));
    assert !Enabled(c, OfWatchdog(Check));
    assert !Enabled(c, OfWatchdog(Mark));
    assert !Enabled(c, OfWatchdog(Kill));
  }

  /**
   A host that closes the connection while the child starts: the child runs on, although it
   was to be limited in time, with nothing left that would ever kill it.
   */
  lemma AbandonedChildRunsOn() returns (cs: seq<Conn>, ss: seq<Step>)
    ensures Run(cs, ss) && ss != [] && ss[0] == OfMain(Spawn(7, true))
    ensures Last(cs).main.Abandoned? && Last(cs).child.running && Last(cs).host.Gone? && AtRest(Last(cs))
    ensures !Last(cs).seen.killedByMain && !Last(cs).seen.killedByWatchdog
  {
    var spawned := FRESH.(main := Starting(true), child := Child(7, true, None, None));
    var gone := spawned.(host := Gone);
    var last := gone.(main := Abandoned, lossy := true);
    cs := [FRESH, spawned, gone, last];
    ss := [OfMain(Spawn(7, true)), OfWorld(HostTurns(Gone)), OfMain(SendStarted(false))];
  }
}
