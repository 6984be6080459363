/**
 One exec connection in the guest as a transition system: the connection's main loop, two
 output pumps, the completion thread and the watchdog, together with the child, its pipes,
 the clock and the host. Every step is one atomic action; a run is any interleaving.
 */
module ExecProtocol {
  import opened Options
  import opened Trees
  import opened Framing

  datatype GuestMessage =
    | Started(pid: int)
    | Stdout(data: Bytes)
    | Stderr(data: Bytes)
    | Exit(code: Option<int>, signal: Option<int>)
    | Error(kind: string)

  const SPAWN_FAILED := "spawn-failed"
  const TIMEOUT := "timeout"
  const PROTOCOL := "protocol"

  /** The connection thread: before the child, in its stdin loop or feeding the child, and after it. */
  datatype Main =
    | ReadingRequest | Refused | Starting(timeout: bool) | Abandoned
    | Looping | Feeding | LeftLoop | SawNotDone | Joining | Returned

  datatype Pump = NotStarted | Idle | Holding(data: Bytes) | Finished

  datatype Completion =
    | NoCompletion | Waiting | HasStatus | Flagged | Notified | JoinedOut | Flushed
    | Chose(terminal: GuestMessage) | Wrote | Closed

  datatype Watchdog = Unarmed | Armed | Expired | Doomed | Marked | Stopped

  /** A pipe: everything the child's side ever wrote, and how much of it has been read. */
  datatype Pipe = Pipe(produced: Bytes, taken: nat, closed: bool)

  datatype Child = Child(pid: int, running: bool, code: Option<int>, signal: Option<int>)

  /** The atomic flags, and whether the completion thread has shut the socket down. */
  datatype Flags = Flags(done: bool, timedOut: bool, shut: bool)

  /** History: the clock, and what the main loop saw and did. */
  datatype Seen = Seen(deadlinePassed: bool, doneAtDeadline: bool, shutAtExit: bool, doneAtCheck: bool,
                       killedByMain: bool, killedByWatchdog: bool)

  /** The host's end of the socket: it takes frames, or it is full and not read, or it is closed. */
  datatype Host = Reading | Stalled | Gone

  /**
   What the router makes of the child's exit status: it arrives, or it was evicted before the
   completion thread claimed it, or after that another process of the same pid has died.
   */
  datatype Routed = Own | Lost | Foreign(code: Option<int>, signal: Option<int>)

  /**
   `wire` is what the host can read; `lossy` says that some write or pipe read has failed.
   `ending` says that the host has sent something that ends the stdin loop, `stdinStuck`
   that the child's side holds its stdin open, full and unread.
   */
  datatype Conn = Conn(main: Main, outPump: Pump, errPump: Pump, completion: Completion, watchdog: Watchdog,
                       flags: Flags, wire: seq<GuestMessage>, lossy: bool,
                       out: Pipe, err: Pipe, child: Child, seen: Seen,
                       host: Host, ending: bool, stdinStuck: bool, routed: Routed)

  const FRESH := Conn(ReadingRequest, NotStarted, NotStarted, NoCompletion, Unarmed,
                      Flags(false, false, false), [], false,
                      Pipe([], 0, false), Pipe([], 0, false), Child(0, false, None, None),
                      Seen(false, false, false, false, false, false),
                      Reading, false, false, Own)

  // ----- the socket -----

  /**
   Outcomes of a frame write: it succeeds while the host takes frames, fails once the socket
   is closed or shut down, and blocks, with neither outcome, while the host is stalled.
   */
  predicate Writes(c: Conn, ok: bool) {
    if ok then c.host.Reading? && !c.flags.shut else c.host.Gone? || c.flags.shut
  }

  /** The main loop's blocking read ends its loop. */
  predicate ReadEnds(c: Conn) {
    c.host.Gone? || c.ending || c.flags.shut
  }

  // ----- the connection thread -----

  datatype MainStep =
    | Probe                                       // the host closed without a request
    | Refuse(kind: string, ok: bool)              // a bad request, or a failed spawn
    | Spawn(pid: int, timeout: bool)
    | SendStarted(ok: bool)
    | StdinFrame(empty: bool)
    | Fed                                         // the child's stdin took the data, or is gone
    | LeaveLoop                                   // end of stream, error, or unexpected frame
    | CheckDone
    | KillGroup
    | Return

  /** The child exists, and so do the threads that serve it. */
  predicate HasThreads(m: Main) {
    m.Looping? || m.Feeding? || m.LeftLoop? || m.SawNotDone? || m.Joining? || m.Returned?
  }

  predicate HasChild(m: Main) {
    HasThreads(m) || m.Starting? || m.Abandoned?
  }

  predicate MainEnabled(c: Conn, s: MainStep) {
    match s
    case Probe => c.main.ReadingRequest? && (c.host.Gone? || c.ending)
    // The message of a refusal may also be too long for a frame.
    case Refuse(kind, ok) =>
      c.main.ReadingRequest? && (kind == PROTOCOL || kind == SPAWN_FAILED) && (ok ==> Writes(c, true))
    case Spawn(_, _) => c.main.ReadingRequest?
    case SendStarted(ok) => c.main.Starting? && Writes(c, ok)
    case StdinFrame(_) => c.main.Looping?
    case Fed => c.main.Feeding? && !c.stdinStuck
    case LeaveLoop => c.main.Looping? && ReadEnds(c)
    case CheckDone => c.main.LeftLoop?
    case KillGroup => c.main.SawNotDone?
    case Return => c.main.Joining? && c.completion.Closed?
  }

  /** `write_frame` under the writer lock: one whole frame, or a failure. */
  function Emit(c: Conn, f: GuestMessage, ok: bool): Conn {
    if ok then c.(wire := c.wire + [f]) else c.(lossy := true)
  }

  function MainNext(c: Conn, s: MainStep): Conn
    requires MainEnabled(c, s)
  {
    match s
    case Probe => c.(main := Refused)
    case Refuse(kind, ok) => Emit(c, Error(kind), ok).(main := Refused)
    case Spawn(pid, timeout) => c.(main := Starting(timeout), child := Child(pid, true, None, None))
    case SendStarted(ok) =>
      var sent := Emit(c, Started(c.child.pid), ok);
      if !ok then sent.(main := Abandoned)
      else sent.(main := Looping, outPump := Idle, errPump := Idle, completion := Waiting,
                 watchdog := if c.main.timeout then Armed else Unarmed)
    case StdinFrame(empty) => if empty then c else c.(main := Feeding)
    case Fed => c.(main := Looping)
    case LeaveLoop => c.(main := LeftLoop, seen := c.seen.(shutAtExit := c.flags.shut))
    case CheckDone =>
      c.(main := if c.flags.done then Joining else SawNotDone, seen := c.seen.(doneAtCheck := c.flags.done))
    case KillGroup => c.(main := Joining, seen := c.seen.(killedByMain := true))
    case Return => c.(main := Returned)
  }

  // ----- the pumps -----

  datatype PumpStep =
    | Read(n: nat)
    | Eof
    | ReadFails
    | Send(ok: bool)

  /** One pump with the pipe it drains. */
  predicate PumpEnabled(pump: Pump, pipe: Pipe, s: PumpStep) {
    match s
    case Read(n) => pump.Idle? && 1 <= n <= MAX_CHUNK_LEN && pipe.taken + n <= |pipe.produced|
    case Eof => pump.Idle? && pipe.closed && pipe.taken == |pipe.produced|
    case ReadFails => pump.Idle?
    case Send(_) => pump.Holding?
  }

  function PumpAfter(pump: Pump, pipe: Pipe, s: PumpStep): Pump
    requires PumpEnabled(pump, pipe, s)
  {
    match s
    case Read(n) => Holding(pipe.produced[pipe.taken..pipe.taken + n])
    case Send(ok) => if ok then Idle else Finished
    case _ => Finished
  }

  function PipeAfter(pipe: Pipe, s: PumpStep): Pipe {
    if s.Read? then pipe.(taken := pipe.taken + s.n) else pipe
  }

  function Tag(isOut: bool, data: Bytes): GuestMessage {
    if isOut then Stdout(data) else Stderr(data)
  }

  /** What a pump step leaves on the wire. */
  function Sent(c: Conn, isOut: bool, pump: Pump, s: PumpStep): Conn
    requires s.Send? ==> pump.Holding?
  {
    match s
    case Send(ok) => Emit(c, Tag(isOut, pump.data), ok)
    case ReadFails => c.(lossy := true)
    case _ => c
  }

  // ----- the completion thread -----

  /** The frame for the status that `wait_child` returned. */
  function ExitFrame(c: Conn): GuestMessage {
    if c.routed.Foreign? then Exit(c.routed.code, c.routed.signal) else Exit(c.child.code, c.child.signal)
  }

  datatype CompletionStep =
    | TakeStatus | SetDone | Notify | JoinOut | JoinErr | ChooseTerminal | SendTerminal(ok: bool) | ShutDown

  predicate CompletionEnabled(c: Conn, s: CompletionStep) {
    match s
    case TakeStatus => c.completion.Waiting? && !c.child.running && !c.routed.Lost?
    case SetDone => c.completion.HasStatus?
    case Notify => c.completion.Flagged?
    case JoinOut => c.completion.Notified? && c.outPump.Finished?
    case JoinErr => c.completion.JoinedOut? && c.errPump.Finished?
    case ChooseTerminal => c.completion.Flushed?
    case SendTerminal(ok) => c.completion.Chose? && Writes(c, ok)
    case ShutDown => c.completion.Wrote?
  }

  function CompletionNext(c: Conn, s: CompletionStep): Conn
    requires CompletionEnabled(c, s)
  {
    match s
    case TakeStatus => c.(completion := HasStatus)
    case SetDone => c.(completion := Flagged, flags := c.flags.(done := true))
    case Notify => c.(completion := Notified)
    case JoinOut => c.(completion := JoinedOut)
    case JoinErr => c.(completion := Flushed)
    case ChooseTerminal =>
      c.(completion := Chose(if c.flags.timedOut then Error(TIMEOUT) else ExitFrame(c)))
    case SendTerminal(ok) => Emit(c, c.completion.terminal, ok).(completion := Wrote)
    case ShutDown => c.(completion := Closed, flags := c.flags.(shut := true))
  }

  // ----- the watchdog -----

  datatype WatchdogStep = Expire | Stand | Check | Mark | Kill

  predicate WatchdogEnabled(c: Conn, s: WatchdogStep) {
    match s
    case Expire => c.watchdog.Armed? && c.seen.deadlinePassed
    case Stand => c.watchdog.Armed? && c.flags.done && !c.completion.Flagged?   // the message has been sent
    case Check => c.watchdog.Expired?
    case Mark => c.watchdog.Doomed?
    case Kill => c.watchdog.Marked?
  }

  function WatchdogNext(c: Conn, s: WatchdogStep): Conn
    requires WatchdogEnabled(c, s)
  {
    match s
    case Expire => c.(watchdog := Expired)
    case Stand => c.(watchdog := Stopped)
    case Check => c.(watchdog := if c.flags.done then Stopped else Doomed)
    case Mark => c.(watchdog := Marked, flags := c.flags.(timedOut := true))
    case Kill => c.(watchdog := Stopped, seen := c.seen.(killedByWatchdog := true))
  }

  // ----- the child's side and the clock -----

  datatype WorldStep =
    | Produce(isOut: bool, data: Bytes)
    | ClosePipe(isOut: bool)
    | ChildExits(code: Option<int>, signal: Option<int>)
    | Deadline
    | HostTurns(host: Host)
    | HostEnds
    | StdinTurns(stuck: bool)
    | Routes(to: Routed)

  predicate WorldEnabled(c: Conn, s: WorldStep) {
    match s
    case Produce(o, _) => HasChild(c.main) && !(if o then c.out else c.err).closed
    case ClosePipe(o) => HasChild(c.main) && !(if o then c.out else c.err).closed
    case ChildExits(_, _) => c.child.running
    case Deadline => HasThreads(c.main) && !c.seen.deadlinePassed
    case HostTurns(_) => !c.host.Gone?
    case HostEnds => true
    case StdinTurns(_) => true
    // While the status is awaited: it gets lost, and then another one may come instead.
    case Routes(to) =>
      c.completion.Waiting? && !c.child.running && (if to.Lost? then c.routed.Own? else to.Foreign? && c.routed.Lost?)
  }

  function WorldNext(c: Conn, s: WorldStep): Conn
    requires WorldEnabled(c, s)
  {
    match s
    case Produce(o, data) =>
      if o then c.(out := c.out.(produced := c.out.produced + data))
      else c.(err := c.err.(produced := c.err.produced + data))
    case ClosePipe(o) =>
      if o then c.(out := c.out.(closed := true)) else c.(err := c.err.(closed := true))
    case ChildExits(code, signal) => c.(child := Child(c.child.pid, false, code, signal))
    case Deadline => c.(seen := c.seen.(deadlinePassed := true, doneAtDeadline := c.flags.done))
    case HostTurns(host) => c.(host := host)
    case HostEnds => c.(ending := true)
    case StdinTurns(stuck) => c.(stdinStuck := stuck)
    case Routes(to) => c.(routed := to)
  }

  // ----- interleavings -----

  datatype Step =
    | OfMain(m: MainStep)
    | OfOutPump(p: PumpStep)
    | OfErrPump(p: PumpStep)
    | OfCompletion(k: CompletionStep)
    | OfWatchdog(w: WatchdogStep)
    | OfWorld(v: WorldStep)

  predicate Enabled(c: Conn, s: Step) {
    match s
    case OfMain(m) => MainEnabled(c, m)
    case OfOutPump(p) => PumpEnabled(c.outPump, c.out, p) && (p.Send? ==> Writes(c, p.ok))
    case OfErrPump(p) => PumpEnabled(c.errPump, c.err, p) && (p.Send? ==> Writes(c, p.ok))
    case OfCompletion(k) => CompletionEnabled(c, k)
    case OfWatchdog(w) => WatchdogEnabled(c, w)
    case OfWorld(v) => WorldEnabled(c, v)
  }

  function Next(c: Conn, s: Step): Conn
    requires Enabled(c, s)
  {
    match s
    case OfMain(m) => MainNext(c, m)
    case OfOutPump(p) =>
      Sent(c, true, c.outPump, p).(outPump := PumpAfter(c.outPump, c.out, p), out := PipeAfter(c.out, p))
    case OfErrPump(p) =>
      Sent(c, false, c.errPump, p).(errPump := PumpAfter(c.errPump, c.err, p), err := PipeAfter(c.err, p))
    case OfCompletion(k) => CompletionNext(c, k)
    case OfWatchdog(w) => WatchdogNext(c, w)
    case OfWorld(v) => WorldNext(c, v)
  }

  ghost predicate Run(cs: seq<Conn>, ss: seq<Step>) {
    && |cs| == |ss| + 1 && cs[0] == FRESH
    && forall i | 0 <= i < |ss| :: Enabled(cs[i], ss[i]) && cs[i + 1] == Next(cs[i], ss[i])
  }

  // ----- what the host can observe -----

  predicate IsOutput(f: GuestMessage) {
    f.Stdout? || f.Stderr?
  }

  predicate IsTerminal(f: GuestMessage) {
    f.Exit? || f.Error?
  }

  /** A started exchange that has no terminal frame yet. */
  predicate Open(w: seq<GuestMessage>) {
    w != [] && w[0].Started? && forall i | 1 <= i < |w| :: IsOutput(w[i])
  }

  /** A started exchange with exactly one terminal frame, at its end. */
  predicate Complete(w: seq<GuestMessage>) {
    |w| > 1 && Open(w[..|w| - 1]) && IsTerminal(w[|w| - 1])
  }

  /** Prefixes of a lone error, or of `Started (Stdout|Stderr)* (Exit|Error)`. */
  predicate LegalFrames(w: seq<GuestMessage>) {
    w == [] || (|w| == 1 && w[0].Error?) || Open(w) || Complete(w)
  }
}
