/** What a connection reports as the outcome: the choice of the terminal frame, and what led to it. */
module ExecOutcome {
  import opened Options
  import opened Trees
  import opened ExecProtocol
  import opened ExecSafety
  import opened ExecEnding

  // ----- the choice of the terminal frame -----

  predicate HasChosen(k: Completion) {
    k.Chose? || k.Wrote? || k.Closed?
  }

  /** The frame for a status and a timeout flag. */
  function Outcome(routed: Routed, child: Child, timedOut: bool): GuestMessage {
    if timedOut then Error("timeout")
    else if routed.Foreign? then Exit(routed.code, routed.signal)
    else Exit(child.code, child.signal)
  }

  /** The frame chosen so far, waiting to be written or, if it got out, at the end of the wire. */
  predicate Reports(c: Conn, f: GuestMessage) {
    && (c.completion.Chose? ==> c.completion.terminal == f)
    && (Complete(c.wire) ==> c.wire[|c.wire| - 1] == f)
  }

  lemma ChoosingReports(c: Conn)
    requires Safe(c) && CompletionEnabled(c, ChooseTerminal)
    ensures Reports(CompletionNext(c, ChooseTerminal), Outcome(c.routed, c.child, c.flags.timedOut))
  {
    hide Cancellation, Timing;
    OpenIsNotComplete(c.wire);
  }

  lemma OpenIsNotComplete(w: seq<GuestMessage>)
    ensures Open(w) ==> !Complete(w)
  {
  }

  lemma SendingReports(c: Conn, ok: bool, f: GuestMessage)
    requires Safe(c) && CompletionEnabled(c, SendTerminal(ok)) && Reports(c, f)
    ensures Reports(CompletionNext(c, SendTerminal(ok)), f)
  {
    hide Cancellation, Timing;
    OpenIsNotComplete(c.wire);
  }

  lemma MainKeepsChoice(c: Conn, m: MainStep)
    requires Control(c) && MainEnabled(c, m) && HasChosen(MainNext(c, m).completion)
    ensures MainNext(c, m).completion == c.completion && MainNext(c, m).wire == c.wire
  {
    hide Writes, ReadEnds;
  }

  lemma CompletionKeepsChoice(c: Conn, k: CompletionStep)
    requires CompletionEnabled(c, k) && HasChosen(CompletionNext(c, k).completion) && !k.ChooseTerminal?
    ensures HasChosen(c.completion)
    ensures !k.SendTerminal? ==>
      CompletionNext(c, k).wire == c.wire
      && (CompletionNext(c, k).completion.Chose? ==> CompletionNext(c, k).completion == c.completion)
  {
    hide Writes;
  }

  lemma WatchdogKeepsChoice(c: Conn, w: WatchdogStep)
    requires WatchdogEnabled(c, w)
    ensures WatchdogNext(c, w).completion == c.completion && WatchdogNext(c, w).wire == c.wire
    ensures WatchdogNext(c, w).main == c.main && WatchdogNext(c, w).child == c.child
    ensures c.flags.timedOut ==> WatchdogNext(c, w).flags.timedOut
    ensures WatchdogNext(c, w).watchdog.Unarmed? <==> c.watchdog.Unarmed?
  {
  }

  /** Nothing but the completion thread touches its choice or the wire after it. */
  lemma OthersKeepChoice(c: Conn, s: Step)
    requires Control(c) && Enabled(c, s) && HasChosen(Next(c, s).completion)
    requires s != OfCompletion(ChooseTerminal)
    ensures HasChosen(c.completion)
    ensures !s.OfCompletion? ==> Next(c, s).completion == c.completion && Next(c, s).wire == c.wire
    ensures s.OfCompletion? && !s.k.SendTerminal? ==>
      Next(c, s).wire == c.wire && (Next(c, s).completion.Chose? ==> Next(c, s).completion == c.completion)
  {
    hide Writes, MainEnabled, MainNext, CompletionEnabled, CompletionNext;
    hide WatchdogEnabled, WatchdogNext, WorldEnabled, WorldNext, PumpAfter, PipeAfter;
    match s
    case OfMain(m) => MainKeepsChoice(c, m);
    case OfCompletion(k) => CompletionKeepsChoice(c, k);
    case OfWatchdog(w) => WatchdogKeepsChoice(c, w);
    case OfWorld(v) => WorldIsElsewhere(c, v);
    case _ =>
  }

  /** The step at which the terminal frame was chosen, and what for. */
  lemma {:induction false} ChoiceWasMade(cs: seq<Conn>, ss: seq<Step>, i: nat) returns (k: nat)
    requires Run(cs, ss) && i < |cs| && HasChosen(cs[i].completion)
    ensures k < i && ss[k] == OfCompletion(ChooseTerminal)
    ensures Reports(cs[i], Outcome(cs[k].routed, cs[k].child, cs[k].flags.timedOut))
  {
    hide Control, Cancellation, Timing, Phases, Enabled, Next, Reports, Outcome, HasChosen;
    assert i > 0 by {
      NothingChosenYet();
    }
    RunsAreSafe(cs, ss, i - 1);
    var c, s := cs[i - 1], ss[i - 1];
    if s == OfCompletion(ChooseTerminal) {
      ChosenNow(c);
      k := i - 1;
    } else {
      OthersKeepChoice(c, s);
      k := ChoiceWasMade(cs, ss, i - 1);
      ChoiceStays(c, s, Outcome(cs[k].routed, cs[k].child, cs[k].flags.timedOut));
    }
  }

  lemma NothingChosenYet()
    ensures !HasChosen(FRESH.completion)
  {
  }

  lemma ChosenNow(c: Conn)
    requires Safe(c) && Enabled(c, OfCompletion(ChooseTerminal))
    ensures Reports(Next(c, OfCompletion(ChooseTerminal)), Outcome(c.routed, c.child, c.flags.timedOut))
  {
    hide Safe, Reports, Outcome, CompletionEnabled, CompletionNext;
    ChoosingReports(c);
  }

  lemma ChoiceStays(c: Conn, s: Step, f: GuestMessage)
    requires Safe(c) && Enabled(c, s) && HasChosen(Next(c, s).completion) && s != OfCompletion(ChooseTerminal)
    requires Reports(c, f)
    ensures Reports(Next(c, s), f)
  {
    hide Control, Cancellation, Timing, Phases, Complete;
    hide CompletionEnabled, CompletionNext, MainNext, WorldNext, WatchdogNext;
    if s.OfCompletion? && s.k.SendTerminal? {
      SendingReports(c, s.k.ok, f);
    } else {
      OthersKeepChoice(c, s);
    }
  }

  /**
   The terminal frame says timeout exactly if the watchdog had marked it by the time it was
   chosen, and else it is the status that was routed to the connection.
   */
  lemma TerminalIsTheOutcome(cs: seq<Conn>, ss: seq<Step>, i: nat) returns (k: nat)
    requires Run(cs, ss) && i < |cs| && Complete(cs[i].wire)
    ensures k < i && ss[k] == OfCompletion(ChooseTerminal)
    ensures
      var last := cs[i].wire[|cs[i].wire| - 1];
      && last == Outcome(cs[k].routed, cs[k].child, cs[k].flags.timedOut)
      && (last == Error("timeout") <==> cs[k].flags.timedOut)
  {
    hide Run;
    FramesAreLegal(cs, ss, i);
    k := ChoiceWasMade(cs, ss, i);
  }

  // ----- a timeout is reported -----

  lemma MainKeepsMark(c: Conn, m: MainStep)
    requires MainEnabled(c, m)
    ensures MainNext(c, m).flags == c.flags
    ensures HasThreads(c.main) ==> MainNext(c, m).completion == c.completion && MainNext(c, m).watchdog == c.watchdog
    ensures HasThreads(c.main) ==> MainNext(c, m).wire == c.wire
    ensures HasThreads(c.main) ==> MainNext(c, m).child == c.child
    ensures HasThreads(c.main) ==> HasThreads(MainNext(c, m).main)
  {
    hide Writes, ReadEnds;
  }

  lemma CompletionStaysChosen(c: Conn, k: CompletionStep)
    requires CompletionEnabled(c, k)
    ensures HasChosen(c.completion) ==> HasChosen(CompletionNext(c, k).completion)
  {
    hide Writes, ExitFrame;
  }

  lemma CompletionMarksNothing(c: Conn, k: CompletionStep)
    requires CompletionEnabled(c, k)
    ensures CompletionNext(c, k).flags.timedOut == c.flags.timedOut
  {
    hide Writes, ExitFrame;
  }

  lemma CompletionKeepsMark(c: Conn, k: CompletionStep)
    requires CompletionEnabled(c, k)
    ensures
      var after := CompletionNext(c, k);
      after.main == c.main && after.child == c.child && after.watchdog == c.watchdog
  {
    hide Writes, ExitFrame;
  }

  lemma StepKeepsMark(c: Conn, s: Step)
    requires Enabled(c, s)
    ensures c.flags.timedOut ==> Next(c, s).flags.timedOut
    ensures HasChosen(c.completion) && HasThreads(c.main) ==> HasChosen(Next(c, s).completion)
  {
    hide Writes, MainEnabled, MainNext, CompletionEnabled, CompletionNext, HasChosen;
    hide WatchdogEnabled, WatchdogNext, WorldEnabled, WorldNext, PumpAfter, PipeAfter;
    match s
    case OfMain(m) => MainKeepsMark(c, m);
    case OfCompletion(k) => {
      CompletionKeepsMark(c, k);
      CompletionMarksNothing(c, k);
      CompletionStaysChosen(c, k);
    }
    case OfWatchdog(w) => WatchdogKeepsChoice(c, w);
    case OfWorld(v) => WorldIsElsewhere(c, v);
    case _ =>
  }

  lemma {:induction false} MarksStay(cs: seq<Conn>, ss: seq<Step>, i: nat, j: nat)
    requires Run(cs, ss) && i <= j < |cs|
    ensures cs[i].flags.timedOut ==> cs[j].flags.timedOut
    ensures HasChosen(cs[i].completion) ==> HasChosen(cs[j].completion)
  {
    hide Enabled, Next, HasChosen, Safe;
    if i < j {
      MarksStay(cs, ss, i, j - 1);
      StepKeepsMark(cs[j - 1], ss[j - 1]);
      RunsAreSafe(cs, ss, j - 1);
      ChosenHasThreads(cs[j - 1]);
    }
  }

  lemma ChosenHasThreads(c: Conn)
    requires Safe(c)
    ensures HasChosen(c.completion) ==> HasThreads(c.main)
  {
  }

  lemma KilledIsMarked(c: Conn, cs: seq<Conn>, ss: seq<Step>, i: nat)
    requires Run(cs, ss) && i < |cs| && c == cs[i]
    ensures c.seen.killedByWatchdog ==> c.flags.timedOut
  {
    hide Run;
    RunsAreSafe(cs, ss, i);
  }

  /** A child that the watchdog killed before the terminal frame was chosen is reported as a timeout. */
  lemma WatchdogKillIsReported(cs: seq<Conn>, ss: seq<Step>, j: nat, i: nat)
    requires Run(cs, ss) && j <= i < |cs| && Complete(cs[i].wire)
    requires cs[j].seen.killedByWatchdog && !HasChosen(cs[j].completion)
    ensures cs[i].wire[|cs[i].wire| - 1] == Error("timeout")
  {
    hide Enabled, Next, HasChosen, Complete, Outcome;
    KilledIsMarked(cs[j], cs, ss, j);
    var k := TerminalIsTheOutcome(cs, ss, i);
    ChosenAfter(cs, ss, k);
    if k < j {
      MarksStay(cs, ss, k + 1, j);
      assert false;
    }
    MarksStay(cs, ss, j, k);
  }

  lemma ChosenAfter(cs: seq<Conn>, ss: seq<Step>, k: nat)
    requires Run(cs, ss) && k < |ss| && ss[k] == OfCompletion(ChooseTerminal)
    ensures HasChosen(cs[k + 1].completion)
  {
  }

  // ----- what was asked for -----

  /** How the child was started, and whether with a watchdog. */
  predicate StartedAs(c: Conn, pid: int, timeout: bool) {
    && c.child.pid == pid
    && (c.main.Starting? ==> c.main.timeout == timeout)
    && (HasThreads(c.main) ==> (c.watchdog.Unarmed? <==> !timeout) && c.wire != [] && c.wire[0] == Started(pid))
  }

  lemma StartingMain(c: Conn, m: MainStep, pid: int, timeout: bool)
    requires Control(c) && Phases(c) && MainEnabled(c, m)
    requires HasChild(c.main) && !HasThreads(c.main) && StartedAs(c, pid, timeout)
    ensures StartedAs(MainNext(c, m), pid, timeout)
  {
    hide Complete, Writes, ReadEnds;
  }

  lemma RunningStays(c: Conn, s: Step, pid: int, timeout: bool)
    requires Enabled(c, s) && HasThreads(c.main) && StartedAs(c, pid, timeout)
    ensures StartedAs(Next(c, s), pid, timeout)
  {
    hide Writes, MainEnabled, MainNext, CompletionEnabled, CompletionNext;
    hide WatchdogEnabled, WatchdogNext, WorldEnabled, WorldNext, PumpAfter, PipeAfter;
    match s
    case OfMain(m) => MainKeepsMark(c, m);
    case OfCompletion(k) => {
      CompletionKeepsMark(c, k);
      CompletionKeepsWire(c, k);
    }
    case OfWatchdog(w) => WatchdogKeepsChoice(c, w);
    case OfWorld(v) => {
      WorldIsElsewhere(c, v);
      WorldKeepsPid(c, v);
    }
    case _ =>
  }

  /** Before there are threads, only the connection thread and the world take steps. */
  lemma OnlyMainStarts(c: Conn, s: Step)
    requires Control(c) && Enabled(c, s) && !HasThreads(c.main)
    ensures s.OfMain? || s.OfWorld?
  {
    hide Writes, MainEnabled, WorldEnabled;
  }

  lemma StartingStays(c: Conn, s: Step, pid: int, timeout: bool)
    requires Safe(c) && Enabled(c, s) && HasChild(c.main) && StartedAs(c, pid, timeout)
    ensures StartedAs(Next(c, s), pid, timeout)
  {
    hide Control, Cancellation, Timing, Phases, MainEnabled, MainNext, WorldEnabled, WorldNext;
    if HasThreads(c.main) {
      RunningStays(c, s, pid, timeout);
    } else {
      OnlyMainStarts(c, s);
      if s.OfMain? {
        StartingMain(c, s.m, pid, timeout);
      } else {
        WorldIsElsewhere(c, s.v);
        WorldKeepsPid(c, s.v);
      }
    }
  }

  lemma WorldKeepsPid(c: Conn, v: WorldStep)
    requires WorldEnabled(c, v)
    ensures WorldNext(c, v).child.pid == c.child.pid
  {
  }

  lemma ChildStays(c: Conn, s: Step)
    requires Enabled(c, s)
    ensures HasChild(Next(c, s).main) ==> HasChild(c.main) || (s.OfMain? && s.m.Spawn?)
  {
    hide WorldNext, WorldEnabled, Writes, ReadEnds;
    if s.OfWorld? {
      WorldIsElsewhere(c, s.v);
    }
  }

  /** The request that a connection with a child goes back to, and that decides about its watchdog. */
  lemma {:induction false} StartWasAsked(cs: seq<Conn>, ss: seq<Step>, i: nat) returns (k: nat)
    requires Run(cs, ss) && i < |cs| && HasChild(cs[i].main)
    ensures k < i && ss[k].OfMain? && ss[k].m.Spawn?
    ensures StartedAs(cs[i], ss[k].m.pid, ss[k].m.timeout)
  {
    hide Safe, Enabled, Next, StartedAs, HasChild;
    assert i > 0 by {
      NoChildYet();
    }
    RunsAreSafe(cs, ss, i - 1);
    ChildStays(cs[i - 1], ss[i - 1]);
    if ss[i - 1].OfMain? && ss[i - 1].m.Spawn? {
      k := i - 1;
      SpawnStarts(cs[i - 1], ss[i - 1].m.pid, ss[i - 1].m.timeout);
    } else {
      k := StartWasAsked(cs, ss, i - 1);
      StartingStays(cs[i - 1], ss[i - 1], ss[k].m.pid, ss[k].m.timeout);
    }
  }

  lemma NoChildYet()
    ensures !HasChild(FRESH.main)
  {
  }

  lemma SpawnStarts(c: Conn, pid: int, timeout: bool)
    requires Enabled(c, OfMain(Spawn(pid, timeout)))
    ensures StartedAs(Next(c, OfMain(Spawn(pid, timeout))), pid, timeout)
  {
  }

  /** A timeout that was asked for is enforced: past it, and at rest, the child was killed or done. */
  lemma DeadlineIsEnforced(cs: seq<Conn>, ss: seq<Step>, i: nat) returns (k: nat)
    requires Run(cs, ss) && i < |cs| && HasThreads(cs[i].main)
    requires cs[i].seen.deadlinePassed && AtRest(cs[i])
    ensures k < i && ss[k].OfMain? && ss[k].m.Spawn?
    ensures !cs[i].seen.killedByWatchdog && !cs[i].flags.done <==> !ss[k].m.timeout && !cs[i].flags.done
  {
    hide Run, AtRest;
    k := StartWasAsked(cs, ss, i);
    DeadlineIsKeptIff(cs, ss, i);
  }
}
