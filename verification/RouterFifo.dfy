/**
 Runs in which the kernel does not reuse a pid that the router still knows about: eviction
 is first-in first-out, and statuses reach the connection whose child they belong to.
 */
module RouterFifo {
  import opened Router
  import opened RouterHistory

  /** A pid is not handed out again while it is in any of the three tables. */
  predicate NoReuse(h: History, e: Event) {
    e.Fork? ==> e.pid !in h.table.waiters && e.pid !in h.table.orphans && e.pid !in h.table.order
  }

  ghost predicate FreshRun(hs: seq<History>, es: seq<Event>) {
    Run(hs, es) && forall i | 0 <= i < |es| :: NoReuse(hs[i], es[i])
  }

  ghost predicate NoDuplicates<T>(s: seq<T>) {
    forall i, j | 0 <= i < j < |s| :: s[i] != s[j]
  }

  // ----- the queue is a suffix of the parking log -----

  /** The queue holds the pids of `log`, and whatever is parked is the logged status. */
  ghost predicate Aligned(orphans: map<int, Status>, order: seq<int>, log: seq<Status>) {
    && |order| == |log|
    && (forall j | 0 <= j < |log| :: order[j] == log[j].pid)
    && NoDuplicates(order)
    && Queued(orphans, order)
    && (forall j | 0 <= j < |log| :: order[j] in orphans ==> orphans[order[j]] == log[j])
  }

  lemma AlignedIsQueued(orphans: map<int, Status>, order: seq<int>, log: seq<Status>)
    requires Aligned(orphans, order, log)
    ensures |order| == |log| && Queued(orphans, order)
  {
  }

  lemma {:induction false} QueueIsLongEnough(orphans: map<int, Status>, order: seq<int>)
    requires Queued(orphans, order)
    ensures |orphans| <= |order|
    decreases order
  {
    if orphans != map[] {
      assert |orphans| > 0;
      QueueIsNotEmpty(orphans, order);
      QueueIsLongEnough(orphans - {order[0]}, order[1..]);
    }
  }

  lemma AlignedTail(orphans: map<int, Status>, order: seq<int>, log: seq<Status>)
    requires Aligned(orphans, order, log) && order != []
    ensures Aligned(orphans - {order[0]}, order[1..], log[1..])
  {
    forall p | p in orphans && p != order[0]
      ensures p in order[1..]
    {
      assert p in order;
    }
  }

  lemma TrimNothing(orphans: map<int, Status>, order: seq<int>)
    requires |orphans| <= MAX_ORPHANS
    ensures Trim(orphans, order) == Trimmed(orphans, order, [])
  {
  }

  lemma TrimOnce(orphans: map<int, Status>, order: seq<int>)
    requires |orphans| > MAX_ORPHANS && order != []
    ensures
      var rest := Trim(orphans - {order[0]}, order[1..]);
      Trim(orphans, order) == rest.(lost := (if order[0] in orphans then [orphans[order[0]]] else []) + rest.lost)
  {
  }

  /** Evicting from the front: the oldest entry is stale, or its status is the one to go. */
  lemma EvictFront(orphans: map<int, Status>, order: seq<int>, log: seq<Status>)
    requires Aligned(orphans, order, log) && |orphans| == MAX_ORPHANS + 1
    ensures order != [] && Aligned(orphans - {order[0]}, order[1..], log[1..])
    ensures order[0] in orphans ==>
      Trim(orphans, order) == Trimmed(orphans - {order[0]}, order[1..], [log[0]])
      && |orphans - {order[0]}| == MAX_ORPHANS
    ensures order[0] !in orphans ==> Trim(orphans, order) == Trim(orphans, order[1..])
  {
    hide Trim, Aligned, Queued;
    AlignedIsQueued(orphans, order, log);
    QueueIsNotEmpty(orphans, order);
    AlignedTail(orphans, order, log);
    TrimOnce(orphans, order);
    var without := orphans - {order[0]};
    if order[0] in orphans {
      OldestIsLogged(orphans, order, log);
      assert without.Keys == orphans.Keys - {order[0]};
      TrimNothing(without, order[1..]);
      assert [log[0]] + [] == [log[0]];
    } else {
      assert without == orphans;
      assert forall lost: seq<Status> :: [] + lost == lost;
    }
  }

  lemma OldestIsLogged(orphans: map<int, Status>, order: seq<int>, log: seq<Status>)
    requires Aligned(orphans, order, log) && order != [] && order[0] in orphans
    ensures orphans[order[0]] == log[0]
  {
    hide Queued, NoDuplicates;
  }

  /** One arrival over the cap loses at most one status: the oldest one still parked. */
  lemma {:induction false} TrimIsFifo(orphans: map<int, Status>, order: seq<int>, log: seq<Status>) returns (n: nat)
    requires Aligned(orphans, order, log) && |orphans| <= MAX_ORPHANS + 1
    ensures
      var t := Trim(orphans, order);
      && n <= |log| && t.order == order[n..] && Aligned(t.orphans, t.order, log[n..])
      && (t.lost == [] || (n > 0 && t.lost == [log[n - 1]] && |t.orphans| == MAX_ORPHANS))
    decreases order
  {
    hide Trim, Aligned, Queued;
    AlignedIsQueued(orphans, order, log);
    if |orphans| <= MAX_ORPHANS {
      n := 0;
      TrimNothing(orphans, order);
      assert order[0..] == order && log[0..] == log;
    } else {
      EvictFront(orphans, order, log);
      if order[0] in orphans {
        n := 1;
      } else {
        assert orphans - {order[0]} == orphans;
        var m := TrimIsFifo(orphans, order[1..], log[1..]);
        n := m + 1;
        assert order[1..][m..] == order[n..] && log[1..][m..] == log[n..];
        assert m > 0 ==> log[1..][m - 1] == log[n - 1];
      }
    }
  }

  // ----- eviction order over whole runs -----

  /** How much of the parking log has left the queue. */
  function Dequeued(h: History): int {
    |h.parkLog| - |h.table.order|
  }

  /** The queue is a suffix of the parking log and holds no live process's pid. */
  ghost predicate QueueIsLogSuffix(h: History) {
    && 0 <= Dequeued(h)
    && Aligned(h.table.orphans, h.table.order, h.parkLog[Dequeued(h)..])
    && (forall p | p in h.alive :: p !in h.table.order)
    && h.overwritten == {}
  }

  /** Whatever was evicted had left the queue, long after it was parked. */
  ghost predicate EvictedInOrder(h: History) {
    && NoDuplicates(h.parkLog)
    && (forall s | s in h.parkLog :: WasReaped(h, s))
    && (forall s | s in h.evicted :: s in h.parkLog)
    && (forall i | 0 <= i < |h.parkLog| && h.parkLog[i] in h.evicted ::
          i < Dequeued(h) && i + MAX_ORPHANS < |h.parkLog|)
  }

  ghost predicate FirstInFirstOut(h: History) {
    QueueIsLogSuffix(h) && EvictedInOrder(h)
  }

  lemma ParkedIsAligned(h: History, s: Status)
    requires Sound(h) && QueueIsLogSuffix(h) && Enabled(h, Reap(s)) && s.pid !in h.table.waiters
    ensures s.pid !in h.table.orphans
    ensures Aligned(Park(h.table, s).orphans, Park(h.table, s).order, h.parkLog[Dequeued(h)..] + [s])
    ensures |Park(h.table, s).orphans| <= MAX_ORPHANS + 1
  {
    assert s.pid !in h.table.order;
    assert s.pid !in h.table.orphans;
    var order, log := h.table.order, h.parkLog[Dequeued(h)..];
    forall j | 0 <= j < |order| + 1
      ensures (order + [s.pid])[j] == (log + [s])[j].pid
    {
    }
    forall p | p in h.table.orphans[s.pid := s]
      ensures p in order + [s.pid]
    {
      assert p == s.pid || p in order;
    }
  }

  /** No live process's pid gets into the queue. */
  lemma ParkedQueueIsFree(h: History, s: Status)
    requires QueueIsLogSuffix(h) && Enabled(h, Reap(s)) && s.pid !in h.table.waiters
    requires s.pid !in h.table.orphans
    ensures forall p | p in Next(h, Reap(s)).alive :: p !in Park(h.table, s).order
    ensures Next(h, Reap(s)).overwritten == {}
  {
    hide Trim, Aligned;
  }

  /** Parking one status drops the first `n` entries of the queue, and at most one status. */
  ghost predicate Drops(h: History, s: Status, n: nat)
    requires 0 <= Dequeued(h)
  {
    var log := h.parkLog[Dequeued(h)..] + [s];
    var t := Trim(Park(h.table, s).orphans, Park(h.table, s).order);
    && n <= |log|
    && |t.order| == |log| - n
    && (t.lost == [] || (n > 0 && t.lost == [log[n - 1]] && |t.order| >= MAX_ORPHANS))
  }

  /** What parking leaves behind. */
  lemma ParkedHistory(h: History, s: Status)
    requires Enabled(h, Reap(s)) && s.pid !in h.table.waiters && s.pid !in h.table.orphans
    ensures
      var t, after := Trim(Park(h.table, s).orphans, Park(h.table, s).order), Next(h, Reap(s));
      && after.table.orphans == t.orphans && after.table.order == t.order
      && after.parkLog == h.parkLog + [s]
      && after.overwritten == h.overwritten && after.alive == h.alive - {s.pid}
  {
    hide Trim;
  }

  lemma ParkKeepsSuffix(h: History, s: Status) returns (n: nat)
    requires Sound(h) && QueueIsLogSuffix(h) && Enabled(h, Reap(s)) && s.pid !in h.table.waiters
    ensures QueueIsLogSuffix(Next(h, Reap(s)))
    ensures 0 <= Dequeued(h) && Drops(h, s, n)
  {
    hide Trim, Park, EachHasOneFate, Aligned, Queued, WellFormed, StatusesAreOfTheDead, Enabled, Next;
    ParkedIsAligned(h, s);
    ParkedHistory(h, s);
    ParkedQueueIsFree(h, s);
    var after := Next(h, Reap(s));
    var parked := Park(h.table, s);
    var log := h.parkLog[Dequeued(h)..] + [s];
    n := TrimIsFifo(parked.orphans, parked.order, log);
    var t := Trim(parked.orphans, parked.order);
    AlignedIsQueued(t.orphans, t.order, log[n..]);
    AlignedIsQueued(parked.orphans, parked.order, log);
    QueueIsLongEnough(t.orphans, t.order);
    assert Dequeued(after) == Dequeued(h) + n;
    assert after.parkLog[Dequeued(after)..] == log[n..];
    assert forall p | p in t.order :: p in parked.order;
  }

  /** The status that just left the queue is older than everything still parked. */
  lemma ParkEvictsInOrder(h: History, s: Status, n: nat)
    requires 0 <= Dequeued(h) && EvictedInOrder(h) && StatusesAreOfTheDead(h)
    requires Enabled(h, Reap(s)) && s.pid !in h.table.waiters && s.pid !in h.table.orphans
    requires Drops(h, s, n)
    ensures EvictedInOrder(Next(h, Reap(s)))
  {
    hide Trim;
    var after := Next(h, Reap(s));
    var log := h.parkLog[Dequeued(h)..] + [s];
    var t := Trim(Park(h.table, s).orphans, Park(h.table, s).order);
    assert !WasReaped(h, s) && s !in h.parkLog && s !in h.evicted;
    assert NoDuplicates(after.parkLog);
    assert Dequeued(after) == Dequeued(h) + n;
    if t.lost != [] {
      var gone := Dequeued(h) + n - 1;
      assert after.parkLog[gone] == log[n - 1];
      assert after.evicted == h.evicted + {after.parkLog[gone]};
    } else {
      assert after.evicted == h.evicted;
    }
    forall i | 0 <= i < |after.parkLog| && after.parkLog[i] in h.evicted
      ensures i < Dequeued(h) && i + MAX_ORPHANS < |h.parkLog|
    {
      assert i < |h.parkLog| ==> after.parkLog[i] == h.parkLog[i];
    }
  }

  lemma DeliveryIsFifo(h: History, s: Status)
    requires StatusesAreOfTheDead(h) && FirstInFirstOut(h) && Enabled(h, Reap(s)) && s.pid in h.table.waiters
    ensures FirstInFirstOut(Next(h, Reap(s)))
  {
    hide Aligned, Trim;
    assert Next(h, Reap(s)).table == h.table.(waiters := h.table.waiters - {s.pid});
  }

  lemma ReapIsFifo(h: History, s: Status)
    requires Sound(h) && FirstInFirstOut(h) && Enabled(h, Reap(s))
    ensures FirstInFirstOut(Next(h, Reap(s)))
  {
    hide EachHasOneFate, WellFormed, Aligned, Trim;
    ReapKeepsStatuses(h, s);
    if s.pid in h.table.waiters {
      DeliveryIsFifo(h, s);
    } else {
      hide EvictedInOrder, QueueIsLogSuffix, Drops;
      ParkedIsAligned(h, s);
      var n := ParkKeepsSuffix(h, s);
      ParkEvictsInOrder(h, s, n);
    }
  }

  lemma ClaimIsFifo(h: History, child: nat)
    requires FirstInFirstOut(h) && Enabled(h, Claim(child))
    ensures FirstInFirstOut(Next(h, Claim(child)))
  {
    var after := Next(h, Claim(child));
    assert after.parkLog == h.parkLog && after.table.order == h.table.order;
    assert after.reaped == h.reaped;
  }

  lemma ForkIsFifo(h: History, child: nat, pid: int)
    requires FirstInFirstOut(h) && Enabled(h, Fork(child, pid)) && NoReuse(h, Fork(child, pid))
    ensures FirstInFirstOut(Next(h, Fork(child, pid)))
  {
    hide Aligned;
  }

  lemma StartIsFifo()
    ensures FirstInFirstOut(Start())
  {
    hide Aligned;
    assert Aligned(map[], [], []) by {
      NothingIsAligned();
    }
    assert Start().parkLog[0..] == [];
  }

  lemma NothingIsAligned()
    ensures Aligned(map[], [], [])
  {
  }

  lemma {:induction false} FreshRunsAreFifo(hs: seq<History>, es: seq<Event>, i: nat)
    requires FreshRun(hs, es) && i < |hs|
    ensures Sound(hs[i]) && FirstInFirstOut(hs[i])
  {
    hide Sound, FirstInFirstOut, Enabled, Next, NoReuse;
    RunsAreSound(hs, es, i);
    if i > 0 {
      RunsAreSound(hs, es, i - 1);
      FreshRunsAreFifo(hs, es, i - 1);
      match es[i - 1]
      case Fork(child, pid) => ForkIsFifo(hs[i - 1], child, pid);
      case Reap(s) => ReapIsFifo(hs[i - 1], s);
      case Claim(child) => ClaimIsFifo(hs[i - 1], child);
    } else {
      StartIsFifo();
    }
  }

  /**
   The eviction policy: a status is evicted only after `MAX_ORPHANS` later ones have been
   parked, and never while an older one is still parked.
   */
  lemma EvictsOnlyTheOldest(hs: seq<History>, es: seq<Event>, n: nat, i: nat, j: nat)
    requires FreshRun(hs, es) && n < |hs|
    requires i < |hs[n].parkLog| && hs[n].parkLog[i] in hs[n].evicted
    requires j < |hs[n].parkLog| && IsParked(hs[n].table.orphans, hs[n].parkLog[j])
    ensures i + 4096 < |hs[n].parkLog|
    ensures i < j
  {
    FreshRunsAreFifo(hs, es, n);
    var h := hs[n];
    var s := h.parkLog[j];
    var k := Dequeued(h);
    assert s.pid in h.table.order;
    var m :| 0 <= m < |h.table.order| && h.table.order[m] == s.pid;
    assert h.parkLog[k..][m] == h.parkLog[k + m] == s;
  }

  // ----- statuses reach their owners -----

  predicate OwnDelivery(h: History, c: nat) {
    c in h.reaped && Delivery(c, h.reaped[c]) in h.delivered
  }

  /** Every delivery is the waiter's own status, and every claim for a dead process was delivered. */
  ghost predicate AnsweredRightly(h: History) {
    && (forall d | d in h.delivered :: d.status.child == d.waiter)
    && (forall c | c in h.claimed && c in h.reaped :: OwnDelivery(h, c))
  }

  /** No connection has claimed a status that had been evicted. */
  ghost predicate ClaimedInTime(h: History) {
    forall c | c in h.claimed && c in h.reaped :: h.reaped[c] !in h.evicted
  }

  predicate WaitsAlive(h: History, c: nat) {
    c in h.pidOf && h.pidOf[c] in h.alive && h.alive[h.pidOf[c]] == c
    && h.pidOf[c] in h.table.waiters && h.table.waiters[h.pidOf[c]] == c
  }

  predicate NotYetClaimed(h: History, c: nat)
    requires c in h.pidOf
  {
    || (h.pidOf[c] in h.alive && h.alive[h.pidOf[c]] == c)
    || (c in h.reaped && (IsParked(h.table.orphans, h.reaped[c]) || h.reaped[c] in h.evicted))
  }

  /** Every claim so far was, or will be, answered rightly, and no live pid is parked. */
  ghost predicate RightlyOwned(h: History) {
    && (forall d | d in h.delivered :: d.status.child == d.waiter)
    && (forall p | p in h.table.waiters :: p in h.alive && h.alive[p] == h.table.waiters[p])
    && (forall p | p in h.table.waiters :: h.table.waiters[p] in h.claimed)
    && (forall c | c in h.claimed :: WaitsAlive(h, c) || OwnDelivery(h, c))
    && (forall c | c in h.pidOf && c !in h.claimed :: NotYetClaimed(h, c))
    && h.alive.Keys !! h.table.orphans.Keys
  }

  lemma ForkKeepsOwners(h: History, child: nat, pid: int)
    requires Sound(h) && RightlyOwned(h) && Enabled(h, Fork(child, pid)) && NoReuse(h, Fork(child, pid))
    ensures RightlyOwned(Next(h, Fork(child, pid)))
  {
    hide EachHasOneFate, WellFormed;
  }

  lemma DeliveryKeepsOwners(h: History, s: Status)
    requires Sound(h) && RightlyOwned(h) && Enabled(h, Reap(s)) && s.pid in h.table.waiters
    ensures RightlyOwned(Next(h, Reap(s)))
  {
    hide EachHasOneFate, Trim, WellFormed;
    var after := Next(h, Reap(s));
    forall d | d in after.delivered
      ensures d.status.child == d.waiter
    {
      assert d in h.delivered || d == Delivery(h.table.waiters[s.pid], s);
    }
    forall c | c in after.claimed
      ensures WaitsAlive(after, c) || OwnDelivery(after, c)
    {
      assert Delivery(s.child, s) in after.delivered;
    }
  }

  lemma ParkKeepsOwners(h: History, s: Status)
    requires Sound(h) && RightlyOwned(h) && Enabled(h, Reap(s)) && s.pid !in h.table.waiters
    ensures RightlyOwned(Next(h, Reap(s)))
  {
    hide EachHasOneFate, Trim, WellFormed;
    var after := Next(h, Reap(s));
    var parked := Park(h.table, s);
    ParkedByPid(h.table);
    ParkedOrLost(h, s);
    forall c | c in after.pidOf && c !in after.claimed
      ensures NotYetClaimed(after, c)
    {
      assert NotYetClaimed(h, c);
      if c != s.child && c in h.reaped && IsParked(h.table.orphans, h.reaped[c]) {
        assert h.reaped[c].pid != s.pid;
        assert IsParked(parked.orphans, h.reaped[c]);
      }
    }
  }

  /** What is parked at a step stays parked or is evicted by it. */
  lemma ParkedOrLost(h: History, s: Status)
    requires Sound(h) && Enabled(h, Reap(s)) && s.pid !in h.table.waiters
    ensures
      var after, parked := Next(h, Reap(s)), Park(h.table, s).orphans;
      && (forall x: Status | IsParked(parked, x) :: IsParked(after.table.orphans, x) || x in after.evicted)
      && after.table.orphans.Keys <= parked.Keys
  {
    hide EachHasOneFate, Trim, WellFormed, StatusesAreOfTheDead;
    var parked := Park(h.table, s);
    ParkedByPid(h.table);
    forall x: Status | IsParked(parked.orphans, x)
      ensures IsParked(Next(h, Reap(s)).table.orphans, x) || x in Next(h, Reap(s)).evicted
    {
      TrimSplits(parked.orphans, parked.order, x);
    }
    TrimOnlyRemoves(parked.orphans, parked.order);
  }

  lemma {:induction false} TrimOnlyRemoves(orphans: map<int, Status>, order: seq<int>)
    ensures Trim(orphans, order).orphans.Keys <= orphans.Keys
    decreases order
  {
    if |orphans| > MAX_ORPHANS && order != [] {
      TrimOnlyRemoves(orphans - {order[0]}, order[1..]);
    }
  }

  lemma ClaimKeepsOwners(h: History, child: nat)
    requires Sound(h) && RightlyOwned(h) && Enabled(h, Claim(child))
    requires ClaimedInTime(Next(h, Claim(child)))
    ensures RightlyOwned(Next(h, Claim(child)))
  {
    hide EachHasOneFate, WellFormed;
    var after, pid := Next(h, Claim(child)), h.pidOf[child];
    assert NotYetClaimed(h, child) && child in after.claimed;
    if pid in h.table.orphans {
      assert h.table.orphans[pid] == h.reaped[child];
      forall d | d in after.delivered
        ensures d.status.child == d.waiter
      {
        assert d in h.delivered || d == Delivery(child, h.table.orphans[pid]);
      }
      assert Delivery(child, h.table.orphans[pid]) in after.delivered;
    }
    forall c | c in after.claimed
      ensures WaitsAlive(after, c) || OwnDelivery(after, c)
    {
      if c != child {
        assert WaitsAlive(h, c) || OwnDelivery(h, c);
      }
    }
  }

  lemma InTimeBefore(h: History, e: Event)
    requires Sound(h) && Enabled(h, e) && ClaimedInTime(Next(h, e))
    ensures ClaimedInTime(h)
  {
    hide EachHasOneFate, WellFormed, Trim;
    var after := Next(h, e);
    assert h.evicted <= after.evicted && h.claimed <= after.claimed;
    assert forall c | c in h.reaped :: c in after.reaped && after.reaped[c] == h.reaped[c];
  }

  lemma {:induction false} TimelyRunsAreOwned(hs: seq<History>, es: seq<Event>, i: nat)
    requires FreshRun(hs, es) && i < |hs| && ClaimedInTime(hs[i])
    ensures RightlyOwned(hs[i])
  {
    hide Sound, RightlyOwned, ClaimedInTime, AnsweredRightly, Enabled, Next, NoReuse;
    if i == 0 {
      StartIsOwned();
    } else {
      var h, e := hs[i - 1], es[i - 1];
      RunsAreSound(hs, es, i - 1);
      InTimeBefore(h, e);
      TimelyRunsAreOwned(hs, es, i - 1);
      match e {
        case Fork(child, pid) => ForkKeepsOwners(h, child, pid);
        case Reap(s) =>
          if s.pid in h.table.waiters {
            DeliveryKeepsOwners(h, s);
          } else {
            ParkKeepsOwners(h, s);
          }
        case Claim(child) => ClaimKeepsOwners(h, child);
      }
    }
  }

  lemma StartIsOwned()
    ensures RightlyOwned(Start())
  {
  }

  /**
   Without pid reuse, `wait_child` answers every connection with the status of its own
   child, whichever of reaping and claiming came first, exactly as long as no connection
   claims a status that was evicted before.
   */
  lemma AnsweredRightlyIffInTime(hs: seq<History>, es: seq<Event>, i: nat)
    requires FreshRun(hs, es) && i < |hs|
    ensures AnsweredRightly(hs[i]) <==> ClaimedInTime(hs[i])
  {
    hide WellFormed, Run;
    var h := hs[i];
    RunsAreSound(hs, es, i);
    if ClaimedInTime(h) {
      TimelyRunsAreOwned(hs, es, i);
    }
    if AnsweredRightly(h) {
      forall c | c in h.claimed && c in h.reaped
        ensures h.reaped[c] !in h.evicted
      {
        assert OwnDelivery(h, c);
        DeliveredIsNotEvicted(h, c);
      }
    }
  }

  lemma StepKeepsEvicted(h: History, e: Event, c: nat)
    requires StatusesAreOfTheDead(h) && Enabled(h, e)
    requires c in h.reaped && h.reaped[c] in h.evicted
    ensures c in Next(h, e).reaped && Next(h, e).reaped[c] == h.reaped[c] && h.reaped[c] in Next(h, e).evicted
  {
    hide Trim;
  }

  lemma {:induction false} EvictedStaysEvicted(hs: seq<History>, es: seq<Event>, i: nat, j: nat, c: nat)
    requires Run(hs, es) && i <= j < |hs|
    requires c in hs[i].reaped && hs[i].reaped[c] in hs[i].evicted
    ensures c in hs[j].reaped && hs[j].reaped[c] in hs[j].evicted
  {
    hide Enabled, Next, EachHasOneFate, WellFormed, StatusesAreOfTheDead;
    if i < j {
      EvictedStaysEvicted(hs, es, i, j - 1, c);
      RunsAreSound(hs, es, j - 1);
      StepKeepsEvicted(hs[j - 1], es[j - 1], c);
    }
  }

  lemma DeliveredIsNotEvicted(h: History, c: nat)
    requires Sound(h) && OwnDelivery(h, c)
    ensures h.reaped[c] !in h.evicted
  {
    hide WellFormed, StatusesAreOfTheDead;
    assert Delivery(c, h.reaped[c]).status in DeliveredSet(h.delivered);
    assert WasReaped(h, h.reaped[c]);
  }

  /** A status that was evicted never reaches its connection, even when pids are reused. */
  lemma EvictedNeverArrives(hs: seq<History>, es: seq<Event>, i: nat, j: nat, c: nat)
    requires Run(hs, es) && i <= j < |hs|
    requires c in hs[i].reaped && hs[i].reaped[c] in hs[i].evicted
    ensures !OwnDelivery(hs[j], c)
  {
    hide Run, Sound;
    EvictedStaysEvicted(hs, es, i, j, c);
    RunsAreSound(hs, es, j);
    if OwnDelivery(hs[j], c) {
      DeliveredIsNotEvicted(hs[j], c);
      assert false;
    }
  }

  // ----- claims that come early enough -----

  /** Whoever claims a parked status does so before `MAX_ORPHANS` later ones have been parked. */
  ghost predicate ClaimsComeEarly(hs: seq<History>, es: seq<Event>)
    requires |hs| == |es| + 1
  {
    forall k, j | 0 <= k < |es| && es[k].Claim? && 0 <= j < |hs[k].parkLog| && hs[k].parkLog[j].child == es[k].child ::
      |hs[k].parkLog| <= j + MAX_ORPHANS
  }

  lemma OwnedIsInTime(h: History)
    requires Sound(h) && RightlyOwned(h)
    ensures AnsweredRightly(h) && ClaimedInTime(h)
  {
    forall c | c in h.claimed && c in h.reaped
      ensures OwnDelivery(h, c) && h.reaped[c] !in h.evicted
    {
      assert WaitsAlive(h, c) || OwnDelivery(h, c);
      DeliveredIsNotEvicted(h, c);
    }
  }

  lemma EarlyClaimIsInTime(h: History, child: nat)
    requires Sound(h) && RightlyOwned(h) && FirstInFirstOut(h) && Enabled(h, Claim(child))
    requires forall j | 0 <= j < |h.parkLog| && h.parkLog[j].child == child :: |h.parkLog| <= j + MAX_ORPHANS
    ensures ClaimedInTime(Next(h, Claim(child)))
  {
    OwnedIsInTime(h);
    hide EachHasOneFate, WellFormed, QueueIsLogSuffix;
    assert child in h.reaped ==> h.reaped[child].child == child;
    assert forall j | 0 <= j < |h.parkLog| && h.parkLog[j].child == child :: h.parkLog[j] !in h.evicted;
  }

  /**
   When every claim comes before 4096 later statuses have been parked, every connection is
   answered rightly: something the callers of `wait_child` can see to.
   */
  lemma {:induction false} EarlyClaimsAreAnswered(hs: seq<History>, es: seq<Event>, i: nat)
    requires FreshRun(hs, es) && i < |hs| && ClaimsComeEarly(hs, es)
    ensures RightlyOwned(hs[i]) && AnsweredRightly(hs[i])
  {
    hide Sound, RightlyOwned, ClaimedInTime, AnsweredRightly, Enabled, Next, NoReuse, FirstInFirstOut;
    if i == 0 {
      StartIsOwned();
    } else {
      var h, e := hs[i - 1], es[i - 1];
      RunsAreSound(hs, es, i - 1);
      FreshRunsAreFifo(hs, es, i - 1);
      EarlyClaimsAreAnswered(hs, es, i - 1);
      match e {
        case Fork(child, pid) => ForkKeepsOwners(h, child, pid);
        case Reap(s) =>
          if s.pid in h.table.waiters {
            DeliveryKeepsOwners(h, s);
          } else {
            ParkKeepsOwners(h, s);
          }
        case Claim(child) =>
          EarlyClaimIsInTime(h, child);
          ClaimKeepsOwners(h, child);
      }
    }
    RunsAreSound(hs, es, i);
    OwnedIsInTime(hs[i]);
  }
}
