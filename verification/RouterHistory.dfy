/**
 Whole runs of the router: processes are forked and die, the reaper routes their statuses,
 and exec connections claim theirs, in any interleaving.
 */
module RouterHistory {
  import opened Router

  /** A status sent to the connection that waits for the process `waiter`. */
  datatype Delivery = Delivery(waiter: nat, status: Status)

  /** The router's tables and everything that ever happened to each process and status. */
  datatype History = History(
    table: Table,
    alive: map<int, nat>,
    pidOf: map<nat, int>,
    claimed: set<nat>,
    reaped: map<nat, Status>,
    delivered: seq<Delivery>,
    evicted: set<Status>,
    overwritten: set<Status>,
    parkLog: seq<Status>)

  datatype Event =
    | Fork(child: nat, pid: int)
    | Reap(status: Status)
    | Claim(child: nat)

  function Start(): History {
    History(Table(map[], map[], []), map[], map[], {}, map[], [], {}, {}, [])
  }

  /** The kernel hands out only pids of no live process; a connection claims once. */
  predicate Enabled(h: History, e: Event) {
    match e
    case Fork(child, pid) => child !in h.pidOf && pid !in h.alive
    case Reap(s) => s.pid in h.alive && h.alive[s.pid] == s.child
    case Claim(child) => child in h.pidOf && child !in h.claimed
  }

  function Lost(t: Table, s: Status): set<Status> {
    var lost := Trim(Park(t, s).orphans, Park(t, s).order).lost;
    set x | x in lost
  }

  function Next(h: History, e: Event): History
    requires Enabled(h, e)
  {
    match e
    case Fork(child, pid) =>
      h.(alive := h.alive[pid := child], pidOf := h.pidOf[child := pid])
    case Reap(s) =>
      var after := h.(table := Routed(h.table, s), alive := h.alive - {s.pid}, reaped := h.reaped[s.child := s]);
      if s.pid in h.table.waiters then
        after.(delivered := h.delivered + [Delivery(h.table.waiters[s.pid], s)])
      else
        after.(evicted := h.evicted + Lost(h.table, s),
               overwritten := h.overwritten + (if s.pid in h.table.orphans then {h.table.orphans[s.pid]} else {}),
               parkLog := h.parkLog + [s])
    case Claim(child) =>
      var pid := h.pidOf[child];
      var after := h.(table := Claimed(h.table, pid, child), claimed := h.claimed + {child});
      if pid in h.table.orphans then
        after.(delivered := h.delivered + [Delivery(child, h.table.orphans[pid])])
      else after
  }

  ghost predicate Run(hs: seq<History>, es: seq<Event>) {
    && |hs| == |es| + 1 && hs[0] == Start()
    && forall i | 0 <= i < |es| :: Enabled(hs[i], es[i]) && hs[i + 1] == Next(hs[i], es[i])
  }

  // ----- every reaped status has exactly one fate -----

  function DeliveredSet(ds: seq<Delivery>): set<Status> {
    set d | d in ds :: d.status
  }

  predicate IsParked(orphans: map<int, Status>, s: Status) {
    s.pid in orphans && orphans[s.pid] == s
  }

  predicate WasReaped(h: History, s: Status) {
    s.child in h.reaped && h.reaped[s.child] == s
  }

  /** Statuses name processes that exist and are dead. */
  ghost predicate StatusesAreOfTheDead(h: History) {
    && (forall c | c in h.reaped :: h.reaped[c].child == c && c in h.pidOf && h.pidOf[c] == h.reaped[c].pid)
    && (forall p | p in h.alive :: h.alive[p] in h.pidOf && h.pidOf[h.alive[p]] == p && h.alive[p] !in h.reaped)
  }

  /** Each reaped status is delivered once, parked, evicted, or overwritten, and only one of these. */
  ghost predicate EachHasOneFate(h: History) {
    && (forall s :: WasReaped(h, s) <==> HasFate(h, s))
    && (forall s | WasReaped(h, s) :: HasNoSecondFate(h, s))
    && (forall i, j | 0 <= i < j < |h.delivered| :: h.delivered[i].status != h.delivered[j].status)
  }

  predicate HasFate(h: History, s: Status) {
    s in DeliveredSet(h.delivered) || IsParked(h.table.orphans, s) || s in h.evicted || s in h.overwritten
  }

  predicate HasNoSecondFate(h: History, s: Status) {
    && (s in DeliveredSet(h.delivered) ==> !IsParked(h.table.orphans, s) && s !in h.evicted && s !in h.overwritten)
    && (IsParked(h.table.orphans, s) ==> s !in h.evicted && s !in h.overwritten)
    && (s in h.evicted ==> s !in h.overwritten)
  }

  ghost predicate Sound(h: History) {
    WellFormed(h.table) && StatusesAreOfTheDead(h) && EachHasOneFate(h)
  }

  /** Trimming splits the parked statuses into those kept and those lost. */
  lemma {:induction false} TrimSplits(orphans: map<int, Status>, order: seq<int>, s: Status)
    requires forall p | p in orphans :: orphans[p].pid == p
    ensures IsParked(orphans, s) <==> IsParked(Trim(orphans, order).orphans, s) || s in Trim(orphans, order).lost
    ensures !(IsParked(Trim(orphans, order).orphans, s) && s in Trim(orphans, order).lost)
    decreases order
  {
    if |orphans| > MAX_ORPHANS && order != [] {
      var without := orphans - {order[0]};
      TrimSplits(without, order[1..], s);
      assert IsParked(without, s) <==> IsParked(orphans, s) && s.pid != order[0];
      var rest := Trim(without, order[1..]);
      assert Trim(orphans, order).orphans == rest.orphans;
      if order[0] in orphans {
        assert orphans[order[0]].pid == order[0];
        assert Trim(orphans, order).lost == [orphans[order[0]]] + rest.lost;
      } else {
        assert Trim(orphans, order).lost == rest.lost;
      }
    }
  }

  lemma DeliveredGrows(ds: seq<Delivery>, d: Delivery)
    ensures DeliveredSet(ds + [d]) == DeliveredSet(ds) + {d.status}
    ensures forall i | 0 <= i < |ds| :: ds[i].status in DeliveredSet(ds)
  {
    assert forall x :: x in ds + [d] <==> x in ds || x == d;
    assert forall i | 0 <= i < |ds| :: ds[i] in ds;
  }

  lemma ReapKeepsStatuses(h: History, s: Status)
    requires StatusesAreOfTheDead(h) && Enabled(h, Reap(s))
    ensures s.child !in h.reaped && StatusesAreOfTheDead(Next(h, Reap(s)))
  {
  }

  lemma ReapKeepsSound(h: History, s: Status)
    requires Sound(h) && Enabled(h, Reap(s))
    ensures Sound(Next(h, Reap(s)))
  {
    hide EachHasOneFate;
    RouteKeepsWellFormed(h.table, s);
    ReapKeepsStatuses(h, s);
    if s.pid in h.table.waiters {
      DeliveringGivesOneFate(h, s);
    } else {
      ParkingGivesOneFate(h, s);
    }
  }

  lemma DeliveringGivesOneFate(h: History, s: Status)
    requires Sound(h) && Enabled(h, Reap(s)) && s.pid in h.table.waiters
    ensures EachHasOneFate(Next(h, Reap(s)))
  {
    hide StatusesAreOfTheDead;
    ReapKeepsStatuses(h, s);
    DeliveredGrows(h.delivered, Delivery(h.table.waiters[s.pid], s));
    assert !WasReaped(h, s) && !HasFate(h, s);
    var after := Next(h, Reap(s));
    forall x: Status
      ensures WasReaped(after, x) <==> HasFate(after, x)
      ensures WasReaped(after, x) ==> HasNoSecondFate(after, x)
    {
      assert WasReaped(after, x) <==> WasReaped(h, x) || x == s by {
        assert WasReaped(h, x) ==> x.child != s.child;
      }
      assert HasFate(after, x) <==> HasFate(h, x) || x == s;
    }
  }

  /** A step that touches no status. */
  lemma SameFates(h: History, after: History)
    requires EachHasOneFate(h)
    requires after.reaped == h.reaped && after.delivered == h.delivered && after.table.orphans == h.table.orphans
    requires after.evicted == h.evicted && after.overwritten == h.overwritten
    ensures EachHasOneFate(after)
  {
    forall x: Status
      ensures WasReaped(after, x) == WasReaped(h, x) && HasFate(after, x) == HasFate(h, x)
      ensures HasNoSecondFate(after, x) == HasNoSecondFate(h, x)
    {
    }
  }

  lemma ForkKeepsSound(h: History, child: nat, pid: int)
    requires Sound(h) && Enabled(h, Fork(child, pid))
    ensures Sound(Next(h, Fork(child, pid)))
  {
    hide EachHasOneFate;
    SameFates(h, Next(h, Fork(child, pid)));
  }

  lemma ParkedByPid(t: Table)
    requires WellFormed(t)
    ensures forall p | p in t.orphans :: t.orphans[p].pid == p
  {
  }

  lemma ClaimKeepsStatuses(h: History, child: nat)
    requires StatusesAreOfTheDead(h) && Enabled(h, Claim(child))
    ensures StatusesAreOfTheDead(Next(h, Claim(child)))
  {
  }

  /** Parking a new status, with whatever it overwrites or pushes out. */
  lemma ParkingGivesOneFate(h: History, s: Status)
    requires Sound(h) && Enabled(h, Reap(s)) && s.pid !in h.table.waiters
    ensures EachHasOneFate(Next(h, Reap(s)))
  {
    hide Trim, StatusesAreOfTheDead, WellFormed;
    ReapKeepsStatuses(h, s);
    ParkedByPid(h.table);
    var after := Next(h, Reap(s));
    var parked := Park(h.table, s);
    forall x: Status
      ensures WasReaped(after, x) <==> HasFate(after, x)
      ensures WasReaped(after, x) ==> HasNoSecondFate(after, x)
    {
      TrimSplits(parked.orphans, parked.order, x);
      assert IsParked(parked.orphans, x) <==> x == s || (IsParked(h.table.orphans, x) && x.pid != s.pid);
      assert HasFate(h, x) <==> WasReaped(h, x);
    }
  }

  lemma ClaimingGivesOneFate(h: History, child: nat)
    requires Sound(h) && Enabled(h, Claim(child)) && h.pidOf[child] in h.table.orphans
    ensures EachHasOneFate(Next(h, Claim(child)))
  {
    hide StatusesAreOfTheDead;
    var s := h.table.orphans[h.pidOf[child]];
    var after := Next(h, Claim(child));
    DeliveredGrows(h.delivered, Delivery(child, s));
    assert IsParked(h.table.orphans, s) && HasFate(h, s);
    assert s !in DeliveredSet(h.delivered);
    forall x: Status
      ensures WasReaped(after, x) <==> HasFate(after, x)
      ensures WasReaped(after, x) ==> HasNoSecondFate(after, x)
    {
      assert IsParked(after.table.orphans, x) <==> x != s && IsParked(h.table.orphans, x);
      assert WasReaped(after, x) <==> WasReaped(h, x);
    }
  }

  lemma ClaimKeepsSound(h: History, child: nat)
    requires Sound(h) && Enabled(h, Claim(child))
    ensures Sound(Next(h, Claim(child)))
  {
    hide EachHasOneFate, WellFormed, StatusesAreOfTheDead;
    var pid := h.pidOf[child];
    ClaimKeepsStatuses(h, child);
    ClaimKeepsWellFormed(h.table, pid, child);
    if pid in h.table.orphans {
      ClaimingGivesOneFate(h, child);
    } else {
      SameFates(h, Next(h, Claim(child)));
    }
  }

  lemma StartIsSound()
    ensures Sound(Start())
  {
    assert DeliveredSet([]) == {};
  }

  /** Conservation over all runs, even when the kernel reuses pids. */
  lemma {:induction false} RunsAreSound(hs: seq<History>, es: seq<Event>, i: nat)
    requires Run(hs, es) && i < |hs|
    ensures Sound(hs[i])
  {
    StartIsSound();
    if i > 0 {
      hide Sound;
      RunsAreSound(hs, es, i - 1);
      match es[i - 1]
      case Fork(child, pid) => ForkKeepsSound(hs[i - 1], child, pid);
      case Reap(s) => ReapKeepsSound(hs[i - 1], s);
      case Claim(child) => ClaimKeepsSound(hs[i - 1], child);
    }
  }
}
