/**
 Routing of child exit statuses in PID 1. One reaper thread routes every status; exec
 connections claim the status of their own child, before or after it is reaped; statuses
 that nobody has claimed yet are parked, and the oldest ones are evicted over a cap.
 */
module Router {
  import opened Options

  const MAX_ORPHANS := 4096

  /**
   One process's exit status. `child` identifies the process itself; the program stores
   only the pid, which the kernel may hand out again.
   */
  datatype Status = Status(child: nat, pid: int, code: Option<int>, signal: Option<int>)

  /** The router's three tables. A waiter is identified by the child it waits for. */
  datatype Table = Table(waiters: map<int, nat>, orphans: map<int, Status>, order: seq<int>)

  /** Every parked pid is queued for eviction (stale queue entries are allowed). */
  ghost predicate Queued(orphans: map<int, Status>, order: seq<int>) {
    forall p | p in orphans :: p in order
  }

  ghost predicate WellFormed(t: Table) {
    && Queued(t.orphans, t.order)
    && |t.orphans| <= MAX_ORPHANS
    && t.waiters.Keys !! t.orphans.Keys
    && (forall p | p in t.orphans :: t.orphans[p].pid == p)
  }

  datatype Trimmed = Trimmed(orphans: map<int, Status>, order: seq<int>, lost: seq<Status>)

  /** The queue cannot run dry while something is parked. */
  lemma QueueIsNotEmpty(orphans: map<int, Status>, order: seq<int>)
    requires Queued(orphans, order) && |orphans| > 0
    ensures order != []
    ensures Queued(orphans - {order[0]}, order[1..])
  {
    if order == [] {
      assert forall p | p in orphans :: p in order;
    }
  }

  /** Evict from the front of the queue until the cap is met. */
  function Trim(orphans: map<int, Status>, order: seq<int>): Trimmed {
    if |orphans| <= MAX_ORPHANS || order == [] then Trimmed(orphans, order, [])
    else
      var rest := Trim(orphans - {order[0]}, order[1..]);
      rest.(lost := (if order[0] in orphans then [orphans[order[0]]] else []) + rest.lost)
  }

  ghost predicate SameTrim(o: map<int, Status>, q: seq<int>, o': map<int, Status>, q': seq<int>) {
    Trim(o, q).orphans == Trim(o', q').orphans && Trim(o, q).order == Trim(o', q').order
  }

  lemma TrimStep(o: map<int, Status>, q: seq<int>, o': map<int, Status>, q': seq<int>)
    requires SameTrim(o, q, o', q') && |o| > MAX_ORPHANS && q != []
    ensures SameTrim(o - {q[0]}, q[1..], o', q')
  {
  }

  /** The tables before trimming, once `s` is parked. */
  function Park(t: Table, s: Status): Table {
    t.(orphans := t.orphans[s.pid := s],
       order := if s.pid in t.orphans then t.order else t.order + [s.pid])
  }

  function Routed(t: Table, s: Status): Table {
    if s.pid in t.waiters then t.(waiters := t.waiters - {s.pid})
    else
      var parked := Park(t, s);
      var trimmed := Trim(parked.orphans, parked.order);
      parked.(orphans := trimmed.orphans, order := trimmed.order)
  }

  function Claimed(t: Table, pid: int, child: nat): Table {
    if pid in t.orphans then t.(orphans := t.orphans - {pid})
    else t.(waiters := t.waiters[pid := child])
  }

  /** The mutex-protected router, and the channels it sends into. */
  class Router {
    var waiters: map<int, nat>
    var orphans: map<int, Status>
    var order: seq<int>
    var mail: map<nat, Status>

    ghost function Tables(): Table
      reads this
    {
      Table(waiters, orphans, order)
    }

    constructor ()
      ensures Tables() == Table(map[], map[], []) && mail == map[]
    {
      waiters, orphans, order, mail := map[], map[], [], map[];
    }

    /** `route`: hand `s` to the waiter registered for its pid, or park it. */
    method Route(s: Status)
      requires WellFormed(Tables())
      modifies this
      ensures Tables() == Routed(old(Tables()), s)
      ensures mail == if s.pid in old(waiters) then old(mail)[old(waiters)[s.pid] := s] else old(mail)
    {
      if s.pid in waiters {
        mail := mail[waiters[s.pid] := s];
        waiters := waiters - {s.pid};
        return;
      }
      if s.pid !in orphans {
        order := order + [s.pid];
      }
      orphans := orphans[s.pid := s];
      ghost var parked := Park(old(Tables()), s);
      assert orphans == parked.orphans && order == parked.order;
      while |orphans| > MAX_ORPHANS
        invariant Queued(orphans, order)
        invariant waiters == old(waiters) && mail == old(mail)
        invariant SameTrim(orphans, order, parked.orphans, parked.order)
        decreases |order|
      {
        hide Queued, SameTrim;
        QueueIsNotEmpty(orphans, order);
        TrimStep(orphans, order, parked.orphans, parked.order);
        if order == [] {
          assert false;
        } else {
          var oldest := order[0];
          order := order[1..];
          orphans := orphans - {oldest};
        }
      }
    }

    /** The locked part of `wait_child`: the parked status, or nothing and a registration. */
    method Claim(pid: int, child: nat) returns (r: Option<Status>)
      modifies this
      ensures r == if pid in old(orphans) then Some(old(orphans)[pid]) else None
      ensures Tables() == Claimed(old(Tables()), pid, child)
      ensures mail == old(mail)
    {
      if pid in orphans {
        r := Some(orphans[pid]);
        orphans := orphans - {pid};
        return;
      }
      waiters := waiters[pid := child];
      r := None;
    }
  }

  // ----- trimming -----

  /** Trimming meets the cap, keeps the queue complete, and loses only parked statuses. */
  lemma {:induction false} TrimMeetsCap(orphans: map<int, Status>, order: seq<int>)
    requires Queued(orphans, order)
    ensures |Trim(orphans, order).orphans| <= MAX_ORPHANS
    ensures Queued(Trim(orphans, order).orphans, Trim(orphans, order).order)
    ensures Trim(orphans, order).orphans.Items <= orphans.Items
    ensures Trim(orphans, order).orphans.Keys <= orphans.Keys
    decreases order
  {
    if |orphans| > MAX_ORPHANS {
      QueueIsNotEmpty(orphans, order);
      TrimMeetsCap(orphans - {order[0]}, order[1..]);
    }
  }

  /** Both operations keep the tables well formed, whatever pids the kernel reuses. */
  lemma RouteKeepsWellFormed(t: Table, s: Status)
    requires WellFormed(t)
    ensures WellFormed(Routed(t, s))
  {
    if s.pid !in t.waiters {
      var parked := Park(t, s);
      TrimMeetsCap(parked.orphans, parked.order);
      var trimmed := Trim(parked.orphans, parked.order);
      forall p | p in trimmed.orphans
        ensures trimmed.orphans[p].pid == p
      {
        assert (p, trimmed.orphans[p]) in trimmed.orphans.Items;
      }
    }
  }

  lemma ClaimKeepsWellFormed(t: Table, pid: int, child: nat)
    requires WellFormed(t)
    ensures WellFormed(Claimed(t, pid, child))
  {
    var after := Claimed(t, pid, child);
    if pid in t.orphans {
      assert after.orphans.Keys <= t.orphans.Keys;
      SubsetSize(after.orphans.Keys, t.orphans.Keys);
    }
  }

  lemma {:induction false} SubsetSize<T>(a: set<T>, b: set<T>)
    requires a <= b
    ensures |a| <= |b|
    decreases a
  {
    if a != {} {
      var x :| x in a;
      SubsetSize(a - {x}, b - {x});
    }
  }

  /** Whichever of reaping and claiming comes first, the status goes to the claimant. */
  lemma ClaimAndRouteCommute(t: Table, s: Status, child: nat)
    requires WellFormed(t) && |t.orphans| < MAX_ORPHANS
    requires s.pid !in t.waiters && s.pid !in t.orphans
    ensures
      var reapedFirst := Claimed(Routed(t, s), s.pid, child);
      var claimedFirst := Routed(Claimed(t, s.pid, child), s);
      && s.pid in Routed(t, s).orphans && Routed(t, s).orphans[s.pid] == s
      && s.pid in Claimed(t, s.pid, child).waiters && Claimed(t, s.pid, child).waiters[s.pid] == child
      && reapedFirst.waiters == claimedFirst.waiters == t.waiters
      && reapedFirst.orphans == claimedFirst.orphans == t.orphans
  {
    assert |Park(t, s).orphans| == |t.orphans| + 1;
    assert t.orphans[s.pid := s] - {s.pid} == t.orphans;
    assert t.waiters[s.pid := child] - {s.pid} == t.waiters;
  }
}
