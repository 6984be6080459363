/** Locks, freezers and reaping over every interleaving and every crash. */
module LifecycleSafety {
  import opened Options
  import opened Lifecycle

  // ----- the operation lock -----

  ghost predicate HolderIsRecorded(w: World, p: Proc) {
    p in w.procs && Holds(w.procs[p]).Some? ==>
      Holds(w.procs[p]).value in w.lock && w.lock[Holds(w.procs[p]).value] == p
  }

  ghost predicate LockHasHolder(w: World, id: Id) {
    id in w.lock ==> w.lock[id] in w.procs && Holds(w.procs[w.lock[id]]) == Some(id)
  }

  ghost predicate LocksAreExact(w: World) {
    (forall p :: HolderIsRecorded(w, p)) && (forall id :: LockHasHolder(w, id))
  }

  /** A sandbox told to freeze belongs to a snapshot that is copying it, or to one that is gone. */
  ghost predicate FreezerIsExplained(w: World, id: Id) {
    id in w.asked ==>
      || id in w.abandoned
      || (id in w.lock && w.lock[id] in w.procs && w.procs[w.lock[id]] == Snapshot(id, Copying(true)))
  }

  ghost predicate FreezersAreExplained(w: World) {
    w.frozen <= w.asked && forall id :: FreezerIsExplained(w, id)
  }

  ghost predicate Consistent(w: World) {
    LocksAreExact(w) && FreezersAreExplained(w)
  }

  // ----- one process at a time -----

  /** What a step of `p` may change: its own operation, and the lock of at most one sandbox. */
  ghost predicate ChangesOnlyItself(w: World, after: World, p: Proc) {
    && after.procs.Keys <= w.procs.Keys + {p}
    && (forall q | q != p :: q in after.procs <==> q in w.procs)
    && (forall q | q != p && q in w.procs :: after.procs[q] == w.procs[q])
  }

  /**
   How locks change in one step: not at all, or `p` takes a free lock that it now holds, or
   `p` drops the lock it held.
   */
  ghost predicate LockStep(w: World, after: World, p: Proc) {
    var before := if p in w.procs then Holds(w.procs[p]) else None;
    var now := if p in after.procs then Holds(after.procs[p]) else None;
    || (now == before && after.lock == w.lock)
    || (before == None && now.Some? && now.value !in w.lock && after.lock == w.lock[now.value := p])
    || (before.Some? && now == None && after.lock == w.lock - {before.value})
  }

  lemma LockStepKeepsLocks(w: World, after: World, p: Proc)
    requires LocksAreExact(w) && ChangesOnlyItself(w, after, p) && LockStep(w, after, p)
    ensures LocksAreExact(after)
  {
    assert HolderIsRecorded(w, p);
    forall q: Proc
      ensures HolderIsRecorded(after, q)
    {
      assert HolderIsRecorded(w, q);
    }
    forall id: Id
      ensures LockHasHolder(after, id)
    {
      assert LockHasHolder(w, id);
    }
  }

  /** How freezers change in one step of `p`. */
  ghost predicate FreezerStep(w: World, after: World, p: Proc) {
    && (forall id | id in after.asked ::
          id in w.asked || (p in after.procs && after.procs[p] == Snapshot(id, Copying(true))))
    && (w.frozen <= w.asked ==> after.frozen <= after.asked)
    && (forall id | id in w.abandoned && id in after.asked :: id in after.abandoned)
    && (forall id | p in w.procs && w.procs[p] == Snapshot(id, Copying(true)) && id in after.asked ::
          id in after.abandoned || (p in after.procs && after.procs[p] == Snapshot(id, Copying(true))))
  }

  /** What every step of an operation respects. */
  ghost predicate IsOrderly(w: World, after: World, p: Proc) {
    ChangesOnlyItself(w, after, p) && LockStep(w, after, p) && FreezerStep(w, after, p)
  }

  /** A teardown step touches neither locks nor operations, and revives or freezes nothing. */
  lemma TeardownSteps(w: World, id: Id, t: Teardown, ok: bool)
    ensures
      var after := AfterTeardown(w, id, t, ok);
      && after.lock == w.lock && after.procs == w.procs && after.born == w.born
      && after.live <= w.live && after.died == w.died + (w.live - after.live)
      && after.asked <= w.asked && (w.frozen <= w.asked ==> after.frozen <= after.asked)
      && (forall x | x in w.abandoned && x in after.asked :: x in after.abandoned)
  {
  }

  lemma SpawnSteps(w: World, p: Proc, id: Id, at: SpawnAt, ok: bool)
    requires CanAdvance(w, p) && w.procs[p] == Spawn(id, at)
    ensures IsOrderly(w, SpawnNext(w, p, id, at, ok), p)
  {
    hide AfterTeardown, TeardownNext;
    if at.RollingBack? {
      TeardownSteps(w, id, at.t, ok);
    }
  }

  lemma SnapshotSteps(w: World, p: Proc, id: Id, at: SnapshotAt, ok: bool)
    requires CanAdvance(w, p) && w.procs[p] == Snapshot(id, at)
    ensures IsOrderly(w, SnapshotNext(w, p, id, at, ok), p)
  {
  }

  lemma DestroySteps(w: World, p: Proc, id: Id, at: DestroyAt, ok: bool)
    requires CanAdvance(w, p) && w.procs[p] == Destroy(id, at)
    ensures IsOrderly(w, DestroyNext(w, p, id, at, ok), p)
  {
    hide AfterTeardown, TeardownNext;
    if at.Destroying? {
      TeardownSteps(w, id, at.t, ok);
    }
  }

  lemma ReconcileSteps(w: World, p: Proc, todo: seq<Id>, at: ReconcileAt, ok: bool)
    requires CanAdvance(w, p) && w.procs[p] == Reconcile(todo, at)
    ensures IsOrderly(w, ReconcileNext(w, p, todo, at, ok), p)
  {
    hide AfterTeardown, TeardownNext;
    if at.Reaping? {
      ReapSteps(w, p, todo, at, ok);
    } else if at.Picking? || at.FoundDead? || at.FoundNoDir? {
      LookSteps(w, p, todo, at, ok);
    } else {
      ThawSteps(w, p, todo, at, ok);
    }
  }

  lemma ReapSteps(w: World, p: Proc, todo: seq<Id>, at: ReconcileAt, ok: bool)
    requires CanAdvance(w, p) && w.procs[p] == Reconcile(todo, at) && at.Reaping?
    ensures IsOrderly(w, ReconcileNext(w, p, todo, at, ok), p)
  {
    hide AfterTeardown, TeardownNext;
    TeardownSteps(w, at.reap, at.t, ok);
  }

  lemma ThawSteps(w: World, p: Proc, todo: seq<Id>, at: ReconcileAt, ok: bool)
    requires CanAdvance(w, p) && w.procs[p] == Reconcile(todo, at)
    requires at.FoundAlive? || at.Thawing? || at.Thawed?
    ensures IsOrderly(w, ReconcileNext(w, p, todo, at, ok), p)
  {
  }

  lemma LookSteps(w: World, p: Proc, todo: seq<Id>, at: ReconcileAt, ok: bool)
    requires CanAdvance(w, p) && w.procs[p] == Reconcile(todo, at)
    requires at.Picking? || at.FoundDead? || at.FoundNoDir?
    ensures IsOrderly(w, ReconcileNext(w, p, todo, at, ok), p)
  {
  }

  lemma AdvanceIsOrderly(w: World, p: Proc, ok: bool)
    requires CanAdvance(w, p)
    ensures IsOrderly(w, Next(w, Advance(p, ok)), p)
  {
    hide IsOrderly, SpawnNext, SnapshotNext, DestroyNext, ReconcileNext;
    match w.procs[p]
    case Spawn(id, at) => SpawnSteps(w, p, id, at, ok);
    case Snapshot(id, at) => SnapshotSteps(w, p, id, at, ok);
    case Destroy(id, at) => DestroySteps(w, p, id, at, ok);
    case Reconcile(todo, at) => ReconcileSteps(w, p, todo, at, ok);
  }

  lemma StepsKeepLocks(w: World, a: Act)
    requires LocksAreExact(w) && Enabled(w, a)
    ensures LocksAreExact(Next(w, a))
  {
    hide LocksAreExact, SpawnNext, SnapshotNext, DestroyNext, ReconcileNext;
    match a
    case Begin(p, op) =>
      LockStepKeepsLocks(w, Next(w, a), p);
    case Advance(p, ok) =>
      AdvanceIsOrderly(w, p, ok);
      LockStepKeepsLocks(w, Next(w, a), p);
    case Crash(p) =>
      LockStepKeepsLocks(w, Next(w, a), p);
    case GuestDies(id) =>
      LockStepKeepsLocks(w, Next(w, a), 0);
    case Settles(id) =>
      LockStepKeepsLocks(w, Next(w, a), 0);
  }

  // ----- the freezer -----

  lemma FreezerStepKeepsFreezers(w: World, after: World, p: Proc)
    requires LocksAreExact(w) && LocksAreExact(after)
    requires ChangesOnlyItself(w, after, p) && FreezerStep(w, after, p)
    requires FreezersAreExplained(w)
    ensures FreezersAreExplained(after)
  {
    forall id: Id
      ensures FreezerIsExplained(after, id)
    {
      assert FreezerIsExplained(w, id);
      assert HolderIsRecorded(after, p);
      if id in w.lock {
        assert HolderIsRecorded(after, w.lock[id]);
      }
    }
  }

  lemma StepsKeepFreezers(w: World, a: Act)
    requires LocksAreExact(w) && Enabled(w, a)
    requires FreezersAreExplained(w)
    ensures FreezersAreExplained(Next(w, a))
  {
    StepsKeepLocks(w, a);
    hide LocksAreExact, FreezerIsExplained, SpawnNext, SnapshotNext, DestroyNext, ReconcileNext;
    match a
    case Begin(p, op) => FreezerStepKeepsFreezers(w, Next(w, a), p);
    case Advance(p, ok) =>
      AdvanceIsOrderly(w, p, ok);
      FreezerStepKeepsFreezers(w, Next(w, a), p);
    case Crash(p) => FreezerStepKeepsFreezers(w, Next(w, a), p);
    case GuestDies(id) => FreezerStepKeepsFreezers(w, Next(w, a), 0);
    case Settles(id) => FreezerStepKeepsFreezers(w, Next(w, a), 0);
  }

  // ----- whole runs -----

  lemma {:induction false} RunsAreConsistent(ws: seq<World>, acts: seq<Act>, i: nat)
    requires Run(ws, acts) && i < |ws|
    ensures Consistent(ws[i])
  {
    if i > 0 {
      RunsAreConsistent(ws, acts, i - 1);
      StepsKeepLocks(ws[i - 1], acts[i - 1]);
      StepsKeepFreezers(ws[i - 1], acts[i - 1]);
    }
  }

  /** No two operations are past the lock of one sandbox at the same time. */
  lemma OperationsExclude(ws: seq<World>, acts: seq<Act>, i: nat, p: Proc, q: Proc)
    requires Run(ws, acts) && i < |ws|
    requires p in ws[i].procs && q in ws[i].procs && p != q
    requires Holds(ws[i].procs[p]).Some?
    ensures Holds(ws[i].procs[p]) != Holds(ws[i].procs[q])
  {
    RunsAreConsistent(ws, acts, i);
    assert HolderIsRecorded(ws[i], p) && HolderIsRecorded(ws[i], q);
  }

  /** Reconciliation tears down under the lock, so never beside a spawn or a snapshot. */
  lemma ReapHoldsTheLock(ws: seq<World>, acts: seq<Act>, i: nat, p: Proc)
    requires Run(ws, acts) && i < |ws|
    requires p in ws[i].procs && ws[i].procs[p].Reconcile? && ws[i].procs[p].re.Reaping?
    ensures
      var id := ws[i].procs[p].re.reap;
      && id in ws[i].lock && ws[i].lock[id] == p
      && (forall q | q in ws[i].procs && q != p :: Holds(ws[i].procs[q]) != Some(id))
  {
    RunsAreConsistent(ws, acts, i);
    assert HolderIsRecorded(ws[i], p);
    forall q | q in ws[i].procs && q != p
      ensures Holds(ws[i].procs[q]) != Some(ws[i].procs[p].re.reap)
    {
      OperationsExclude(ws, acts, i, p, q);
    }
  }

  /** A thaw by reconciliation hits only a sandbox that its snapshot has abandoned. */
  lemma ThawHitsOnlyAbandoned(ws: seq<World>, acts: seq<Act>, i: nat, p: Proc)
    requires Run(ws, acts) && i < |ws|
    requires p in ws[i].procs && ws[i].procs[p].Reconcile? && ws[i].procs[p].re.Thawing?
    requires ws[i].procs[p].re.thaw in ws[i].asked
    ensures ws[i].procs[p].re.thaw in ws[i].abandoned
  {
    RunsAreConsistent(ws, acts, i);
    assert HolderIsRecorded(ws[i], p);
    assert FreezerIsExplained(ws[i], ws[i].procs[p].re.thaw);
  }

  ghost function Last(ws: seq<World>): World
    requires ws != []
  {
    ws[|ws| - 1]
  }

  /** One more step of a run. */
  lemma Extend(ws: seq<World>, acts: seq<Act>, a: Act) returns (ws': seq<World>, acts': seq<Act>)
    requires Run(ws, acts) && Enabled(Last(ws), a)
    ensures Run(ws', acts') && Last(ws') == Next(Last(ws), a)
  {
    ws', acts' := ws + [Next(Last(ws), a)], acts + [a];
  }

  /** Reconciliation has found a sandbox dead that a spawn is just building. */
  lemma SpawnIsTakenForDead() returns (ws: seq<World>, acts: seq<Act>)
    ensures Run(ws, acts)
    ensures
      var w := Last(ws);
      && w.procs == map[1 := Spawn(7, Inserted), 2 := Reconcile([], FoundDead(7, true))]
      && w.lock == map[7 := 1] && w.dirs == {7}
  {
    hide Run;
    ws, acts := [EMPTY], [];
    assert Run(ws, acts) by { StartsEmpty(); }
    ws, acts := Extend(ws, acts, Begin(1, Spawn(7, WantsSpawnLock)));
    ws, acts := Extend(ws, acts, Advance(1, true));
    ws, acts := Extend(ws, acts, Advance(1, true));
    assert Last(ws).rows == map[7 := true];
    var todo: seq<Id> := [7];
    assert todo[1..] == [];
    ws, acts := Extend(ws, acts, Begin(2, Reconcile(todo, Picking)));
    assert IsComingUp(Last(ws), 7) by {
      assert 1 in Last(ws).procs && Last(ws).procs[1] == Spawn(7, Inserted);
    }
    ws, acts := Extend(ws, acts, Advance(2, true));
  }

  lemma StartsEmpty()
    ensures Run([EMPTY], [])
  {
  }

  /** And it does happen: a run that ends with a live guest about to be reaped. */
  lemma ReconcileCanReapTheLiving() returns (ws: seq<World>, acts: seq<Act>, p: Proc)
    ensures Run(ws, acts)
    ensures
      var last := Last(ws);
      && p in last.procs && last.procs[p].Reconcile? && last.procs[p].re.Reaping?
      && last.procs[p].re.t == KillGuest && last.procs[p].re.reap in last.live
  {
    hide Run;
    ws, acts := SpawnIsTakenForDead();
    ws, acts := Extend(ws, acts, Advance(1, true));
    ws, acts := Extend(ws, acts, Advance(1, true));
    ws, acts := Extend(ws, acts, Advance(1, true));
    assert Last(ws).lock == map[] && 7 in Last(ws).live;
    ws, acts := Extend(ws, acts, Advance(2, true));
    p := 2;
  }

  /** Nor does it take a race: a guest that has long been up is reaped when reading its liveness fails. */
  lemma MisreadGuestIsReaped() returns (ws: seq<World>, acts: seq<Act>, p: Proc)
    ensures Run(ws, acts)
    ensures
      var last := Last(ws);
      && last.procs == map[p := Reconcile([], Reaping(7, true, KillGuest))]
      && 7 in last.live && 7 in last.rows
  {
    hide Run;
    ws, acts := SandboxComesUp();
    var todo: seq<Id> := [7];
    assert todo[1..] == [];
    ws, acts := Extend(ws, acts, Begin(2, Reconcile(todo, Picking)));
    ws, acts := Extend(ws, acts, Advance(2, false));
    ws, acts := Extend(ws, acts, Advance(2, true));
    p := 2;
  }

  // ----- a freeze that outlives reconciliation -----

  /** A sandbox that is up and idle. */
  const UP := EMPTY.(
    rows := map[7 := true], dirs := {7}, live := {7}, cgroups := {7}, usedIds := {7}, born := {7})

  lemma SandboxComesUp() returns (ws: seq<World>, acts: seq<Act>)
    ensures Run(ws, acts) && Last(ws) == UP
  {
    hide Run;
    ws, acts := [EMPTY], [];
    assert Run(ws, acts) by { StartsEmpty(); }
    ws, acts := Extend(ws, acts, Begin(1, Spawn(7, WantsSpawnLock)));
    ws, acts := Extend(ws, acts, Advance(1, true));
    ws, acts := Extend(ws, acts, Advance(1, true));
    ws, acts := Extend(ws, acts, Advance(1, true));
    ws, acts := Extend(ws, acts, Advance(1, true));
    ws, acts := Extend(ws, acts, Advance(1, true));
    assert Last(ws).rows == map[7 := true] && Last(ws).procs == map[] && Last(ws).lock == map[];
  }

  lemma SnapshotDiesAsking() returns (ws: seq<World>, acts: seq<Act>)
    ensures Run(ws, acts) && Last(ws) == UP.(asked := {7}, abandoned := {7})
  {
    hide Run;
    ws, acts := SandboxComesUp();
    ws, acts := Extend(ws, acts, Begin(2, Snapshot(7, WantsSnapshotLock)));
    ws, acts := Extend(ws, acts, Advance(2, true));
    ws, acts := Extend(ws, acts, Advance(2, true));
    ws, acts := Extend(ws, acts, Advance(2, true));
    ws, acts := Extend(ws, acts, Crash(2));
    assert Last(ws).procs == map[] && Last(ws).lock == map[];
  }

  /**
   What reconciliation does not promise either: a snapshot dies before its freeze is reported
   done, an undisturbed reconciliation sees nothing to thaw, and afterwards the live sandbox
   freezes with no operation left that would thaw it.
   */
  lemma PendingFreezeOutlivesReconcile() returns (ws: seq<World>, acts: seq<Act>)
    ensures Run(ws, acts)
    ensures
      var last := Last(ws);
      last.procs == map[] && 7 in last.rows && last.rows[7] && 7 in last.live && 7 in last.frozen
  {
    hide Run;
    ws, acts := SnapshotDiesAsking();
    var todo: seq<Id> := [7];
    assert todo[1..] == [];
    ws, acts := Extend(ws, acts, Begin(3, Reconcile(todo, Picking)));
    ws, acts := Extend(ws, acts, Advance(3, true));
    ws, acts := Extend(ws, acts, Advance(3, true));
    ws, acts := Extend(ws, acts, Advance(3, true));
    ws, acts := Extend(ws, acts, Advance(3, true));
    ws, acts := Extend(ws, acts, Advance(3, true));
    assert Last(ws).procs == map[];
    ws, acts := Extend(ws, acts, Settles(7));
  }
}
