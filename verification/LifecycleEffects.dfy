/** What operations do to a sandbox: that snapshots thaw, and that teardowns leave nothing. */
module LifecycleEffects {
  import opened Options
  import opened Lifecycle
  import opened LifecycleSafety
  import opened LifecycleSpawn

  // ----- snapshots thaw what they froze -----

  /** The snapshot of `id` dies while its sandbox is frozen, or fails to thaw it. */
  predicate LeavesFrozen(w: World, a: Act, id: Id) {
    match a
    case Crash(p) => p in w.procs && w.procs[p] == Snapshot(id, Copying(true))
    case Advance(p, ok) => p in w.procs && w.procs[p] == Snapshot(id, Copying(true)) && !ok
    case _ => false
  }

  lemma SpawnAbandonsNone(w: World, p: Proc, id: Id, at: SpawnAt, ok: bool)
    ensures SpawnNext(w, p, id, at, ok).abandoned <= w.abandoned
  {
  }

  lemma ReconcileAbandonsNone(w: World, p: Proc, todo: seq<Id>, at: ReconcileAt, ok: bool)
    ensures ReconcileNext(w, p, todo, at, ok).abandoned <= w.abandoned
  {
    hide IsUpOrComing;
  }

  /** A sandbox comes to be abandoned in a freeze in no other way. */
  lemma AbandonedOnlyThen(w: World, a: Act, id: Id)
    requires Enabled(w, a) && id in Next(w, a).abandoned && id !in w.abandoned
    ensures LeavesFrozen(w, a, id)
  {
    hide SpawnNext, ReconcileNext;
    if a.Advance? {
      match w.procs[a.p]
      case Spawn(x, at) => SpawnAbandonsNone(w, a.p, x, at, a.ok);
      case Reconcile(todo, at) => ReconcileAbandonsNone(w, a.p, todo, at, a.ok);
      case _ =>
    }
  }

  /** A run in which no snapshot dies or fails to thaw while its sandbox is frozen. */
  ghost predicate ThawsWell(ws: seq<World>, acts: seq<Act>)
    requires |ws| == |acts| + 1
  {
    forall i | 0 <= i < |acts| :: LeavesNoneFrozen(ws[i], acts[i])
  }

  ghost predicate LeavesNoneFrozen(w: World, a: Act) {
    forall id: Id :: !LeavesFrozen(w, a, id)
  }

  lemma {:induction false} NothingIsAbandoned(ws: seq<World>, acts: seq<Act>, i: nat)
    requires Run(ws, acts) && i < |ws| && ThawsWell(ws, acts)
    ensures ws[i].abandoned == {}
  {
    hide Enabled, Next, LeavesFrozen;
    if i > 0 {
      NothingIsAbandoned(ws, acts, i - 1);
      forall id | id in ws[i].abandoned
        ensures LeavesFrozen(ws[i - 1], acts[i - 1], id)
      {
        AbandonedOnlyThen(ws[i - 1], acts[i - 1], id);
      }
      assert LeavesNoneFrozen(ws[i - 1], acts[i - 1]);
    }
  }

  predicate IsCopyingFrozen(op: Op, id: Id) {
    op == Snapshot(id, Copying(true))
  }

  /** Then a sandbox is told to freeze, or frozen, only while a snapshot is copying it. */
  lemma FrozenOnlyWhileCopying(ws: seq<World>, acts: seq<Act>, i: nat, id: Id)
    requires Run(ws, acts) && i < |ws| && ThawsWell(ws, acts)
    requires id in ws[i].asked || id in ws[i].frozen
    ensures exists p | p in ws[i].procs :: IsCopyingFrozen(ws[i].procs[p], id)
  {
    hide Enabled, Next;
    NothingIsAbandoned(ws, acts, i);
    RunsAreConsistent(ws, acts, i);
    assert FreezerIsExplained(ws[i], id);
    assert IsCopyingFrozen(ws[i].procs[ws[i].lock[id]], id);
  }

  /** A snapshot that finishes copying and succeeds in thawing leaves its sandbox running. */
  lemma SnapshotThaws(ws: seq<World>, acts: seq<Act>, i: nat, p: Proc, id: Id)
    requires Run(ws, acts) && i < |acts| && acts[i] == Advance(p, true)
    requires p in ws[i].procs && ws[i].procs[p] == Snapshot(id, Copying(true))
    ensures
      var after := ws[i + 1];
      && p in after.procs && after.procs[p] == Snapshot(id, Finishing)
      && id !in after.asked && id !in after.frozen && id !in after.abandoned
      && after.asked == ws[i].asked - {id} && after.frozen == ws[i].frozen - {id}
  {
  }

  // ----- teardowns leave nothing -----

  /** The sandbox that an operation is tearing down, and how far it is. */
  function TeardownOf(op: Op): Option<(Id, Teardown)> {
    match op
    case Spawn(id, at) => if at.RollingBack? then Some((id, at.t)) else None
    case Destroy(id, at) => if at.Destroying? then Some((id, at.t)) else None
    case Reconcile(_, at) => if at.Reaping? then Some((at.reap, at.t)) else None
    case Snapshot(_, _) => None
  }

  predicate NoGuest(w: World, id: Id) {
    id !in w.live
  }

  predicate NoCgroup(w: World, id: Id) {
    id !in w.cgroups && id !in w.asked && id !in w.frozen && id !in w.abandoned
  }

  /** What a teardown has removed by the time it comes to `t`. */
  predicate GoneBefore(w: World, id: Id, t: Teardown) {
    match t
    case KillGuest => true
    case DropCgroup => NoGuest(w, id)
    case DropDir => NoGuest(w, id) && NoCgroup(w, id)
    case DropRow => NoGuest(w, id) && NoCgroup(w, id) && id !in w.dirs
    case Unlock => true
  }

  /** Nothing of the sandbox is left. */
  predicate NoTrace(w: World, id: Id) {
    NoGuest(w, id) && NoCgroup(w, id) && id !in w.dirs && id !in w.rows
  }

  ghost predicate TeardownIsOnItsWay(w: World, p: Proc) {
    p in w.procs && TeardownOf(w.procs[p]).Some? ==>
      GoneBefore(w, TeardownOf(w.procs[p]).value.0, TeardownOf(w.procs[p]).value.1)
  }

  predicate AddsNothing(w: World, after: World, id: Id) {
    && (id in after.live ==> id in w.live) && (id in after.cgroups ==> id in w.cgroups)
    && (id in after.asked ==> id in w.asked) && (id in after.frozen ==> id in w.frozen)
    && (id in after.abandoned ==> id in w.abandoned) && (id in after.dirs ==> id in w.dirs)
  }

  /** What a step of `q` adds to a sandbox it adds under the sandbox's lock. */
  ghost predicate AddsUnderLock(w: World, after: World, q: Proc) {
    forall id: Id ::
      || AddsNothing(w, after, id)
      || (q in w.procs && Holds(w.procs[q]) == Some(id))
      || (q in after.procs && Holds(after.procs[q]) == Some(id))
  }

  lemma TeardownAddsNothing(w: World, id: Id, t: Teardown, ok: bool)
    ensures
      var after := AfterTeardown(w, id, t, ok);
      && after.live <= w.live && after.cgroups <= w.cgroups && after.asked <= w.asked && after.frozen <= w.frozen
      && after.abandoned <= w.abandoned && after.dirs <= w.dirs && after.procs == w.procs
  {
  }

  lemma SpawnAdds(w: World, p: Proc, id: Id, at: SpawnAt, ok: bool)
    requires CanAdvance(w, p) && w.procs[p] == Spawn(id, at)
    ensures AddsUnderLock(w, SpawnNext(w, p, id, at, ok), p)
  {
    hide AfterTeardown, TeardownNext;
    if at.RollingBack? {
      TeardownAddsNothing(w, id, at.t, ok);
    }
  }

  lemma SnapshotAdds(w: World, p: Proc, id: Id, at: SnapshotAt, ok: bool)
    requires CanAdvance(w, p) && w.procs[p] == Snapshot(id, at)
    ensures AddsUnderLock(w, SnapshotNext(w, p, id, at, ok), p)
  {
  }

  lemma DestroyAdds(w: World, p: Proc, id: Id, at: DestroyAt, ok: bool)
    requires CanAdvance(w, p) && w.procs[p] == Destroy(id, at)
    ensures AddsUnderLock(w, DestroyNext(w, p, id, at, ok), p)
  {
    hide AfterTeardown, TeardownNext;
    if at.Destroying? {
      TeardownAddsNothing(w, id, at.t, ok);
    }
  }

  lemma ReconcileAdds(w: World, p: Proc, todo: seq<Id>, at: ReconcileAt, ok: bool)
    requires CanAdvance(w, p) && w.procs[p] == Reconcile(todo, at)
    ensures AddsUnderLock(w, ReconcileNext(w, p, todo, at, ok), p)
  {
    hide AfterTeardown, TeardownNext, IsUpOrComing;
    if at.Reaping? {
      TeardownAddsNothing(w, at.reap, at.t, ok);
    }
  }

  lemma AdvanceAdds(w: World, p: Proc, ok: bool)
    requires CanAdvance(w, p)
    ensures AddsUnderLock(w, Next(w, Advance(p, ok)), p)
  {
    hide AddsUnderLock, SpawnNext, SnapshotNext, DestroyNext, ReconcileNext;
    match w.procs[p]
    case Spawn(id, at) => SpawnAdds(w, p, id, at, ok);
    case Snapshot(id, at) => SnapshotAdds(w, p, id, at, ok);
    case Destroy(id, at) => DestroyAdds(w, p, id, at, ok);
    case Reconcile(todo, at) => ReconcileAdds(w, p, todo, at, ok);
  }

  /** Nobody else's step undoes a teardown. */
  lemma OthersLeaveTeardown(w: World, after: World, q: Proc, p: Proc)
    requires LocksAreExact(w) && LocksAreExact(after) && TeardownIsOnItsWay(w, p) && p != q
    requires ChangesOnlyItself(w, after, q) && AddsUnderLock(w, after, q)
    ensures TeardownIsOnItsWay(after, p)
  {
    if p in after.procs && TeardownOf(after.procs[p]).Some? {
      var id := TeardownOf(after.procs[p]).value.0;
      assert Holds(w.procs[p]) == Some(id) && Holds(after.procs[p]) == Some(id);
      assert HolderIsRecorded(w, p) && HolderIsRecorded(w, q);
      assert HolderIsRecorded(after, p) && HolderIsRecorded(after, q);
      assert AddsNothing(w, after, id);
    }
  }

  /** One step of a teardown removes what it is for, and leads to the next. */
  lemma TeardownProceeds(w: World, id: Id, t: Teardown, ok: bool)
    requires GoneBefore(w, id, t)
    ensures
      var after := AfterTeardown(w, id, t, ok);
      && GoneBefore(after, id, TeardownNext(t, ok))
      && (t.DropRow? && ok ==> NoTrace(after, id))
  {
  }

  /** A step of a teardown does to the sandbox what it is for, and nothing else. */
  lemma TeardownMoves(w: World, p: Proc, ok: bool)
    requires CanAdvance(w, p) && TeardownOf(w.procs[p]).Some? && !TeardownOf(w.procs[p]).value.1.Unlock?
    ensures
      var (id, t) := TeardownOf(w.procs[p]).value;
      var after := Next(w, Advance(p, ok));
      && after == AfterTeardown(w, id, t, ok).(procs := after.procs)
      && p in after.procs && TeardownOf(after.procs[p]) == Some((id, TeardownNext(t, ok)))
  {
    hide AfterTeardown, TeardownNext, IsUpOrComing;
    var (id, t) := TeardownOf(w.procs[p]).value;
    TeardownAddsNothing(w, id, t, ok);
  }

  /** The steps at which an operation has to start tearing down. */
  predicate MustTearDown(w: World, op: Op, ok: bool) {
    match op
    case Spawn(_, at) => (at.Inserted? || at.HasCgroup? || at.GuestUp?) && !ok
    case Destroy(_, at) => at.WantsDestroyLock?
    case Reconcile(_, at) => at.FoundDead? && at.dead in w.dirs && at.dead !in w.lock && ok
    case Snapshot(_, _) => false
  }

  predicate StartsRightly(w: World, after: World, p: Proc, ok: bool)
    requires p in w.procs
  {
    && (p in after.procs && TeardownOf(after.procs[p]).Some? <==> MustTearDown(w, w.procs[p], ok))
    && (p in after.procs && TeardownOf(after.procs[p]).Some? ==>
          TeardownOf(after.procs[p]).value.1.KillGuest?
          && Holds(after.procs[p]) == Some(TeardownOf(after.procs[p]).value.0))
  }

  lemma SpawnTearsDown(w: World, p: Proc, id: Id, at: SpawnAt, ok: bool)
    requires CanAdvance(w, p) && w.procs[p] == Spawn(id, at) && !at.RollingBack?
    ensures StartsRightly(w, SpawnNext(w, p, id, at, ok), p, ok)
  {
    hide AfterTeardown, TeardownNext;
  }

  lemma ReconcileTearsDown(w: World, p: Proc, todo: seq<Id>, at: ReconcileAt, ok: bool)
    requires CanAdvance(w, p) && w.procs[p] == Reconcile(todo, at) && !at.Reaping?
    ensures StartsRightly(w, ReconcileNext(w, p, todo, at, ok), p, ok)
  {
    hide AfterTeardown, TeardownNext, IsUpOrComing;
  }

  lemma OthersTearDown(w: World, p: Proc, ok: bool)
    requires CanAdvance(w, p) && (w.procs[p].Destroy? || w.procs[p].Snapshot?) && TeardownOf(w.procs[p]).None?
    ensures StartsRightly(w, Next(w, Advance(p, ok)), p, ok)
  {
    hide AfterTeardown, TeardownNext, SpawnNext, ReconcileNext;
  }

  lemma TeardownStarts(w: World, p: Proc, ok: bool)
    requires p in w.procs && CanAdvance(w, p) && TeardownOf(w.procs[p]).None?
    ensures StartsRightly(w, Next(w, Advance(p, ok)), p, ok)
  {
    hide StartsRightly, SpawnNext, SnapshotNext, DestroyNext, ReconcileNext;
    match w.procs[p]
    case Spawn(id, at) => SpawnTearsDown(w, p, id, at, ok);
    case Reconcile(todo, at) => ReconcileTearsDown(w, p, todo, at, ok);
    case _ => OthersTearDown(w, p, ok);
  }

  lemma TeardownIsOver(w: World, p: Proc, ok: bool)
    requires p in w.procs && CanAdvance(w, p)
    requires TeardownOf(w.procs[p]).Some? && TeardownOf(w.procs[p]).value.1.Unlock?
    ensures
      var after := Next(w, Advance(p, ok));
      p in after.procs ==> TeardownOf(after.procs[p]).None?
  {
    hide AfterTeardown, TeardownNext, IsUpOrComing;
  }

  lemma OwnTeardownProceeds(w: World, p: Proc, ok: bool)
    requires p in w.procs && CanAdvance(w, p) && TeardownIsOnItsWay(w, p)
    ensures TeardownIsOnItsWay(Next(w, Advance(p, ok)), p)
    ensures TeardownOf(w.procs[p]).Some? && TeardownOf(w.procs[p]).value.1.DropRow? && ok ==>
      NoTrace(Next(w, Advance(p, ok)), TeardownOf(w.procs[p]).value.0)
  {
    hide AfterTeardown, TeardownNext, Next, CanAdvance;
    if TeardownOf(w.procs[p]).Some? && !TeardownOf(w.procs[p]).value.1.Unlock? {
      var (id, t) := TeardownOf(w.procs[p]).value;
      TeardownProceeds(w, id, t, ok);
      TeardownMoves(w, p, ok);
    } else if TeardownOf(w.procs[p]).Some? {
      TeardownIsOver(w, p, ok);
    } else {
      TeardownStarts(w, p, ok);
    }
  }

  lemma StepsKeepTeardowns(w: World, a: Act, p: Proc)
    requires Consistent(w) && IdsAreUsed(w) && Enabled(w, a)
    requires TeardownIsOnItsWay(w, p)
    ensures TeardownIsOnItsWay(Next(w, a), p)
  {
    hide LocksAreExact, FreezersAreExplained, SpawnNext, SnapshotNext, DestroyNext, ReconcileNext, TeardownIsOnItsWay;
    StepsKeepLocks(w, a);
    match a {
      case Advance(q, ok) =>
        AdvanceIsOrderly(w, q, ok);
        AdvanceAdds(w, q, ok);
        if q != p {
          OthersLeaveTeardown(w, Next(w, a), q, p);
        } else {
          OwnTeardownProceeds(w, p, ok);
        }
      case Begin(q, op) => BeginLeavesTeardown(w, q, op, p);
      case Crash(q) => CrashLeavesTeardown(w, q, p);
      case GuestDies(id) => DeathLeavesTeardown(w, a, p);
      case Settles(id) => SettlingLeavesTeardown(w, id, p);
    }
  }

  lemma BeginLeavesTeardown(w: World, q: Proc, op: Op, p: Proc)
    requires IdsAreUsed(w) && Enabled(w, Begin(q, op)) && TeardownIsOnItsWay(w, p)
    ensures TeardownIsOnItsWay(Next(w, Begin(q, op)), p)
  {
    if p in w.procs && TeardownOf(w.procs[p]).Some? {
      assert Mentions(w.procs[p], TeardownOf(w.procs[p]).value.0);
    }
  }

  lemma CrashLeavesTeardown(w: World, q: Proc, p: Proc)
    requires Consistent(w) && Enabled(w, Crash(q)) && TeardownIsOnItsWay(w, p)
    ensures TeardownIsOnItsWay(Next(w, Crash(q)), p)
  {
    assert HolderIsRecorded(w, p) && HolderIsRecorded(w, q);
  }

  lemma DeathLeavesTeardown(w: World, a: Act, p: Proc)
    requires Enabled(w, a) && a.GuestDies? && TeardownIsOnItsWay(w, p)
    ensures TeardownIsOnItsWay(Next(w, a), p)
  {
  }

  lemma SettlingLeavesTeardown(w: World, id: Id, p: Proc)
    requires Enabled(w, Settles(id)) && TeardownIsOnItsWay(w, p)
    ensures TeardownIsOnItsWay(Next(w, Settles(id)), p)
  {
  }

  lemma {:induction false} RunsTearDown(ws: seq<World>, acts: seq<Act>, i: nat, p: Proc)
    requires Run(ws, acts) && i < |ws|
    ensures TeardownIsOnItsWay(ws[i], p)
  {
    if i > 0 {
      hide Enabled, Next, TeardownIsOnItsWay, Undisturbed, Consistent;
      RunsTearDown(ws, acts, i - 1, p);
      RunsAreUndisturbed(ws, acts, i - 1);
      RunsAreConsistent(ws, acts, i - 1);
      UndisturbedIdsAreUsed(ws[i - 1]);
      StepsKeepTeardowns(ws[i - 1], acts[i - 1], p);
    }
  }

  lemma UndisturbedIdsAreUsed(w: World)
    requires Undisturbed(w)
    ensures IdsAreUsed(w)
  {
  }

  /**
   A teardown, be it a destroy, a reap or the rollback of a spawn, that comes to remove the
   row has left nothing of the sandbox, whoever else was running.
   */
  lemma TeardownLeavesNothing(ws: seq<World>, acts: seq<Act>, i: nat, p: Proc)
    requires Run(ws, acts) && i < |acts| && acts[i] == Advance(p, true)
    requires TeardownOf(ws[i].procs[p]).Some? && TeardownOf(ws[i].procs[p]).value.1.DropRow?
    ensures NoTrace(ws[i + 1], TeardownOf(ws[i].procs[p]).value.0)
  {
    hide TeardownIsOnItsWay, NoTrace;
    RunsTearDown(ws, acts, i, p);
    OwnTeardownProceeds(ws[i], p, true);
  }

  // ----- teardowns left alone -----

  /** From `i` on, the process `p` takes `n` steps that succeed, and nobody else takes any. */
  ghost predicate Alone(acts: seq<Act>, i: nat, n: nat, p: Proc) {
    i + n <= |acts| && forall k | i <= k < i + n :: acts[k] == Advance(p, true)
  }

  /** Only the sandbox `id` is lost, and the locks stay as they are. */
  ghost predicate OnlyLost(w: World, after: World, id: Id) {
    && after.rows == w.rows - {id} && after.dirs == w.dirs - {id} && after.live == w.live - {id}
    && after.cgroups == w.cgroups - {id} && after.asked == w.asked - {id} && after.frozen == w.frozen - {id}
    && after.abandoned == w.abandoned - {id} && after.lock == w.lock && after.born == w.born
  }

  /** Four steps that succeed remove exactly the sandbox, in the order guest, cgroup, directory, row. */
  lemma TeardownRunsThrough(ws: seq<World>, acts: seq<Act>, i: nat, p: Proc, id: Id)
    requires Run(ws, acts) && Alone(acts, i, 4, p)
    requires p in ws[i].procs && TeardownOf(ws[i].procs[p]) == Some((id, KillGuest))
    ensures OnlyLost(ws[i], ws[i + 4], id)
    ensures p in ws[i + 4].procs && TeardownOf(ws[i + 4].procs[p]) == Some((id, Unlock))
    ensures id !in ws[i + 1].live && id !in ws[i + 2].cgroups && id !in ws[i + 3].dirs
  {
    hide Next, CanAdvance;
    assert forall k | i <= k < i + 4 :: acts[k] == Advance(p, true);
    StepAlone(ws, acts, i, p);
    TeardownMoves(ws[i], p, true);
    StepAlone(ws, acts, i + 1, p);
    TeardownMoves(ws[i + 1], p, true);
    StepAlone(ws, acts, i + 2, p);
    TeardownMoves(ws[i + 2], p, true);
    StepAlone(ws, acts, i + 3, p);
    TeardownMoves(ws[i + 3], p, true);
  }

  lemma StepAlone(ws: seq<World>, acts: seq<Act>, i: nat, p: Proc)
    requires Run(ws, acts) && i < |acts| && acts[i] == Advance(p, true)
    ensures CanAdvance(ws[i], p) && ws[i + 1] == Next(ws[i], Advance(p, true))
  {
    hide Next, CanAdvance;
  }

  // ----- how operations get there, and how they end -----

  /**
   A spawn that fails after its insert, a destroy that gets the lock, and a reconciliation
   that finds a dead sandbox's lock free, and only these, start to tear down, from the guest
   on and holding the lock.
   */
  lemma TeardownStartsIff(ws: seq<World>, acts: seq<Act>, i: nat, p: Proc, ok: bool)
    requires Run(ws, acts) && i < |acts| && acts[i] == Advance(p, ok)
    requires TeardownOf(ws[i].procs[p]).None?
    ensures StartsRightly(ws[i], ws[i + 1], p, ok)
  {
    hide Next, StartsRightly;
    TeardownStarts(ws[i], p, ok);
  }

  /** How an operation may end: done, or with nothing to do, or at the end of a teardown. */
  predicate EndsWell(w: World, op: Op, ok: bool) {
    match op
    case Spawn(id, at) =>
      || (at.GuestUp? && ok && id in w.rows && id in w.dirs)
      || (at.Seeding? && !ok && id !in w.rows)
      || (at.RollingBack? && at.t.Unlock?)
    case Snapshot(id, at) => at.Finishing? || (at.Rechecking? && (id !in w.rows || !ok))
    case Destroy(id, at) => at.Destroying? && at.t.Unlock?
    case Reconcile(todo, at) => at.Picking? && todo == []
  }

  lemma SpawnEnds(w: World, p: Proc, id: Id, at: SpawnAt, ok: bool)
    requires CanAdvance(w, p) && w.procs[p] == Spawn(id, at) && SpawnIsUndisturbed(w, p)
    requires p !in SpawnNext(w, p, id, at, ok).procs
    ensures EndsWell(w, w.procs[p], ok) && id !in SpawnNext(w, p, id, at, ok).lock
  {
    hide AfterTeardown, TeardownNext;
    if at.RollingBack? {
      TeardownAddsNothing(w, id, at.t, ok);
    }
  }

  lemma ReconcileEnds(w: World, p: Proc, todo: seq<Id>, at: ReconcileAt, ok: bool)
    requires CanAdvance(w, p) && w.procs[p] == Reconcile(todo, at)
    requires p !in ReconcileNext(w, p, todo, at, ok).procs
    ensures at.Picking? && todo == []
  {
    hide AfterTeardown, TeardownNext, IsUpOrComing;
    if at.Reaping? {
      TeardownAddsNothing(w, at.reap, at.t, ok);
    }
  }

  lemma OtherEnds(w: World, p: Proc, ok: bool)
    requires CanAdvance(w, p) && (w.procs[p].Destroy? || w.procs[p].Snapshot?)
    requires p !in Next(w, Advance(p, ok)).procs
    ensures EndsWell(w, w.procs[p], ok)
    ensures Holds(w.procs[p]).Some? ==> Holds(w.procs[p]).value !in Next(w, Advance(p, ok)).lock
  {
    hide AfterTeardown, TeardownNext, SpawnNext, ReconcileNext;
  }

  /** Every operation ends in one of these ways, and leaves no lock behind. */
  lemma OperationsEndWell(ws: seq<World>, acts: seq<Act>, i: nat, p: Proc, ok: bool)
    requires Run(ws, acts) && i < |acts| && acts[i] == Advance(p, ok)
    requires p !in ws[i + 1].procs
    ensures EndsWell(ws[i], ws[i].procs[p], ok)
    ensures Holds(ws[i].procs[p]).Some? ==> Holds(ws[i].procs[p]).value !in ws[i + 1].lock
  {
    hide SpawnNext, SnapshotNext, DestroyNext, ReconcileNext, SpawnIsUndisturbed;
    RunsAreUndisturbed(ws, acts, i);
    match ws[i].procs[p]
    case Spawn(id, at) => SpawnEnds(ws[i], p, id, at, ok);
    case Reconcile(todo, at) => ReconcileEnds(ws[i], p, todo, at, ok);
    case _ => OtherEnds(ws[i], p, ok);
  }

  /** A reported freeze that a reconciliation finds with the lock free is lifted. */
  lemma ReconcileThaws(ws: seq<World>, acts: seq<Act>, i: nat, p: Proc, id: Id)
    requires Run(ws, acts) && Alone(acts, i, 2, p)
    requires p in ws[i].procs && ws[i].procs[p].Reconcile? && ws[i].procs[p].re == FoundAlive(id)
    requires id in ws[i].cgroups && id in ws[i].dirs && id !in ws[i].lock && id in ws[i].frozen
    ensures id !in ws[i + 2].asked && id !in ws[i + 2].frozen && id !in ws[i + 2].abandoned
    ensures ws[i + 2].asked == ws[i].asked - {id} && ws[i + 2].frozen == ws[i].frozen - {id}
  {
    StepAlone(ws, acts, i, p);
    StepAlone(ws, acts, i + 1, p);
    hide Run;
  }

  /** A row without a state directory is dropped, and nothing else changes. */
  lemma RowWithoutDirectoryIsDropped(ws: seq<World>, acts: seq<Act>, i: nat, p: Proc, id: Id)
    requires Run(ws, acts) && Alone(acts, i, 2, p)
    requires p in ws[i].procs && ws[i].procs[p].Reconcile? && ws[i].procs[p].re.FoundDead?
    requires ws[i].procs[p].re.dead == id && id !in ws[i].dirs
    ensures ws[i + 2] == ws[i].(rows := ws[i].rows - {id}, procs := ws[i + 2].procs)
  {
    StepAlone(ws, acts, i, p);
    StepAlone(ws, acts, i + 1, p);
    hide Run;
  }

  /** A snapshot goes on only if, with the lock held, its sandbox still has a row. */
  lemma SnapshotRechecks(ws: seq<World>, acts: seq<Act>, i: nat, p: Proc, ok: bool, id: Id)
    requires Run(ws, acts) && i < |acts| && acts[i] == Advance(p, ok)
    requires ws[i].procs[p] == Snapshot(id, Rechecking)
    ensures p in ws[i + 1].procs <==> id in ws[i].rows && ok
    ensures id in ws[i].lock && ws[i].lock[id] == p
  {
    RunsAreConsistent(ws, acts, i);
    assert HolderIsRecorded(ws[i], p);
  }
}
