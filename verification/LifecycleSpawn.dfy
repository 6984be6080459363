/** A sandbox that is still being built keeps its row and its directory, whoever else runs. */
module LifecycleSpawn {
  import opened Options
  import opened Lifecycle
  import opened LifecycleSafety

  function Current(at: ReconcileAt): Option<Id> {
    match at
    case Picking => None
    case FoundAlive(id) => Some(id)
    case Thawing(id) => Some(id)
    case Thawed(id) => Some(id)
    case FoundDead(id, _) => Some(id)
    case FoundNoDir(id) => Some(id)
    case Reaping(id, _, _) => Some(id)
  }

  /** Whether an operation is, or is still going to be, concerned with a sandbox. */
  predicate Mentions(op: Op, id: Id) {
    match op
    case Spawn(x, _) => x == id
    case Snapshot(x, _) => x == id
    case Destroy(x, _) => x == id
    case Reconcile(todo, at) => id in todo || Current(at) == Some(id)
  }

  predicate IsBuilding(at: SpawnAt) {
    !at.RollingBack?
  }

  predicate HasInserted(at: SpawnAt) {
    at.Inserted? || at.HasCgroup? || at.GuestUp?
  }

  predicate WillRemoveRow(op: Op, id: Id) {
    op.Reconcile? && op.re == FoundNoDir(id)
  }

  /** A spawn before its insert is unknown to everyone; after it, its row and directory stay. */
  ghost predicate SpawnIsUndisturbed(w: World, p: Proc) {
    p in w.procs && w.procs[p].Spawn? ==>
      var id, at := w.procs[p].spawned, w.procs[p].sp;
      && (IsBuilding(at) ==> id in w.dirs)
      && (HasInserted(at) ==> id in w.rows)
      && (IsBuilding(at) && !HasInserted(at) ==> id !in w.rows)
      && (forall q | q in w.procs && q != p ::
            && !(w.procs[q].Spawn? && w.procs[q].spawned == id)
            && (IsBuilding(at) ==> !WillRemoveRow(w.procs[q], id))
            && (IsBuilding(at) && !HasInserted(at) ==> !Mentions(w.procs[q], id)))
  }

  /** Only ids that some spawn has used appear anywhere. */
  ghost predicate IdsAreUsed(w: World) {
    && w.rows.Keys <= w.usedIds
    && (forall q, id | q in w.procs && Mentions(w.procs[q], id) :: id in w.usedIds)
  }

  ghost predicate Undisturbed(w: World) {
    IdsAreUsed(w) && forall p :: SpawnIsUndisturbed(w, p)
  }

  /** What a step of `q` can do to the sandboxes of others, and how its own concerns shrink. */
  ghost predicate QuietStep(w: World, after: World, q: Proc) {
    && q in w.procs
    && after.usedIds == w.usedIds
    && (forall id | id in w.rows && id !in after.rows ::
          Holds(w.procs[q]) == Some(id) || WillRemoveRow(w.procs[q], id))
    && (forall id | id in after.rows && id !in w.rows :: w.procs[q] == Spawn(id, Seeding))
    && (forall id | id in w.dirs && id !in after.dirs :: Holds(w.procs[q]) == Some(id))
    && (q in after.procs ==>
          && after.procs[q].Spawn? == w.procs[q].Spawn?
          && (after.procs[q].Spawn? ==> after.procs[q].spawned == w.procs[q].spawned)
          && (forall id | Mentions(after.procs[q], id) :: Mentions(w.procs[q], id))
          && (forall id | WillRemoveRow(after.procs[q], id) :: id !in w.dirs))
  }

  lemma TeardownIsLocal(w: World, id: Id, t: Teardown, ok: bool)
    ensures
      var after := AfterTeardown(w, id, t, ok);
      && after.procs == w.procs && after.usedIds == w.usedIds
      && after.rows.Keys <= w.rows.Keys && w.rows.Keys - {id} <= after.rows.Keys
      && after.dirs <= w.dirs && w.dirs - {id} <= after.dirs
  {
  }

  lemma SpawnIsQuiet(w: World, p: Proc, id: Id, at: SpawnAt, ok: bool)
    requires CanAdvance(w, p) && w.procs[p] == Spawn(id, at)
    ensures QuietStep(w, SpawnNext(w, p, id, at, ok), p)
  {
    hide AfterTeardown, TeardownNext;
    if at.RollingBack? {
      TeardownIsLocal(w, id, at.t, ok);
    }
  }

  lemma SnapshotIsQuiet(w: World, p: Proc, id: Id, at: SnapshotAt, ok: bool)
    requires CanAdvance(w, p) && w.procs[p] == Snapshot(id, at)
    ensures QuietStep(w, SnapshotNext(w, p, id, at, ok), p)
  {
  }

  lemma DestroyIsQuiet(w: World, p: Proc, id: Id, at: DestroyAt, ok: bool)
    requires CanAdvance(w, p) && w.procs[p] == Destroy(id, at)
    ensures QuietStep(w, DestroyNext(w, p, id, at, ok), p)
  {
    hide AfterTeardown, TeardownNext;
    if at.Destroying? {
      TeardownIsLocal(w, id, at.t, ok);
    }
  }

  lemma ReapIsQuiet(w: World, p: Proc, todo: seq<Id>, at: ReconcileAt, ok: bool)
    requires CanAdvance(w, p) && w.procs[p] == Reconcile(todo, at) && at.Reaping?
    ensures QuietStep(w, ReconcileNext(w, p, todo, at, ok), p)
  {
    hide AfterTeardown, TeardownNext;
    TeardownIsLocal(w, at.reap, at.t, ok);
  }

  lemma LookIsQuiet(w: World, p: Proc, todo: seq<Id>, at: ReconcileAt, ok: bool)
    requires CanAdvance(w, p) && w.procs[p] == Reconcile(todo, at) && !at.Reaping?
    ensures QuietStep(w, ReconcileNext(w, p, todo, at, ok), p)
  {
    hide AfterTeardown, TeardownNext;
  }

  lemma AdvanceIsQuiet(w: World, p: Proc, ok: bool)
    requires CanAdvance(w, p)
    ensures QuietStep(w, Next(w, Advance(p, ok)), p)
  {
    hide QuietStep, SpawnNext, SnapshotNext, DestroyNext, ReconcileNext;
    match w.procs[p]
    case Spawn(id, at) => SpawnIsQuiet(w, p, id, at, ok);
    case Snapshot(id, at) => SnapshotIsQuiet(w, p, id, at, ok);
    case Destroy(id, at) => DestroyIsQuiet(w, p, id, at, ok);
    case Reconcile(todo, at) =>
      if at.Reaping? {
        ReapIsQuiet(w, p, todo, at, ok);
      } else {
        LookIsQuiet(w, p, todo, at, ok);
      }
  }

  /** Nobody else's step disturbs a spawn. */
  lemma OthersStayQuiet(w: World, after: World, q: Proc, p: Proc)
    requires LocksAreExact(w) && Undisturbed(w)
    requires ChangesOnlyItself(w, after, q) && QuietStep(w, after, q) && p != q
    ensures SpawnIsUndisturbed(after, p)
  {
    assert SpawnIsUndisturbed(w, p) && SpawnIsUndisturbed(w, q);
    assert HolderIsRecorded(w, p) && HolderIsRecorded(w, q);
  }

  /** A spawn's own step keeps its promises. */
  lemma OwnStepStaysQuiet(w: World, p: Proc, id: Id, at: SpawnAt, ok: bool)
    requires CanAdvance(w, p) && w.procs[p] == Spawn(id, at) && SpawnIsUndisturbed(w, p)
    ensures SpawnIsUndisturbed(SpawnNext(w, p, id, at, ok), p)
  {
    hide AfterTeardown, TeardownNext;
    var after := SpawnNext(w, p, id, at, ok);
    if at.RollingBack? {
      TeardownIsLocal(w, id, at.t, ok);
    }
    forall q | q in after.procs && q != p
      ensures q in w.procs && after.procs[q] == w.procs[q]
    {
    }
  }

  lemma AdvanceKeepsUndisturbed(w: World, p: Proc, ok: bool)
    requires LocksAreExact(w) && Undisturbed(w) && CanAdvance(w, p)
    ensures Undisturbed(Next(w, Advance(p, ok)))
  {
    hide LocksAreExact, SpawnIsUndisturbed, SpawnNext, SnapshotNext, DestroyNext, ReconcileNext;
    var after := Next(w, Advance(p, ok));
    AdvanceIsOrderly(w, p, ok);
    AdvanceIsQuiet(w, p, ok);
    forall q: Proc
      ensures SpawnIsUndisturbed(after, q)
    {
      if q != p {
        OthersStayQuiet(w, after, p, q);
      } else if w.procs[p].Spawn? {
        OwnStepStaysQuiet(w, p, w.procs[p].spawned, w.procs[p].sp, ok);
      } else {
        NoSpawnNoPromise(after, p);
      }
    }
    IdsStayUsed(w, after, p);
  }

  lemma NoSpawnNoPromise(w: World, p: Proc)
    requires p in w.procs ==> !w.procs[p].Spawn?
    ensures SpawnIsUndisturbed(w, p)
  {
  }

  lemma IdsStayUsed(w: World, after: World, p: Proc)
    requires IdsAreUsed(w) && ChangesOnlyItself(w, after, p) && QuietStep(w, after, p)
    ensures IdsAreUsed(after)
  {
    forall id | id in after.rows
      ensures id in after.usedIds
    {
      if id !in w.rows {
        assert Mentions(w.procs[p], id);
      }
    }
  }

  lemma BeginKeepsUndisturbed(w: World, p: Proc, op: Op)
    requires Undisturbed(w) && Enabled(w, Begin(p, op))
    ensures Undisturbed(Next(w, Begin(p, op)))
  {
    var after := Next(w, Begin(p, op));
    forall q: Proc
      ensures SpawnIsUndisturbed(after, q)
    {
      assert SpawnIsUndisturbed(w, q);
    }
  }

  lemma CrashKeepsUndisturbed(w: World, p: Proc)
    requires Undisturbed(w) && Enabled(w, Crash(p))
    ensures Undisturbed(Next(w, Crash(p)))
  {
    var after := Next(w, Crash(p));
    forall q: Proc
      ensures SpawnIsUndisturbed(after, q)
    {
      assert SpawnIsUndisturbed(w, q);
    }
  }

  lemma DeathKeepsUndisturbed(w: World, a: Act)
    requires Undisturbed(w) && Enabled(w, a) && (a.GuestDies? || a.Settles?)
    ensures Undisturbed(Next(w, a))
  {
    forall q: Proc
      ensures SpawnIsUndisturbed(Next(w, a), q)
    {
      assert SpawnIsUndisturbed(w, q);
    }
  }

  lemma {:induction false} RunsAreUndisturbed(ws: seq<World>, acts: seq<Act>, i: nat)
    requires Run(ws, acts) && i < |ws|
    ensures Undisturbed(ws[i])
  {
    if i > 0 {
      RunsAreUndisturbed(ws, acts, i - 1);
      RunsAreConsistent(ws, acts, i - 1);
      hide Undisturbed, Consistent;
      ConsistentLocks(ws[i - 1]);
      match acts[i - 1]
      case Begin(p, op) => BeginKeepsUndisturbed(ws[i - 1], p, op);
      case Advance(p, ok) => AdvanceKeepsUndisturbed(ws[i - 1], p, ok);
      case Crash(p) => CrashKeepsUndisturbed(ws[i - 1], p);
      case _ => DeathKeepsUndisturbed(ws[i - 1], acts[i - 1]);
    }
  }

  lemma ConsistentLocks(w: World)
    requires Consistent(w)
    ensures LocksAreExact(w)
  {
  }

  /**
   At any point of any run, a sandbox under construction has its directory, and from its
   insert on also its row: neither a destroy nor a reconciliation can take them away.
   */
  lemma BuildingSandboxesKeepTheirState(ws: seq<World>, acts: seq<Act>, i: nat, p: Proc)
    requires Run(ws, acts) && i < |ws|
    requires p in ws[i].procs && ws[i].procs[p].Spawn? && IsBuilding(ws[i].procs[p].sp)
    ensures ws[i].procs[p].spawned in ws[i].dirs
    ensures ws[i].procs[p].spawned in ws[i].rows <==> HasInserted(ws[i].procs[p].sp)
  {
    RunsAreUndisturbed(ws, acts, i);
    assert SpawnIsUndisturbed(ws[i], p);
  }
}
