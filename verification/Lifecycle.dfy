/**
 Several host processes spawning, snapshotting, destroying and reconciling sandboxes over one
 shared registry, state directories, per-sandbox operation locks and freezers. Processes
 interleave step by step and may crash anywhere; the kernel then releases their locks.
 */
module Lifecycle {
  import opened Options

  type Id = nat
  type Proc = nat

  /** `destroy_inner`, step by step, and the release of the lock after it. */
  datatype Teardown = KillGuest | DropCgroup | DropDir | DropRow | Unlock

  datatype SpawnAt = WantsSpawnLock | Seeding | Inserted | HasCgroup | GuestUp | RollingBack(t: Teardown)

  datatype SnapshotAt = WantsSnapshotLock | Rechecking | Freezing | Copying(froze: bool) | Finishing

  datatype DestroyAt = WantsDestroyLock | Destroying(t: Teardown)

  /**
   `hidden` (history): the sandbox was alive when it was found dead, since the read failed, or
   a spawn was about to bring it up.
   */
  datatype ReconcileAt =
    | Picking
    | FoundAlive(live: Id)
    | Thawing(thaw: Id)
    | Thawed(thawed: Id)
    | FoundDead(dead: Id, hidden: bool)
    | FoundNoDir(rowOnly: Id)
    | Reaping(reap: Id, hidden: bool, t: Teardown)

  datatype Op =
    | Spawn(spawned: Id, sp: SpawnAt)
    | Snapshot(source: Id, sn: SnapshotAt)
    | Destroy(target: Id, de: DestroyAt)
    | Reconcile(todo: seq<Id>, re: ReconcileAt)

  /**
   `rows` is the registry (does the row belong to this backend?), `dirs` the state
   directories, `live` the sandboxes with a live recorded guest, `cgroups` those with a
   recorded cgroup. `asked` are the cgroups told to freeze, `frozen` those that report it
   done, which may take longer than a snapshot waits. `abandoned` (history) are those whose
   snapshot died, or failed to thaw, after it had asked; `born` and `died` (history) the
   sandboxes whose guest came up, and whose guest is gone since.
   */
  datatype World = World(
    rows: map<Id, bool>, dirs: set<Id>, live: set<Id>, cgroups: set<Id>, asked: set<Id>, frozen: set<Id>,
    lock: map<Id, Proc>, procs: map<Proc, Op>, usedIds: set<Id>,
    abandoned: set<Id>, born: set<Id>, died: set<Id>)

  /** A spawn of the sandbox is between its insert and its guest. */
  predicate IsComingUp(w: World, id: Id) {
    exists p | p in w.procs :: w.procs[p] == Spawn(id, Inserted) || w.procs[p] == Spawn(id, HasCgroup)
  }

  predicate IsUpOrComing(w: World, id: Id) {
    id in w.live || IsComingUp(w, id)
  }

  /** The sandbox whose operation lock an operation holds. */
  function Holds(op: Op): Option<Id> {
    match op
    case Spawn(id, at) => if at.WantsSpawnLock? then None else Some(id)
    case Snapshot(id, at) => if at.WantsSnapshotLock? then None else Some(id)
    case Destroy(id, at) => if at.WantsDestroyLock? then None else Some(id)
    case Reconcile(_, at) =>
      match at
      case Thawing(id) => Some(id)
      case Thawed(id) => Some(id)
      case Reaping(id, _, _) => Some(id)
      case _ => None
  }

  // ----- steps -----

  datatype Act =
    | Begin(p: Proc, op: Op)
    | Advance(p: Proc, ok: bool)          // `ok` picks the outcome where the step can fail
    | Crash(p: Proc)
    | GuestDies(id: Id)
    | Settles(id: Id)                     // the kernel reports a freeze done

  function SetOp(w: World, p: Proc, op: Op): World {
    w.(procs := w.procs[p := op])
  }

  function EndOp(w: World, p: Proc): World {
    w.(procs := w.procs - {p})
  }

  function Take(w: World, id: Id, p: Proc): World {
    w.(lock := w.lock[id := p], dirs := w.dirs + {id})
  }

  function Drop(w: World, id: Id): World {
    w.(lock := w.lock - {id})
  }

  /** The sandbox's guest, if it has one, is gone, or no longer on record. */
  function Lose(w: World, id: Id): World {
    w.(live := w.live - {id}, died := w.died + {id} * w.live)
  }

  function Thaw(w: World, id: Id): World {
    w.(asked := w.asked - {id}, frozen := w.frozen - {id}, abandoned := w.abandoned - {id})
  }

  /** The effect of one teardown step on the sandbox itself. */
  function TeardownEffect(w: World, id: Id, t: Teardown): World {
    match t
    case KillGuest => Lose(w, id)
    case DropCgroup => Thaw(w, id).(cgroups := w.cgroups - {id})
    case DropDir => Lose(w, id).(dirs := w.dirs - {id})
    case DropRow => w.(rows := w.rows - {id})
    case Unlock => w
  }

  /** A step that fails ends the teardown early; the cgroup step cannot. */
  function TeardownNext(t: Teardown, ok: bool): Teardown {
    match t
    case KillGuest => if ok then DropCgroup else Unlock
    case DropCgroup => DropDir
    case DropDir => if ok then DropRow else Unlock
    case DropRow => Unlock
    case Unlock => Unlock
  }

  function AfterTeardown(w: World, id: Id, t: Teardown, ok: bool): World {
    if ok || t.DropCgroup? then TeardownEffect(w, id, t) else w
  }

  predicate CanAdvance(w: World, p: Proc) {
    p in w.procs &&
    match w.procs[p]
    case Spawn(id, at) => at.WantsSpawnLock? ==> id !in w.lock
    case Snapshot(id, at) => at.WantsSnapshotLock? ==> id !in w.lock
    case Destroy(id, at) => at.WantsDestroyLock? ==> id !in w.lock
    case Reconcile(_, _) => true
  }

  function SpawnNext(w: World, p: Proc, id: Id, at: SpawnAt, ok: bool): World {
    match at
    case WantsSpawnLock => SetOp(Take(w, id, p), p, Spawn(id, Seeding))
    case Seeding =>
      // A failed seed copy or insert returns without rolling back.
      if ok then SetOp(w.(rows := w.rows[id := true]), p, Spawn(id, Inserted)) else EndOp(Drop(w, id), p)
    case Inserted =>
      if ok then SetOp(w.(cgroups := w.cgroups + {id}), p, Spawn(id, HasCgroup))
      else SetOp(w, p, Spawn(id, RollingBack(KillGuest)))
    case HasCgroup =>
      if ok then
        SetOp(w.(live := w.live + {id}, born := w.born + {id}), p, Spawn(id, GuestUp))
      else SetOp(w, p, Spawn(id, RollingBack(KillGuest)))
    case GuestUp =>
      if ok then EndOp(Drop(w, id), p) else SetOp(w, p, Spawn(id, RollingBack(KillGuest)))
    case RollingBack(t) =>
      if t.Unlock? then EndOp(Drop(w, id), p)
      else SetOp(AfterTeardown(w, id, t, ok), p, Spawn(id, RollingBack(TeardownNext(t, ok))))
  }

  function SnapshotNext(w: World, p: Proc, id: Id, at: SnapshotAt, ok: bool): World {
    match at
    case WantsSnapshotLock => SetOp(Take(w, id, p), p, Snapshot(id, Rechecking))
    case Rechecking =>
      if id in w.rows && ok then SetOp(w, p, Snapshot(id, Freezing)) else EndOp(Drop(w, id), p)
    case Freezing =>
      if ok && id in w.cgroups then SetOp(w.(asked := w.asked + {id}), p, Snapshot(id, Copying(true)))
      else SetOp(w, p, Snapshot(id, Copying(false)))
    case Copying(froze) =>
      // The result of the thaw is ignored.
      var after :=
        if !froze then w
        else if ok then Thaw(w, id)
        else w.(abandoned := w.abandoned + {id});
      SetOp(after, p, Snapshot(id, Finishing))
    case Finishing => EndOp(Drop(w, id), p)
  }

  function DestroyNext(w: World, p: Proc, id: Id, at: DestroyAt, ok: bool): World {
    match at
    case WantsDestroyLock => SetOp(Take(w, id, p), p, Destroy(id, Destroying(KillGuest)))
    case Destroying(t) =>
      if t.Unlock? then EndOp(Drop(w, id), p)
      else SetOp(AfterTeardown(w, id, t, ok), p, Destroy(id, Destroying(TeardownNext(t, ok))))
  }

  function ReconcileNext(w: World, p: Proc, todo: seq<Id>, at: ReconcileAt, ok: bool): World {
    match at
    case Picking =>
      if todo == [] then EndOp(w, p)
      // Liveness that cannot be read counts as death.
      else if todo[0] in w.live && ok then SetOp(w, p, Reconcile(todo[1..], FoundAlive(todo[0])))
      else SetOp(w, p, Reconcile(todo[1..], FoundDead(todo[0], IsUpOrComing(w, todo[0]))))
    case FoundAlive(id) =>
      if id in w.cgroups && id !in w.lock && id in w.dirs && ok
      then SetOp(w.(lock := w.lock[id := p]), p, Reconcile(todo, Thawing(id)))
      else SetOp(w, p, Reconcile(todo, Picking))
    case Thawing(id) =>
      // A freeze that is not reported done is left alone.
      SetOp(if ok && id in w.frozen then Thaw(w, id) else w, p, Reconcile(todo, Thawed(id)))
    case Thawed(id) => SetOp(Drop(w, id), p, Reconcile(todo, Picking))
    case FoundDead(id, hidden) =>
      if id !in w.dirs then SetOp(w, p, Reconcile(todo, FoundNoDir(id)))
      else if id !in w.lock && ok
      then SetOp(w.(lock := w.lock[id := p]), p, Reconcile(todo, Reaping(id, hidden, KillGuest)))
      else SetOp(w, p, Reconcile(todo, Picking))
    case FoundNoDir(id) => SetOp(w.(rows := w.rows - {id}), p, Reconcile(todo, Picking))
    case Reaping(id, hidden, t) =>
      if t.Unlock? then SetOp(Drop(w, id), p, Reconcile(todo, Picking))
      else SetOp(AfterTeardown(w, id, t, ok), p, Reconcile(todo, Reaping(id, hidden, TeardownNext(t, ok))))
  }

  ghost predicate Enabled(w: World, a: Act) {
    match a
    case Begin(p, op) =>
      p !in w.procs &&
      (match op
       case Spawn(id, at) => at.WantsSpawnLock? && id !in w.usedIds
       case Snapshot(id, at) => at.WantsSnapshotLock? && id in w.rows
       case Destroy(id, at) => at.WantsDestroyLock? && id in w.rows
       // The list of rows; those of other backends are skipped.
       case Reconcile(todo, at) => at.Picking? && forall id: Id :: id in todo <==> id in w.rows && w.rows[id])
    case Advance(p, _) => CanAdvance(w, p)
    case Crash(p) => p in w.procs
    case GuestDies(id) => id in w.live
    case Settles(id) => id in w.asked
  }

  ghost function Next(w: World, a: Act): World
    requires Enabled(w, a)
  {
    match a
    case Begin(p, op) =>
      if op.Spawn? then
        SetOp(w.(dirs := w.dirs + {op.spawned}, usedIds := w.usedIds + {op.spawned}), p, op)
      else SetOp(w, p, op)
    case Advance(p, ok) =>
      (match w.procs[p]
       case Spawn(id, at) => SpawnNext(w, p, id, at, ok)
       case Snapshot(id, at) => SnapshotNext(w, p, id, at, ok)
       case Destroy(id, at) => DestroyNext(w, p, id, at, ok)
       case Reconcile(todo, at) => ReconcileNext(w, p, todo, at, ok))
    case Crash(p) =>
      var op := w.procs[p];
      var released := if Holds(op).Some? then Drop(w, Holds(op).value) else w;
      var left := if op.Snapshot? && op.sn == Copying(true)
                  then released.(abandoned := released.abandoned + {op.source}) else released;
      EndOp(left, p)
    case GuestDies(id) => Lose(w, id)
    case Settles(id) => w.(frozen := w.frozen + {id})
  }

  const EMPTY := World(map[], {}, {}, {}, {}, {}, map[], map[], {}, {}, {}, {})

  ghost predicate Run(ws: seq<World>, acts: seq<Act>) {
    && |ws| == |acts| + 1 && ws[0] == EMPTY
    && forall i | 0 <= i < |acts| :: Enabled(ws[i], acts[i]) && ws[i + 1] == Next(ws[i], acts[i])
  }
}
