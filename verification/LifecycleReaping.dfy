/** When a reconciliation reaps a sandbox that is alive. */
module LifecycleReaping {
  import opened Options
  import opened Lifecycle
  import opened LifecycleSafety
  import opened LifecycleSpawn

  // ----- each sandbox is born once -----

  predicate IsUnborn(at: SpawnAt) {
    at.WantsSpawnLock? || at.Seeding? || at.Inserted? || at.HasCgroup?
  }

  /** The spawn `p` has not brought its sandbox up yet. */
  ghost predicate SpawnIsUnborn(w: World, p: Proc) {
    p in w.procs && w.procs[p].Spawn? && IsUnborn(w.procs[p].sp) ==> w.procs[p].spawned !in w.born
  }

  /** The live sandboxes are those that came up and did not die. */
  ghost predicate LivesAddUp(w: World) {
    w.live == w.born - w.died && w.died <= w.born && w.born <= w.usedIds
  }

  /** The sandbox that `p` found dead, if it is dealing with one, and what it did not see. */
  function FoundDeadBy(w: World, p: Proc): Option<(Id, bool)> {
    if p in w.procs && w.procs[p].Reconcile? then
      match w.procs[p].re
      case FoundDead(id, hidden) => Some((id, hidden))
      case Reaping(id, hidden, _) => Some((id, hidden))
      case _ => None
    else None
  }

  /** A sandbox found dead is alive, or is coming up, only if it was so then. */
  ghost predicate DeathIsExplained(w: World, p: Proc) {
    FoundDeadBy(w, p).Some? ==>
      var (id, hidden) := FoundDeadBy(w, p).value;
      IsUpOrComing(w, id) ==> hidden
  }

  ghost predicate Explained(w: World) {
    && LivesAddUp(w)
    && (forall p :: SpawnIsUnborn(w, p))
    && (forall p :: DeathIsExplained(w, p))
  }

  // ----- what a step does to lives -----

  /** Nobody is born, and whoever is gone has died. */
  predicate NobodyIsBorn(w: World, after: World) {
    after.born == w.born && after.live <= w.live && after.died == w.died + (w.live - after.live)
  }

  predicate Births(w: World, after: World, id: Id) {
    after.born == w.born + {id} && after.live == w.live + {id} && after.died == w.died
  }

  /** What a step of `p` does to lives, and how `p` comes by a spawn or by a sandbox found dead. */
  ghost predicate VitalStep(w: World, after: World, p: Proc) {
    && p in w.procs && after.usedIds == w.usedIds
    && (if p in after.procs && w.procs[p].Spawn? && w.procs[p].sp.HasCgroup?
          && after.procs[p] == Spawn(w.procs[p].spawned, GuestUp)
        then Births(w, after, w.procs[p].spawned)
        else NobodyIsBorn(w, after))
    && (p in after.procs && after.procs[p].Spawn? ==>
          && w.procs[p].Spawn? && after.procs[p].spawned == w.procs[p].spawned
          && (IsUnborn(after.procs[p].sp) ==> IsUnborn(w.procs[p].sp) && NobodyIsBorn(w, after)))
    && (FoundDeadBy(after, p).Some? ==>
          || FoundDeadBy(after, p) == FoundDeadBy(w, p)
          || (w.procs[p].Reconcile? && w.procs[p].re.Picking? &&
              var (id, hidden) := FoundDeadBy(after, p).value;
              hidden == IsUpOrComing(w, id)))
  }

  lemma SpawnIsVital(w: World, p: Proc, id: Id, at: SpawnAt, ok: bool)
    requires CanAdvance(w, p) && w.procs[p] == Spawn(id, at)
    ensures VitalStep(w, SpawnNext(w, p, id, at, ok), p)
  {
    hide AfterTeardown, TeardownNext, IsComingUp;
    if at.RollingBack? {
      TeardownSteps(w, id, at.t, ok);
      TeardownIsLocal(w, id, at.t, ok);
    }
  }

  lemma SnapshotIsVital(w: World, p: Proc, id: Id, at: SnapshotAt, ok: bool)
    requires CanAdvance(w, p) && w.procs[p] == Snapshot(id, at)
    ensures VitalStep(w, SnapshotNext(w, p, id, at, ok), p)
  {
    hide IsComingUp;
  }

  lemma DestroyIsVital(w: World, p: Proc, id: Id, at: DestroyAt, ok: bool)
    requires CanAdvance(w, p) && w.procs[p] == Destroy(id, at)
    ensures VitalStep(w, DestroyNext(w, p, id, at, ok), p)
  {
    hide AfterTeardown, TeardownNext, IsComingUp;
    if at.Destroying? {
      TeardownSteps(w, id, at.t, ok);
      TeardownIsLocal(w, id, at.t, ok);
    }
  }

  lemma ReconcileIsVital(w: World, p: Proc, todo: seq<Id>, at: ReconcileAt, ok: bool)
    requires CanAdvance(w, p) && w.procs[p] == Reconcile(todo, at)
    ensures VitalStep(w, ReconcileNext(w, p, todo, at, ok), p)
  {
    hide AfterTeardown, TeardownNext, IsComingUp;
    if at.Reaping? {
      TeardownSteps(w, at.reap, at.t, ok);
      TeardownIsLocal(w, at.reap, at.t, ok);
    }
  }

  lemma AdvanceIsVital(w: World, p: Proc, ok: bool)
    requires CanAdvance(w, p)
    ensures VitalStep(w, Next(w, Advance(p, ok)), p)
  {
    hide VitalStep, SpawnNext, SnapshotNext, DestroyNext, ReconcileNext;
    match w.procs[p]
    case Spawn(id, at) => SpawnIsVital(w, p, id, at, ok);
    case Snapshot(id, at) => SnapshotIsVital(w, p, id, at, ok);
    case Destroy(id, at) => DestroyIsVital(w, p, id, at, ok);
    case Reconcile(todo, at) => ReconcileIsVital(w, p, todo, at, ok);
  }

  // ----- the invariant -----

  lemma VitalStepAddsUp(w: World, after: World, p: Proc)
    requires LivesAddUp(w) && SpawnIsUnborn(w, p) && IdsAreUsed(w) && VitalStep(w, after, p)
    ensures LivesAddUp(after)
  {
    hide FoundDeadBy, IsComingUp;
    if w.procs[p].Spawn? {
      assert Mentions(w.procs[p], w.procs[p].spawned);
    }
  }

  lemma VitalStepKeepsUnborn(w: World, after: World, p: Proc, q: Proc)
    requires SpawnIsUnborn(w, p) && SpawnIsUnborn(w, q) && SpawnIsUndisturbed(w, p)
    requires ChangesOnlyItself(w, after, p) && VitalStep(w, after, p)
    ensures SpawnIsUnborn(after, q)
  {
    hide FoundDeadBy, IsComingUp;
  }

  /** A sandbox that comes up in a step of `p` was coming up before, or nobody else has heard of it. */
  lemma ComingUpIsUnheardOf(w: World, after: World, p: Proc, id: Id, q: Proc)
    requires Undisturbed(w) && ChangesOnlyItself(w, after, p) && VitalStep(w, after, p)
    requires q in w.procs && Mentions(w.procs[q], id) && q != p
    requires IsComingUp(after, id)
    ensures IsComingUp(w, id)
  {
    hide FoundDeadBy;
    var r :| r in after.procs && (after.procs[r] == Spawn(id, Inserted) || after.procs[r] == Spawn(id, HasCgroup));
    assert SpawnIsUndisturbed(w, p);
  }

  lemma OthersStayExplained(w: World, after: World, p: Proc, q: Proc)
    requires Undisturbed(w) && DeathIsExplained(w, q)
    requires ChangesOnlyItself(w, after, p) && VitalStep(w, after, p) && p != q
    ensures DeathIsExplained(after, q)
  {
    hide Undisturbed, IsComingUp;
    if FoundDeadBy(after, q).Some? {
      assert FoundDeadBy(w, q) == FoundDeadBy(after, q);
      var (id, hidden) := FoundDeadBy(w, q).value;
      assert Mentions(w.procs[q], id);
      if IsComingUp(after, id) {
        ComingUpIsUnheardOf(w, after, p, id, q);
      }
      if id in after.live && id !in w.live {
        assert w.procs[p] == Spawn(id, HasCgroup);
        SpawnComesUp(w, p, id);
      }
    }
  }

  lemma SpawnComesUp(w: World, p: Proc, id: Id)
    requires p in w.procs && w.procs[p] == Spawn(id, HasCgroup)
    ensures IsComingUp(w, id)
  {
  }

  lemma OwnStaysExplained(w: World, after: World, p: Proc)
    requires DeathIsExplained(w, p)
    requires ChangesOnlyItself(w, after, p) && VitalStep(w, after, p)
    ensures DeathIsExplained(after, p)
  {
    if FoundDeadBy(after, p).Some? {
      var id := FoundDeadBy(after, p).value.0;
      assert IsComingUp(after, id) ==> IsComingUp(w, id) by {
        hide VitalStep;
      }
    }
  }

  lemma AdvanceKeepsExplained(w: World, p: Proc, ok: bool)
    requires Explained(w) && Undisturbed(w) && CanAdvance(w, p)
    ensures Explained(Next(w, Advance(p, ok)))
  {
    hide Undisturbed, SpawnIsUndisturbed, VitalStep, ChangesOnlyItself, LivesAddUp, SpawnIsUnborn, DeathIsExplained;
    var after := Next(w, Advance(p, ok));
    AdvanceIsOrderly(w, p, ok);
    AdvanceIsVital(w, p, ok);
    OnesOwnSpawn(w, p);
    VitalStepAddsUp(w, after, p);
    forall q: Proc
      ensures SpawnIsUnborn(after, q) && DeathIsExplained(after, q)
    {
      VitalStepKeepsUnborn(w, after, p, q);
      if q != p {
        OthersStayExplained(w, after, p, q);
      } else {
        OwnStaysExplained(w, after, p);
      }
    }
  }

  lemma OnesOwnSpawn(w: World, p: Proc)
    requires Undisturbed(w)
    ensures IdsAreUsed(w) && SpawnIsUndisturbed(w, p)
  {
  }

  lemma BeginKeepsExplained(w: World, p: Proc, op: Op)
    requires Explained(w) && Enabled(w, Begin(p, op))
    ensures Explained(Next(w, Begin(p, op)))
  {
    OthersKeepExplained(w, Next(w, Begin(p, op)));
  }

  lemma CrashKeepsExplained(w: World, p: Proc)
    requires Explained(w) && Enabled(w, Crash(p))
    ensures Explained(Next(w, Crash(p)))
  {
    OthersKeepExplained(w, Next(w, Crash(p)));
  }

  /** Steps that start or end operations, or lose guests, explain no less. */
  lemma OthersKeepExplained(w: World, after: World)
    requires Explained(w)
    requires NobodyIsBorn(w, after) && w.usedIds <= after.usedIds
    requires forall q | q in after.procs ::
      || (q in w.procs && after.procs[q] == w.procs[q])
      || (after.procs[q].Spawn? && after.procs[q].sp.WantsSpawnLock? && after.procs[q].spawned !in w.usedIds)
      || after.procs[q].Snapshot? || after.procs[q].Destroy?
      || (after.procs[q].Reconcile? && after.procs[q].re.Picking?)
    ensures Explained(after)
  {
    forall q: Proc
      ensures SpawnIsUnborn(after, q) && DeathIsExplained(after, q)
    {
      assert SpawnIsUnborn(w, q) && DeathIsExplained(w, q);
    }
  }

  lemma {:induction false} RunsAreExplained(ws: seq<World>, acts: seq<Act>, i: nat)
    requires Run(ws, acts) && i < |ws|
    ensures Explained(ws[i])
  {
    if i > 0 {
      RunsAreExplained(ws, acts, i - 1);
      RunsAreUndisturbed(ws, acts, i - 1);
      hide Explained, Undisturbed;
      match acts[i - 1]
      case Begin(p, op) => BeginKeepsExplained(ws[i - 1], p, op);
      case Advance(p, ok) => AdvanceKeepsExplained(ws[i - 1], p, ok);
      case Crash(p) => CrashKeepsExplained(ws[i - 1], p);
      case _ => OthersKeepExplained(ws[i - 1], ws[i]);
    }
  }

  // ----- reaping -----

  /** When the reconciliation `p` read that the sandbox it is dealing with was dead. */
  lemma {:induction false} DeathWasRead(ws: seq<World>, acts: seq<Act>, i: nat, p: Proc) returns (k: nat)
    requires Run(ws, acts) && i < |ws| && FoundDeadBy(ws[i], p).Some?
    ensures k < i && acts[k].Advance? && acts[k].p == p
    ensures p in ws[k].procs && ws[k].procs[p].Reconcile? && ws[k].procs[p].re.Picking?
    ensures
      var (id, hidden) := FoundDeadBy(ws[i], p).value;
      hidden == IsUpOrComing(ws[k], id) && (id in ws[k].live ==> !acts[k].ok)
  {
    var w, a := ws[i - 1], acts[i - 1];
    if a.Advance? && a.p == p && FoundDeadBy(w, p) != FoundDeadBy(ws[i], p) {
      AdvanceIsVital(w, p, a.ok);
      k := i - 1;
    } else {
      SameFoundDead(w, a, p);
      k := DeathWasRead(ws, acts, i - 1, p);
    }
  }

  lemma SameFoundDead(w: World, a: Act, p: Proc)
    requires Enabled(w, a) && FoundDeadBy(Next(w, a), p).Some?
    requires a.Advance? && a.p == p ==> FoundDeadBy(w, p) == FoundDeadBy(Next(w, a), p)
    ensures FoundDeadBy(w, p) == FoundDeadBy(Next(w, a), p)
  {
    hide SpawnNext, SnapshotNext, DestroyNext, ReconcileNext;
    if a.Advance? {
      AdvanceIsOrderly(w, a.p, a.ok);
    }
  }

  lemma ComingUpIsLocked(ws: seq<World>, acts: seq<Act>, k: nat, id: Id)
    requires Run(ws, acts) && k < |ws| && IsComingUp(ws[k], id)
    ensures id in ws[k].lock
  {
    var q :| q in ws[k].procs && (ws[k].procs[q] == Spawn(id, Inserted) || ws[k].procs[q] == Spawn(id, HasCgroup));
    RunsAreConsistent(ws, acts, k);
    assert HolderIsRecorded(ws[k], q);
  }

  /**
   Reconciliation kills a live guest exactly if, when it found the sandbox dead, the guest was
   up and its liveness could not be read, or a spawn was about to bring it up, holding its
   lock; and the guest came up and has not died since. A reconciliation whose reads succeed
   and that passed over sandboxes whose lock is held then would never reap a live one.
   */
  lemma ReapedAliveIff(ws: seq<World>, acts: seq<Act>, i: nat, p: Proc) returns (k: nat)
    requires Run(ws, acts) && i < |ws|
    requires p in ws[i].procs && ws[i].procs[p].Reconcile? && ws[i].procs[p].re.Reaping?
    ensures
      var id := ws[i].procs[p].re.reap;
      && k < i && acts[k].Advance? && acts[k].p == p
      && p in ws[k].procs && ws[k].procs[p].Reconcile? && ws[k].procs[p].re.Picking?
      && (id in ws[k].live ==> !acts[k].ok)
      && (id in ws[i].live <==>
            (id in ws[k].live || IsComingUp(ws[k], id)) && id in ws[i].born && id !in ws[i].died)
      && (id !in ws[k].lock && id !in ws[k].live ==> id !in ws[i].live)
  {
    k := DeathWasRead(ws, acts, i, p);
    RunsAreExplained(ws, acts, i);
    assert DeathIsExplained(ws[i], p);
    if IsComingUp(ws[k], ws[i].procs[p].re.reap) {
      ComingUpIsLocked(ws, acts, k, ws[i].procs[p].re.reap);
    }
  }
}
