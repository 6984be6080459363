/** Reconciliation with no other operation in flight and no I/O error, from start to end. */
module Reconciling {
  import opened Registry

  /** Of the rows `done`, those of this backend without a live guest, and with one. */
  function Gone(rows: map<Key, Sandbox>, live: set<Key>, done: set<Key>): set<Key> {
    set k | k in done && k in rows && rows[k].ours && k !in live
  }

  function Kept(rows: map<Key, Sandbox>, live: set<Key>, done: set<Key>): set<Key> {
    set k | k in done && k in rows && rows[k].ours && k in live
  }

  lemma OneMoreRow(rows: map<Key, Sandbox>, live: set<Key>, done: set<Key>, key: Key)
    requires key in rows && key !in done
    ensures Gone(rows, live, done + {key}) ==
      if rows[key].ours && key !in live then Gone(rows, live, done) + {key} else Gone(rows, live, done)
    ensures Kept(rows, live, done + {key}) ==
      if rows[key].ours && key in live then Kept(rows, live, done) + {key} else Kept(rows, live, done)
    ensures key !in Gone(rows, live, done) && key !in Kept(rows, live, done)
  {
  }

  lemma NoRowYet(rows: map<Key, Sandbox>, live: set<Key>)
    ensures Gone(rows, live, {}) == {} && Kept(rows, live, {}) == {}
  {
  }

  /** Everything that a reconciliation may change. */
  datatype Ledger = Ledger(
    sandboxes: map<Key, Sandbox>, snapshots: map<Key, Snapshot>,
    dirs: set<Key>, cgroups: set<Key>, asked: set<Key>, frozen: set<Key>)

  /** All traces of the sandboxes `gone` are removed, and the reported freezes of `kept` lifted. */
  function After(l: Ledger, gone: set<Key>, kept: set<Key>): Ledger {
    Ledger(l.sandboxes - gone, Orphaned(l.snapshots, gone), l.dirs - gone, l.cgroups - gone,
           l.asked - gone - kept * l.frozen, l.frozen - gone - kept)
  }

  lemma AfterNothing(l: Ledger)
    ensures After(l, {}, {}) == l
  {
    assert Orphaned(l.snapshots, {}) == l.snapshots;
  }

  lemma AfterDetaches(l: Ledger, gone: set<Key>, kept: set<Key>)
    ensures Detached(l.snapshots, After(l, gone, kept).snapshots, gone)
  {
    OrphanedIsDetached(l.snapshots, gone);
  }

  lemma AfterOneMore(l: Ledger, gone: set<Key>, kept: set<Key>, key: Key)
    ensures After(After(l, gone, kept), {key}, {}) == After(l, gone + {key}, kept)
    ensures key !in gone ==> After(After(l, gone, kept), {}, {key}) == After(l, gone, kept + {key})
  {
    OrphaningComposes(l.snapshots, gone, {key});
    OrphaningComposes(l.snapshots, gone, {});
    assert gone + {} == gone;
  }

  /** Of this backend's rows: each has a live guest; none is reported, or even told, to be frozen. */
  predicate OursAreLive(l: Ledger, live: set<Key>) {
    forall k | k in l.sandboxes && l.sandboxes[k].ours :: k in live
  }

  predicate OursAreThawed(l: Ledger) {
    forall k | k in l.sandboxes && l.sandboxes[k].ours :: k !in l.frozen
  }

  predicate NothingPends(l: Ledger) {
    forall k | k in l.sandboxes && l.sandboxes[k].ours :: k !in l.asked
  }

  /** Every live sandbox of this backend that was told to freeze was reported frozen. */
  predicate NothingWasPending(l: Ledger, live: set<Key>) {
    forall k | k in l.sandboxes && l.sandboxes[k].ours && k in live && k in l.asked :: k in l.frozen
  }

  /** What is left pending was pending before. */
  lemma PendingFreezesStay(l: Ledger, live: set<Key>)
    ensures
      var rows := l.sandboxes;
      var after := After(l, Gone(rows, live, rows.Keys), Kept(rows, live, rows.Keys));
      && OursAreLive(after, live) && OursAreThawed(after)
      && (NothingPends(after) <==> NothingWasPending(l, live))
  {
    var rows := l.sandboxes;
    var gone, kept := Gone(rows, live, rows.Keys), Kept(rows, live, rows.Keys);
    var after := After(l, gone, kept);
    hide Gone, Kept, Orphaned;
    forall k | k in rows && rows[k].ours
      ensures k in live <==> k in kept
      ensures k in live <==> k in after.sandboxes
      ensures k in live ==> after.sandboxes[k] == rows[k]
    {
      OursIsGoneOrKept(rows, live, k);
    }
    assert forall k | k in after.sandboxes :: k in rows && after.sandboxes[k] == rows[k];
    assert forall k | k in after.sandboxes && after.sandboxes[k].ours :: k in kept && k !in gone;
  }

  lemma OursIsGoneOrKept(rows: map<Key, Sandbox>, live: set<Key>, k: Key)
    requires k in rows && rows[k].ours
    ensures k in Gone(rows, live, rows.Keys) <==> k !in live
    ensures k in Kept(rows, live, rows.Keys) <==> k in live
  {
  }

  /** One user's host: the registry, the state directories, and what the kernel knows. */
  class Host {
    const registry: Tables
    var dirs: set<Key>
    var live: set<Key>
    var cgroups: set<Key>
    var asked: set<Key>      // told to freeze
    var frozen: set<Key>     // and reported frozen

    ghost predicate Valid()
      reads this, registry
    {
      // The pidfile and the cgroup path are recorded inside the state directory.
      registry.Valid() && live <= dirs && cgroups <= dirs && frozen <= asked <= cgroups
    }

    ghost function State(): Ledger
      reads this, registry
    {
      Ledger(registry.sandboxes, registry.snapshots, dirs, cgroups, asked, frozen)
    }

    constructor ()
      ensures Valid() && fresh(registry)
    {
      registry := new Tables();
      dirs, live, cgroups, asked, frozen := {}, {}, {}, {}, {};
    }

    method DestroyInner(key: Key)
      requires Valid()
      modifies this, registry
      ensures Valid() && live == old(live) - {key}
      ensures State() == After(old(State()), {key}, {})
      ensures Detached(old(registry.snapshots), registry.snapshots, {key})
    {
      live := live - {key};
      if key in cgroups {
        asked, frozen := asked - {key}, frozen - {key};
        cgroups := cgroups - {key};
      }
      dirs := dirs - {key};
      registry.RemoveSandbox(key);
    }

    /**
     With its lock free, a frozen sandbox is one that a crashed snapshot left behind. One that
     is told to freeze but not reported frozen yet is left alone.
     */
    method ThawIfOrphaned(key: Key)
      requires Valid()
      modifies `asked, `frozen
      ensures Valid() && asked == old(asked) - {key} * old(frozen) && frozen == old(frozen) - {key}
      ensures State() == After(old(State()), {}, {key})
    {
      AfterNothing(State());
      if key in cgroups && key in frozen {
        asked, frozen := asked - {key}, frozen - {key};
      }
    }

    /** The two ways of `reconcile` with a sandbox that has no live guest. */
    method Reap(key: Key)
      requires Valid() && key !in live
      modifies this, registry
      ensures Valid() && live == old(live)
      ensures State() == After(old(State()), {key}, {})
    {
      if key !in dirs {
        registry.RemoveSandbox(key);
      } else {
        DestroyInner(key);
      }
    }

    /**
     Leaves exactly the rows of other backends and of sandboxes with a live guest, none of
     the latter reported frozen; every snapshot stays, detached from what was removed. No
     live sandbox is left told to freeze exactly if none had such a request still pending.
     */
    method Reconcile() returns (reaped: nat)
      requires Valid()
      modifies this, registry
      ensures Valid() && live == old(live)
      ensures
        var rows := old(registry.sandboxes);
        var gone, kept := Gone(rows, live, rows.Keys), Kept(rows, live, rows.Keys);
        && State() == After(old(State()), gone, kept) && reaped == |gone|
        && Detached(old(registry.snapshots), registry.snapshots, gone)
      ensures OursAreLive(State(), live) && OursAreThawed(State())
      ensures NothingPends(State()) <==> NothingWasPending(old(State()), live)
    {
      hide Gone, Kept, After, Detached, OursAreLive, OursAreThawed, NothingPends, NothingWasPending, Valid;
      var rows := registry.sandboxes;
      var todo := rows.Keys;
      reaped := 0;
      ghost var was := State();
      ghost var done: set<Key>, gone: set<Key>, kept: set<Key> := {}, {}, {};
      NoRowYet(rows, live);
      AfterNothing(was);
      while todo != {}
        invariant Valid() && live == old(live) && todo <= rows.Keys && done == rows.Keys - todo
        invariant gone == Gone(rows, live, done) && kept == Kept(rows, live, done)
        invariant State() == After(was, gone, kept) && reaped == |gone|
      {
        var key :| key in todo;
        OneMoreRow(rows, live, done, key);
        AfterOneMore(was, gone, kept, key);
        todo := todo - {key};
        done := done + {key};
        if !rows[key].ours {
          continue;
        }
        if key in live {
          ThawIfOrphaned(key);
          kept := kept + {key};
          continue;
        }
        Reap(key);
        gone := gone + {key};
        reaped := reaped + 1;
      }
      assert todo == {} && done == rows.Keys;
      PendingFreezesStay(was, live);
      AfterDetaches(was, gone, kept);
    }
  }
}
