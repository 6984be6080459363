/** The registry of sandboxes and snapshots: two tables with the schema's constraints. */
module Registry {
  import opened Options

  type Key = string

  /** `key` is unique, `name` is unique where present; `ours` tells this backend's rows. */
  datatype Sandbox = Sandbox(key: Key, name: Option<string>, ready: bool, ours: bool)

  datatype Snapshot = Snapshot(key: Key, sandbox: Option<Key>, name: string, size: nat)

  datatype Outcome<+T> = Found(value: T) | AlreadyExists | NotFound

  ghost predicate NamesAreUnique(sandboxes: map<Key, Sandbox>) {
    forall a, b | a in sandboxes && b in sandboxes && a != b ::
      sandboxes[a].name.None? || sandboxes[a].name != sandboxes[b].name
  }

  /** `UNIQUE (sandbox_id, name)`; rows whose sandbox is NULL never collide. */
  ghost predicate LabelsAreUnique(snapshots: map<Key, Snapshot>) {
    forall a, b | a in snapshots && b in snapshots && a != b ::
      snapshots[a].sandbox.None? || snapshots[a].sandbox != snapshots[b].sandbox
      || snapshots[a].name != snapshots[b].name
  }

  ghost predicate NothingDangles(sandboxes: map<Key, Sandbox>, snapshots: map<Key, Snapshot>) {
    forall k | k in snapshots && snapshots[k].sandbox.Some? :: snapshots[k].sandbox.value in sandboxes
  }

  /** `ON DELETE SET NULL`. */
  function Orphaned(snapshots: map<Key, Snapshot>, gone: set<Key>): map<Key, Snapshot> {
    map k | k in snapshots ::
      if snapshots[k].sandbox.Some? && snapshots[k].sandbox.value in gone
      then snapshots[k].(sandbox := None) else snapshots[k]
  }

  /**
   No snapshot is lost, and each keeps its key, name and size; its sandbox is gone from it if
   it was one of `gone`, and is what it was otherwise.
   */
  ghost predicate Detached(before: map<Key, Snapshot>, after: map<Key, Snapshot>, gone: set<Key>) {
    && after.Keys == before.Keys
    && forall k | k in before ::
         && after[k].key == before[k].key && after[k].name == before[k].name && after[k].size == before[k].size
         && (before[k].sandbox.Some? && before[k].sandbox.value in gone ==> after[k].sandbox == None)
         && (before[k].sandbox.Some? && before[k].sandbox.value !in gone ==> after[k].sandbox == before[k].sandbox)
         && (before[k].sandbox.None? ==> after[k].sandbox == None)
  }

  lemma OrphanedIsDetached(snapshots: map<Key, Snapshot>, gone: set<Key>)
    ensures Detached(snapshots, Orphaned(snapshots, gone), gone)
  {
  }

  class Tables {
    var sandboxes: map<Key, Sandbox>
    var snapshots: map<Key, Snapshot>

    ghost predicate Valid()
      reads this
    {
      && (forall k | k in sandboxes :: sandboxes[k].key == k)
      && (forall k | k in snapshots :: snapshots[k].key == k)
      && NamesAreUnique(sandboxes) && LabelsAreUnique(snapshots) && NothingDangles(sandboxes, snapshots)
    }

    constructor ()
      ensures Valid() && sandboxes == map[] && snapshots == map[]
    {
      sandboxes, snapshots := map[], map[];
    }

    method InsertSandbox(sb: Sandbox) returns (r: Outcome<()>)
      requires Valid()
      modifies this
      ensures Valid() && snapshots == old(snapshots)
      ensures r == if sb.key in old(sandboxes) ||
                      (sb.name.Some? && exists k | k in old(sandboxes) :: old(sandboxes)[k].name == sb.name)
                   then AlreadyExists else Found(())
      ensures sandboxes == if r.Found? then old(sandboxes)[sb.key := sb] else old(sandboxes)
    {
      if sb.key in sandboxes || (sb.name.Some? && exists k | k in sandboxes :: sandboxes[k].name == sb.name) {
        return AlreadyExists;
      }
      sandboxes := sandboxes[sb.key := sb];
      r := Found(());
    }

    /** `WHERE id = ?1 OR name = ?1`: some matching row, and none only if nothing matches. */
    method GetSandbox(key: string) returns (r: Outcome<Sandbox>)
      requires Valid()
      ensures r.Found? ==> r.value in sandboxes.Values && (r.value.key == key || r.value.name == Some(key))
      ensures !r.Found? ==>
        r.NotFound? && key !in sandboxes && forall k | k in sandboxes :: sandboxes[k].name != Some(key)
    {
      if k: Key :| k in sandboxes && (sandboxes[k].key == key || sandboxes[k].name == Some(key)) {
        return Found(sandboxes[k]);
      }
      r := NotFound;
    }

    /** Idempotent; snapshots outlive the sandbox they were taken from. */
    method RemoveSandbox(key: Key)
      requires Valid()
      modifies this
      ensures Valid()
      ensures sandboxes == old(sandboxes) - {key}
      ensures snapshots == Orphaned(old(snapshots), {key})
      ensures Detached(old(snapshots), snapshots, {key})
    {
      sandboxes := sandboxes - {key};
      snapshots := Orphaned(snapshots, {key});
    }

    /** A missing sandbox is a foreign-key violation, and reported like every constraint. */
    method InsertSnapshot(sn: Snapshot) returns (r: Outcome<()>)
      requires Valid()
      modifies this
      ensures Valid() && sandboxes == old(sandboxes)
      ensures r.Found? || r.AlreadyExists?
      ensures r.Found? <==>
        && sn.key !in old(snapshots)
        && (sn.sandbox.Some? ==>
              && sn.sandbox.value in sandboxes
              && forall k | k in old(snapshots) ::
                   old(snapshots)[k].sandbox != sn.sandbox || old(snapshots)[k].name != sn.name)
      ensures snapshots == if r.Found? then old(snapshots)[sn.key := sn] else old(snapshots)
    {
      if sn.key in snapshots || (sn.sandbox.Some? && sn.sandbox.value !in sandboxes) {
        return AlreadyExists;
      }
      if sn.sandbox.Some? &&
         exists k | k in snapshots :: snapshots[k].sandbox == sn.sandbox && snapshots[k].name == sn.name {
        return AlreadyExists;
      }
      snapshots := snapshots[sn.key := sn];
      r := Found(());
    }
  }

  /** Removing sandboxes one by one or together orphans the same snapshots. */
  lemma OrphaningComposes(snapshots: map<Key, Snapshot>, a: set<Key>, b: set<Key>)
    ensures Orphaned(Orphaned(snapshots, a), b) == Orphaned(snapshots, a + b)
  {
  }
}
