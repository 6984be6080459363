/**
 Consequences of exactness: which layers are faithful in practice, a layer that is not,
 and that a faithful report is enough to rebuild the merged view.
 */
module DiffTheorems {
  import opened Options
  import opened Trees
  import opened Overlay
  import opened Diff

  // ----- ordinary layers are faithful -----

  /**
   Inside an opaque upper directory, every upper directory facing a base directory is
   itself opaque.
   */
  predicate OpaqueAllTheWay(u: Node, b: Option<Node>, hidden: bool)
    decreases u
  {
    u.Dir? && b.Some? && b.value.Dir? ==>
      && (hidden ==> IsOpaque(u))
      && forall n | n in u.children :: OpaqueAllTheWay(u.children[n], Child(b, n), hidden || IsOpaque(u))
  }

  lemma {:induction false} OpaqueLayersAreFaithful(access: Access, at: Path, u: Node, b: Option<Node>, hidden: bool)
    requires b.None? || WhiteoutFree(b.value)
    requires forall p :: access.follow(p) == map[]
    requires forall p, n :: access.reachable(p, n)
    requires OpaqueAllTheWay(u, b, hidden)
    ensures Faithful(access, at, u, b, hidden)
    decreases u
  {
    if u.Dir? {
      forall n | n in u.children
        ensures Faithful(access, at + [n], u.children[n], Child(b, n), hidden || IsOpaque(u))
      {
        OpaqueLayersAreFaithful(access, at + [n], u.children[n], Child(b, n), hidden || IsOpaque(u));
      }
    }
  }

  /**
   On a base without whiteouts or directory symlinks, all of it reachable, opaqueness
   all the way down is enough.
   */
  lemma OrdinaryLayersAreExact(access: Access, u: Node, b: Node, p: Path)
    requires u.Dir? && b.Dir? && !IsOpaque(u)
    requires WhiteoutFree(b) && forall at :: access.follow(at) == map[]
    requires forall at, n :: access.reachable(at, n)
    requires OpaqueAllTheWay(u, Some(b), false)
    ensures ReportAt(access, u, b, p) == TruthAt(u, b, p)
  {
    hide Faithful;
    forall n | n in u.children
      ensures Faithful(access, [] + [n], u.children[n], Child(Some(b), n), IsOpaque(u))
    {
      OpaqueLayersAreFaithful(access, [] + [n], u.children[n], Child(Some(b), n), false);
    }
    FaithfulReport(access, u, b, p);
  }

  // ----- a layer that is not -----

  const NOBODY := Owner(0, 0)
  const PLAIN := Mode(false, false, false, 0x1ed)

  function PlainDir(children: map<Name, Node>): Node {
    Dir(NOBODY, PLAIN, map[], children)
  }

  /**
   An opaque directory `d` of the upper layer holds a directory `s` that is not opaque, and
   the base holds `d/s/x`, which the overlay hides: the walker loses that deletion.
   */
  lemma NestedDirectoryLosesDeletion(access: Access, u: Node, b: Node, d: Name, s: Name, x: Name)
    requires u.Dir? && b.Dir? && !IsOpaque(u)
    requires d in u.children && IsOpaque(u.children[d]) && d in b.children
    requires
      var ud, bd := u.children[d], b.children[d];
      && bd.Dir? && s in ud.children && ud.children[s].Dir? && !IsOpaque(ud.children[s])
      && s in bd.children && bd.children[s].Dir?
      && x in bd.children[s].children && x !in ud.children[s].children
      && !IsWhiteout(bd.children[s].children[x])
    ensures TruthAt(u, b, [d, s, x]) == Some(ChangeFor(Deleted, Visible(b.children[d].children[s].children[x])))
    ensures ReportAt(access, u, b, [d, s, x]) == None
    ensures !FaithfulLayer(access, u, b)
  {
    var ud, bd := u.children[d], b.children[d];
    var us, bs := ud.children[s], bd.children[s];
    assert [d, s, x] == [d] + [s, x] && [s, x] == [s] + [x] && [x] == [x] + [];
    RootStep(access, u, b, d, [s, x]);
    TruthStep(ud, Some(bd), false, s, [x]);
    TruthStep(us, Some(bs), true, x, []);
    NestedNameIsUnreported(access, [] + [d], ud, LookBelow(access, [], Some(b), d), s, x);
    if FaithfulLayer(access, u, b) {
      FaithfulReport(access, u, b, [d, s, x]);
    }
  }

  /** Whatever the base holds, a name is not reported below a plain directory that does not name it. */
  lemma NestedNameIsUnreported(access: Access, at: Path, ud: Node, bd: Option<Node>, s: Name, x: Name)
    requires ud.Dir? && s in ud.children
    requires ud.children[s].Dir? && !IsOpaque(ud.children[s]) && x !in ud.children[s].children
    ensures EntryBelow(access, at, ud, bd, [s, x]) == None
  {
    assert [s, x][1..] == [x];
    var bs := LookBelow(access, at, bd, s);
    assert WalkBelow(access, at + [s], ud.children[s], bs, [x]) == None;
    assert EntryBelow(access, at + [s], ud.children[s], bs, [x]) == None;
    assert WalkBelow(access, at, ud, bd, [s, x]) == None;
    assert bd.Some? ==> ShadowedBelow(ud, bd.value, [s, x]) == None;
  }

  function OpaqueDir(children: map<Name, Node>): Node {
    Dir(NOBODY, PLAIN, map["user.overlay.opaque" := "y"], children)
  }

  /** Such a layer exists: `rm -r d; mkdir -p d/s` over a base holding `d/s/x`. */
  lemma UnfaithfulLayerExists(access: Access, d: Name, s: Name, x: Name) returns (u: Node, b: Node)
    ensures u.Dir? && b.Dir? && !IsOpaque(u) && WhiteoutFree(b)
    ensures !FaithfulLayer(access, u, b)
  {
    u := PlainDir(map[d := OpaqueDir(map[s := PlainDir(map[])])]);
    var bs := PlainDir(map[x := File(NOBODY, PLAIN, map[], [])]);
    var bd := PlainDir(map[s := bs]);
    b := PlainDir(map[d := bd]);
    assert WhiteoutFree(bs) && WhiteoutFree(bd);
    NestedDirectoryLosesDeletion(access, u, b, d, s, x);
  }

  /**
   The base holds `d/x`, but `d` cannot be searched on the host, while in the sandbox it could
   be made searchable: a deletion of `d/x` is lost, and a change is reported as an addition.
   */
  lemma UnsearchableDirectoryIsMisreported(access: Access, u: Node, b: Node, d: Name, x: Name)
    requires u.Dir? && b.Dir? && !IsOpaque(u)
    requires d in u.children && u.children[d].Dir? && !IsOpaque(u.children[d])
    requires d in b.children && b.children[d].Dir?
    requires access.reachable([], d) && !access.reachable([d], x)
    requires x in u.children[d].children && !u.children[d].children[x].Dir?
    requires x in b.children[d].children && !IsWhiteout(b.children[d].children[x])
    ensures
      var ux, bx := u.children[d].children[x], b.children[d].children[x];
      if IsWhiteout(ux) then
        ReportAt(access, u, b, [d, x]) == None
        && TruthAt(u, b, [d, x]) == Some(ChangeFor(Deleted, Visible(bx)))
      else
        ReportAt(access, u, b, [d, x]) == Some(ChangeFor(Added, ux))
        && TruthAt(u, b, [d, x]) == Some(ChangeFor(Modified, ux))
    ensures !FaithfulLayer(access, u, b)
  {
    var ud, bd := u.children[d], b.children[d];
    var ux, bx := ud.children[x], bd.children[x];
    assert [d, x] == [d] + [x] && [x] == [x] + [] && [] + [d] == [d];
    RootStep(access, u, b, d, [x]);
    TruthStep(ud, Some(bd), false, x, []);
    EntryStep(access, [d], ud, Some(bd), x, []);
    assert LookBelow(access, [d], Some(bd), x) == None;
    if FaithfulLayer(access, u, b) {
      FaithfulReport(access, u, b, [d, x]);
    }
  }

  /** Such a layer exists, and its walk completes: `chmod 755 d; rm d/x` over a base with a closed `d`. */
  lemma UnsearchableLayerExists(access: Access, d: Name, x: Name) returns (u: Node, b: Node)
    requires access.reachable([], d) && !access.reachable([d], x)
    ensures u.Dir? && b.Dir? && !IsOpaque(u) && WhiteoutFree(b) && OpaqueAllTheWay(u, Some(b), false)
    ensures WalkCompletes(access, [], u, Some(b)) && ReportAt(access, u, b, [d, x]) == None
    ensures TruthAt(u, b, [d, x]).Some? && TruthAt(u, b, [d, x]).value.kind == Deleted
  {
    var ud := PlainDir(map[x := Special(NOBODY, PLAIN, CharDevice, 0)]);
    var bd := Dir(NOBODY, Mode(false, false, false, 0), map[], map[x := File(NOBODY, PLAIN, map[], [])]);
    u, b := PlainDir(map[d := ud]), PlainDir(map[d := bd]);
    assert WhiteoutFree(bd);
    assert OpaqueAllTheWay(ud, Some(bd), false);
    UnsearchableDirectoryIsMisreported(access, u, b, d, x);
    assert [] + [d] == [d];
    assert LookBelow(access, [d], Some(bd), x) == None;
    assert WalkCompletes(access, [d], ud, Some(bd));
  }

  // ----- a faithful report rebuilds the merged view -----

  function ShallowAt(t: Option<Node>, p: Path): Option<Node> {
    var n := Find(t, p);
    if n.Some? then Some(Shallow(n.value)) else None
  }

  /**
   What a path holds after applying one reported change to the base: nothing if deleted, a
   copy from the upper layer if added or modified, and the base's own node otherwise.
   */
  function Patched(change: Option<Change>, upper: Option<Node>, base: Option<Node>): Option<Node> {
    match change
    case None => base
    case Some(c) => if c.kind.Deleted? then None else upper
  }

  /** Where the merged view takes each path from. */
  lemma {:induction false} MergedProvenance(u: Option<Node>, low: Option<Node>, p: Path)
    ensures Find(MergedAt(u, low), p).Some? && Find(u, p).Some? ==>
              ShallowAt(MergedAt(u, low), p) == ShallowAt(u, p)
    ensures Find(MergedAt(u, low), p).Some? && Find(u, p).None? ==>
              Find(MergedAt(u, low), p) == Find(VisibleAt(low), p)
    decreases |p|
  {
    if p != [] {
      FindNothing(p[1..]);
      if u.Some? && u.value.Dir? {
        var n := p[0];
        MergedChild(u.value, low, n);
        VisibleChild(low, n);
        MergedProvenance(Child(u, n), LowerChild(u.value, low, n), p[1..]);
      }
    }
  }

  /** The metadata of directories present on both sides is the one thing a report leaves open. */
  predicate AgreeUpToSharedDirectories(x: Option<Node>, y: Option<Node>) {
    x == y || (x.Some? && y.Some? && x.value.Dir? && y.value.Dir?)
  }

  /**
   Sufficiency: patching the base path by path, reading the upper layer only where a path
   was added or modified, gives the merged view; every path that was reported is exact.
   */
  lemma PatchRebuildsMerged(access: Access, u: Node, b: Node, p: Path)
    requires u.Dir? && b.Dir? && !IsWhiteout(b)
    requires FaithfulLayer(access, u, b)
    ensures
      var change := ReportAt(access, u, b, p);
      var patched := Patched(change, ShallowAt(Some(u), p), ShallowAt(VisibleAt(Some(b)), p));
      var merged := ShallowAt(MergedAt(Some(u), Some(b)), p);
      && AgreeUpToSharedDirectories(patched, merged)
      && (change.Some? ==> patched == merged)
  {
    FaithfulReport(access, u, b, p);
    MergedProvenance(Some(u), Some(b), p);
  }

  /** A tree with the metadata of its directories blanked. */
  function Outline(n: Node): Node
    decreases n
  {
    if n.Dir? then
      Dir(NOBODY, PLAIN, map[], map k | k in n.children :: Outline(n.children[k]))
    else n
  }

  lemma {:induction false} OutlineAt(t: Option<Node>, p: Path)
    requires t.Some?
    ensures Find(Some(Outline(t.value)), p).Some? == Find(t, p).Some?
    ensures Find(t, p).Some? ==> Find(Some(Outline(t.value)), p).value == Outline(Find(t, p).value)
    decreases |p|
  {
    if p != [] {
      var n := p[0];
      FindNothing(p[1..]);
      if Child(t, n).Some? {
        OutlineAt(Child(t, n), p[1..]);
      }
    }
  }

  /** Any tree that shows the patched node at every path is the merged view. */
  lemma PatchedTreeIsMerged(access: Access, u: Node, b: Node, t: Node)
    requires u.Dir? && b.Dir?
    requires FaithfulLayer(access, u, b)
    requires forall p: Path ::
      AgreeUpToSharedDirectories(
        ShallowAt(Some(t), p),
        Patched(ReportAt(access, u, b, p), ShallowAt(Some(u), p), ShallowAt(VisibleAt(Some(b)), p)))
    ensures Outline(t) == Outline(Merge(u, Some(b)))
  {
    var m := Merge(u, Some(b));
    assert MergedAt(Some(u), Some(b)) == Some(m);
    forall p: Path
      ensures Find(Some(Outline(t)), p).Some? == Find(Some(Outline(m)), p).Some?
      ensures Find(Some(Outline(t)), p).Some? && Find(Some(Outline(m)), p).Some? ==>
              Shallow(Find(Some(Outline(t)), p).value) == Shallow(Find(Some(Outline(m)), p).value)
    {
      assert AgreeUpToSharedDirectories(
          ShallowAt(Some(t), p),
          Patched(ReportAt(access, u, b, p), ShallowAt(Some(u), p), ShallowAt(VisibleAt(Some(b)), p)));
      PatchRebuildsMerged(access, u, b, p);
      OutlineAt(Some(t), p);
      OutlineAt(Some(m), p);
    }
    TreesAreExtensional(Outline(t), Outline(m));
  }
}
