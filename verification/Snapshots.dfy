/** A snapshot captures a sandbox's upper layer, and a restore seeds a new sandbox with it. */
module Snapshots {
  import opened Options
  import opened Trees
  import opened Overlay
  import opened Diff
  import opened LayerCopy

  lemma EssenceOfChild(u: Node, n: Name)
    ensures Child(Some(Essence(u)), n) ==
            if Child(Some(u), n).Some? then Some(Essence(Child(Some(u), n).value)) else None
  {
  }

  lemma EssenceKeepsMarkers(u: Node)
    ensures IsWhiteout(Essence(u)) == IsWhiteout(u)
    ensures IsOpaque(Essence(u)) == IsOpaque(u)
    ensures StModeOf(Essence(u)) == StModeOf(u) && StSize(Essence(u)) == StSize(u)
    ensures Essence(u).Dir? == u.Dir?
  {
    var t, v := "trusted.overlay.opaque", "user.overlay.opaque";
    assert t[..16] == "trusted.overlay." && v[..13] == "user.overlay.";
    assert IsOverlayName(t) && IsOverlayName(v);
  }

  /** The walker depends on nothing that a copy may lose. */
  lemma {:induction false} EssenceIsWalkedAlike(access: Access, at: Path, u: Node, b: Option<Node>, q: Path)
    ensures EntryBelow(access, at, Essence(u), b, q) == EntryBelow(access, at, u, b, q)
    ensures WalkBelow(access, at, Essence(u), b, q) == WalkBelow(access, at, u, b, q)
    decreases u
  {
    EssenceKeepsMarkers(u);
    if u.Dir? && q != [] {
      EssenceOfChild(u, q[0]);
      if q[0] in u.children {
        EssenceIsWalkedAlike(access, at + [q[0]], u.children[q[0]], LookBelow(access, at, b, q[0]), q[1..]);
      }
    }
  }

  /** Nor does it depend on any of that whether the walk completes. */
  lemma {:induction false} EssenceCompletesAlike(access: Access, at: Path, u: Node, b: Option<Node>)
    ensures EntryCompletes(access, at, Essence(u), b) == EntryCompletes(access, at, u, b)
    ensures u.Dir? ==> WalkCompletes(access, at, Essence(u), b) == WalkCompletes(access, at, u, b)
    decreases u
  {
    EssenceKeepsMarkers(u);
    if u.Dir? {
      forall n | n in u.children
        ensures EntryCompletes(access, at + [n], Essence(u).children[n], LookBelow(access, at, b, n))
                == EntryCompletes(access, at + [n], u.children[n], LookBelow(access, at, b, n))
      {
        EssenceCompletesAlike(access, at + [n], u.children[n], LookBelow(access, at, b, n));
      }
    }
  }

  /** Neither does the merged view. */
  lemma {:induction false} EssenceMergesAlike(u: Node, lower: Option<Node>)
    ensures Essence(Merge(Essence(u), lower)) == Essence(Merge(u, lower))
    decreases u
  {
    EssenceKeepsMarkers(u);
    if u.Dir? {
      var a, b := Merge(Essence(u), lower), Merge(u, lower);
      var low := Beneath(u, lower);
      forall n | n in u.children
        ensures IsWhiteout(Essence(u).children[n]) == IsWhiteout(u.children[n])
      {
        EssenceKeepsMarkers(u.children[n]);
      }
      assert a.children.Keys == b.children.Keys;
      forall n | n in a.children
        ensures Essence(a.children[n]) == Essence(b.children[n])
      {
        if n in u.children {
          EssenceMergesAlike(u.children[n], if n in low then Some(low[n]) else None);
        }
      }
      EssenceOfDir(a, b);
    }
  }

  lemma EssenceIsReportedAlike(access: Access, u: Node, base: Node, p: Path)
    ensures ReportAt(access, Essence(u), base, p) == ReportAt(access, u, base, p)
  {
    EssenceIsWalkedAlike(access, [], u, Some(base), p);
  }

  /** Layers with the same essence are interchangeable over every base. */
  lemma SameEssenceSameView(u: Node, v: Node)
    requires Essence(u) == Essence(v)
    ensures forall base :: Essence(Merge(u, Some(base))) == Essence(Merge(v, Some(base)))
    ensures forall access, base, p :: ReportAt(access, u, base, p) == ReportAt(access, v, base, p)
    ensures u.Dir? ==>
      forall access, base: Node ::
        WalkCompletes(access, [], u, Some(base)) == WalkCompletes(access, [], v, Some(base))
  {
    hide Essence, Merge, WalkCompletes, ReportAt;
    assert v.Dir? == u.Dir? by {
      EssenceKeepsMarkers(u);
      EssenceKeepsMarkers(v);
    }
    forall base
      ensures Essence(Merge(u, Some(base))) == Essence(Merge(v, Some(base)))
    {
      EssenceMergesAlike(u, Some(base));
      EssenceMergesAlike(v, Some(base));
    }
    forall access, base, p
      ensures ReportAt(access, u, base, p) == ReportAt(access, v, base, p)
    {
      EssenceIsReportedAlike(access, u, base, p);
      EssenceIsReportedAlike(access, v, base, p);
    }
    if u.Dir? {
      forall access, base: Node
        ensures WalkCompletes(access, [], u, Some(base)) == WalkCompletes(access, [], v, Some(base))
      {
        EssenceCompletesAlike(access, [], u, Some(base));
        EssenceCompletesAlike(access, [], v, Some(base));
      }
    }
  }

  /**
   The copies behind `snapshot` (into a path that does not exist yet) and `restore` (into the
   new sandbox's empty upper directory). If both succeed, the restored sandbox's merged view
   and its diff are the original's at the time of capture, over every base; and both do
   unless one of the two copies has a cause to fail.
   */
  method CaptureAndRestore(upper: Node, captured: Slot, restored: Slot,
                           direct1: Faults, helper1: Faults, removed1: bool,
                           direct2: Faults, helper2: Faults, removed2: bool)
    returns (r: Result<nat>)
    requires upper.Dir? && captured != restored
    requires captured.node == None
    requires restored.node.Some? && restored.node.value.Dir?
    requires restored.node.value.children == map[] && restored.node.value.xattrs == map[]
    modifies captured, restored
    ensures r.Ok? ==>
      && captured.node.Some? && restored.node.Some? && r.value == TotalBytes(upper)
      && (forall base :: Essence(Merge(restored.node.value, Some(base))) == Essence(Merge(upper, Some(base))))
      && (forall access, base, p ::
            ReportAt(access, restored.node.value, base, p) == ReportAt(access, upper, base, p))
      && restored.node.value.Dir?
      && (forall access, base: Node ::
            WalkCompletes(access, [], restored.node.value, Some(base)) == WalkCompletes(access, [], upper, Some(base)))
    ensures r.Err? ==>
      || LayerCaused(upper, None, direct1, helper1, removed1, r.error)
      || (captured.node.Some? && Essence(captured.node.value) == Essence(upper) &&
          LayerCaused(captured.node.value, old(restored.node), direct2, helper2, removed2, r.error))
  {
    hide LayerCaused, TreeCaused, HelperCaused;
    var helped;
    r, helped := CopyLayer(upper, captured, direct1, helper1, removed1);
    if r.Err? {
      return;
    }
    assert captured.node.value.Dir? by {
      EssenceKeepsMarkers(captured.node.value);
      EssenceKeepsMarkers(upper);
    }
    var seeded;
    seeded, helped := CopyLayer(captured.node.value, restored, direct2, helper2, removed2);
    if seeded.Err? {
      return seeded;
    }
    SameEssenceSameView(restored.node.value, upper);
  }
}
