/**
 The overlayfs view of one upper layer over one read-only base, following "whiteouts and
 opaque directories" in the Linux kernel's overlayfs documentation. This is the
 specification the diff walker is compared with; nothing here mentions the walker.
 */
module Overlay {
  import opened Options
  import opened Trees

  /** A character device with device number 0:0 marks a deletion. */
  predicate IsWhiteout(n: Node) {
    n.Special? && n.format.CharDevice? && n.rdev == 0
  }

  predicate HasValue(x: Xattrs, name: string, v: string) {
    name in x && x[name] == v
  }

  /** An opaque directory replaces the base directory of the same name altogether. */
  predicate IsOpaque(n: Node) {
    n.Dir? && (HasValue(n.xattrs, "trusted.overlay.opaque", "y") || HasValue(n.xattrs, "user.overlay.opaque", "y"))
  }

  /** The markers, node by node: only device 0:0 deletes, and either namespace marks opaqueness. */
  lemma Markers(o: Owner, m: Mode, x: Xattrs, f: SpecialFormat, rdev: nat, ch: map<Name, Node>, data: Bytes, t: string)
    ensures IsWhiteout(Special(o, m, f, rdev)) <==> f == CharDevice && rdev == 0
    ensures !IsWhiteout(File(o, m, x, data)) && !IsWhiteout(Link(o, t)) && !IsWhiteout(Dir(o, m, x, ch))
    ensures IsOpaque(Dir(o, m, x, ch)) <==>
      || ("trusted.overlay.opaque" in x && x["trusted.overlay.opaque"] == "y")
      || ("user.overlay.opaque" in x && x["user.overlay.opaque"] == "y")
  {
  }

  /** A base subtree as seen through the overlay: whiteouts in it are never shown. */
  function Visible(n: Node): Node
    decreases n
  {
    if n.Dir? then
      n.(children := map k | k in n.children && !IsWhiteout(n.children[k]) :: Visible(n.children[k]))
    else n
  }

  function VisibleAt(b: Option<Node>): Option<Node> {
    if b.None? || IsWhiteout(b.value) then None else Some(Visible(b.value))
  }

  /** What an upper directory is merged with: nothing at all if it is opaque. */
  function Beneath(u: Node, lower: Option<Node>): map<Name, Node> {
    if lower.Some? && lower.value.Dir? && !IsOpaque(u) then lower.value.children else map[]
  }

  /** The merge of the upper node `u` with the base node `lower` of the same name. */
  function Merge(u: Node, lower: Option<Node>): Node
    decreases u
  {
    if !u.Dir? then u else
    var low := Beneath(u, lower);
    u.(children :=
      map k | k in u.children.Keys + low.Keys &&
              !(if k in u.children then IsWhiteout(u.children[k]) else IsWhiteout(low[k])) ::
        if k in u.children then Merge(u.children[k], if k in low then Some(low[k]) else None)
        else Visible(low[k]))
  }

  function MergedAt(u: Option<Node>, lower: Option<Node>): Option<Node> {
    if u.None? then VisibleAt(lower)
    else if IsWhiteout(u.value) then None
    else Some(Merge(u.value, lower))
  }

  /** The base node that merges with the entry `n` of the upper directory `u`. */
  function LowerChild(u: Node, lower: Option<Node>, n: Name): Option<Node> {
    if IsOpaque(u) then None else Child(lower, n)
  }

  /** Hiding whiteouts and looking up a name commute. */
  lemma VisibleChild(b: Option<Node>, n: Name)
    ensures Child(VisibleAt(b), n) == VisibleAt(Child(b, n))
  {
  }

  /** Merging two directories and looking up a name commute. */
  lemma MergedChild(u: Node, lower: Option<Node>, n: Name)
    requires u.Dir?
    ensures Child(MergedAt(Some(u), lower), n) == MergedAt(Child(Some(u), n), LowerChild(u, lower, n))
  {
  }

  /** No whiteout anywhere in the subtree. */
  predicate WhiteoutFree(n: Node)
    decreases n
  {
    !IsWhiteout(n) && (n.Dir? ==> forall k | k in n.children :: WhiteoutFree(n.children[k]))
  }

  lemma {:induction false} WhiteoutFreeIsVisible(n: Node)
    requires WhiteoutFree(n)
    ensures VisibleAt(Some(n)) == Some(n)
    decreases n
  {
    if n.Dir? {
      forall k | k in n.children
        ensures Visible(n.children[k]) == n.children[k]
      {
        WhiteoutFreeIsVisible(n.children[k]);
      }
      assert Visible(n).children == n.children;
    }
  }

  /** A subtree that contains a whiteout has a path that is stored but not shown. */
  lemma {:induction false} HiddenPath(n: Node) returns (p: Path)
    requires !WhiteoutFree(n)
    ensures Find(Some(n), p).Some? && Find(VisibleAt(Some(n)), p).None?
    decreases n
  {
    if IsWhiteout(n) {
      p := [];
    } else {
      var k :| k in n.children && !WhiteoutFree(n.children[k]);
      var rest := HiddenPath(n.children[k]);
      p := [k] + rest;
      StepInto(Some(n), k, rest);
      StepInto(VisibleAt(Some(n)), k, rest);
      VisibleChild(Some(n), k);
    }
  }
}
