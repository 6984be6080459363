/**
 What the diff walker reports at each path, what the overlay semantics says it should
 report, and the exact condition under which the two agree.
 */
module Diff {
  import opened Options
  import opened Trees
  import opened Overlay

  datatype DiffKind = Added | Modified | Deleted

  datatype Format = Regular | Symlink | Directory | Other(special: SpecialFormat)

  /** `st_mode`: the file format and the twelve mode bits (symlinks are always 0777). */
  datatype StMode = StMode(format: Format, mode: Mode)

  /** A change at some path: its kind and the size and mode of the version that explains it. */
  datatype Change = Change(kind: DiffKind, size: Option<nat>, mode: StMode)

  function StModeOf(n: Node): StMode {
    match n
    case File(_, mode, _, _) => StMode(Regular, mode)
    case Link(_, _) => StMode(Symlink, Mode(false, false, false, 0x1ff))
    case Special(_, mode, format, _) => StMode(Other(format), mode)
    case Dir(_, mode, _, _) => StMode(Directory, mode)
  }

  /** `st_size`: content length, target length, or zero for device nodes. */
  function StSize(n: Node): nat {
    match n
    case File(_, _, _, data) => |data|
    case Link(_, target) => |target|
    case _ => 0
  }

  function ChangeFor(kind: DiffKind, n: Node): Change {
    Change(kind, if n.Dir? then None else Some(StSize(n)), StModeOf(n))
  }

  // ----- what the overlay semantics calls a change -----

  /**
   The change at a path, given what the merged view and the base view show there and
   whether the upper layer stores anything there.
   */
  function TrueChange(merged: Option<Node>, base: Option<Node>, inUpper: bool): Option<Change> {
    match (merged, base)
    case (None, None) => None
    case (None, Some(b)) => Some(ChangeFor(Deleted, b))
    case (Some(m), None) => Some(ChangeFor(Added, m))
    case (Some(m), Some(b)) =>
      if inUpper && !(m.Dir? && b.Dir?) then Some(ChangeFor(Modified, m)) else None
  }

  /**
   The change at `q` below an upper node `u` that faces the base node `b`. `hidden` says
   that some directory above `u` is opaque, so `u` merges with nothing even though the
   base still stores `b`.
   */
  function TruthBelow(u: Node, b: Option<Node>, hidden: bool, q: Path): Option<Change> {
    TrueChange(Find(MergedAt(Some(u), if hidden then None else b), q),
               Find(VisibleAt(b), q),
               Find(Some(u), q).Some?)
  }

  // ----- what the walker reports -----

  /**
   What the host lets the walker see of the base, by the path it walks: what resolving a path
   through a base symlink finds below it, which base directories can be listed, and which
   of their entries can be looked up. None can in a directory that may not be searched.
   */
  datatype Access = Access(
    follow: Path -> map<Name, Node>, readable: Path -> bool, reachable: (Path, Name) -> bool)

  /** Looking up `n` in the base directory at `at` fails although it may be there. */
  predicate IsRefused(access: Access, at: Path, b: Option<Node>, n: Name) {
    b.Some? && b.value.Dir? && !access.reachable(at, n)
  }

  /**
   `base.join(name)` and `symlink_metadata`: intermediate symlinks are followed, and a lookup
   that is refused counts as one that finds nothing.
   */
  function LookBelow(access: Access, at: Path, b: Option<Node>, n: Name): Option<Node> {
    if IsRefused(access, at, b, n) then None
    else if b.Some? && b.value.Link? && n in access.follow(at) then Some(access.follow(at)[n])
    else Child(b, n)
  }

  /** The report of `push_deleted` for the base subtree `b`. */
  function RemovalBelow(b: Option<Node>, q: Path): Option<Change> {
    var n := Find(b, q);
    if n.Some? then Some(ChangeFor(Deleted, n.value)) else None
  }

  /** The report of `report_shadowed` for an opaque `u` over the directory `b`. */
  function ShadowedBelow(u: Node, b: Node, q: Path): Option<Change> {
    if q != [] && Child(Some(u), q[0]).None? then RemovalBelow(Child(Some(b), q[0]), q[1..]) else None
  }

  /** The report of `walk` at `at`, for the contents of the upper directory `u`. */
  function WalkBelow(access: Access, at: Path, u: Node, b: Option<Node>, q: Path): Option<Change>
    decreases u, 0
  {
    if u.Dir? && q != [] && q[0] in u.children then
      EntryBelow(access, at + [q[0]], u.children[q[0]], LookBelow(access, at, b, q[0]), q[1..])
    else None
  }

  /** The report of one iteration of `walk`, for the upper entry `u` at `at`. */
  function EntryBelow(access: Access, at: Path, u: Node, b: Option<Node>, q: Path): Option<Change>
    decreases u, 1
  {
    if IsWhiteout(u) then RemovalBelow(b, q)
    else if u.Dir? then
      if b.Some? && b.value.Dir? then
        var shadowed := if IsOpaque(u) then ShadowedBelow(u, b.value, q) else None;
        if shadowed.Some? then shadowed else WalkBelow(access, at, u, b, q)
      else if q == [] then Some(ChangeFor(if b.Some? then Modified else Added, u))
      else WalkBelow(access, at, u, b, q)
    else if q == [] then Some(ChangeFor(if b.Some? then Modified else Added, u))
    else if b.Some? && b.value.Dir? then RemovalBelow(b, q)
    else None
  }

  // ----- what the entries describe -----

  /** Path resolution in the base as the host sees it, through symlinks where they lead somewhere. */
  function See(access: Access, at: Path, b: Option<Node>, q: Path): Option<Node>
    decreases |q|
  {
    if q == [] then b
    else
      See(access, at + [q[0]],
          if b.Some? && b.value.Link? && q[0] in access.follow(at) then Some(access.follow(at)[q[0]])
          else Child(b, q[0]),
          q[1..])
  }

  /**
   The size of a regular file is its content's, of a symlink its target's, of a device zero,
   and of a directory none; the mode is the node's own (a symlink's is always 0777).
   */
  predicate Describes(c: Change, n: Node) {
    match n
    case File(_, mode, _, data) => c.size == Some(|data|) && c.mode == StMode(Regular, mode)
    case Link(_, target) => c.size == Some(|target|) && c.mode == StMode(Symlink, Mode(false, false, false, 0x1ff))
    case Special(_, mode, format, _) => c.size == Some(0) && c.mode == StMode(Other(format), mode)
    case Dir(_, mode, _, _) => c.size == None && c.mode == StMode(Directory, mode)
  }

  /** An addition or modification describes the upper layer's version, a deletion the base's. */
  predicate DescribesVersion(c: Change, upper: Option<Node>, base: Option<Node>) {
    match c.kind
    case Deleted => base.Some? && Describes(c, base.value)
    case _ => upper.Some? && Describes(c, upper.value)
  }

  lemma ChangeDescribes(kind: DiffKind, n: Node)
    ensures ChangeFor(kind, n).kind == kind && Describes(ChangeFor(kind, n), n)
  {
  }

  /** Where a path leads through directories alone, resolution is plain lookup. */
  lemma {:induction false} SeeIsFind(access: Access, at: Path, b: Option<Node>, q: Path)
    ensures Find(b, q).Some? ==> See(access, at, b, q) == Find(b, q)
    ensures (forall p :: access.follow(p) == map[]) ==> See(access, at, b, q) == Find(b, q)
    decreases |q|
  {
    if q != [] {
      assert q == [q[0]] + q[1..];
      StepInto(b, q[0], q[1..]);
      FindNothing(q[1..]);
      SeeIsFind(access, at + [q[0]], Child(b, q[0]), q[1..]);
      if b.Some? && b.value.Link? && q[0] in access.follow(at) {
        SeeIsFind(access, at + [q[0]], Some(access.follow(at)[q[0]]), q[1..]);
      }
    }
  }

  lemma RemovalDescribes(access: Access, at: Path, b: Option<Node>, q: Path)
    ensures RemovalBelow(b, q).Some? ==> DescribesVersion(RemovalBelow(b, q).value, None, See(access, at, b, q))
  {
    SeeIsFind(access, at, b, q);
    if Find(b, q).Some? {
      ChangeDescribes(Deleted, Find(b, q).value);
    }
  }

  lemma {:induction false} ReportDescribes(access: Access, at: Path, u: Node, b: Option<Node>, q: Path)
    ensures EntryBelow(access, at, u, b, q).Some? ==>
      DescribesVersion(EntryBelow(access, at, u, b, q).value, Find(Some(u), q), See(access, at, b, q))
    ensures WalkBelow(access, at, u, b, q).Some? ==>
      DescribesVersion(WalkBelow(access, at, u, b, q).value, Find(Some(u), q), See(access, at, b, q))
    decreases u
  {
    hide ChangeFor, Describes, See;
    RemovalDescribes(access, at, b, q);
    ChangeDescribes(if b.Some? then Modified else Added, u);
    if q != [] {
      assert q == [q[0]] + q[1..];
      StepInto(Some(u), q[0], q[1..]);
      StepInto(b, q[0], q[1..]);
      FindNothing(q[1..]);
      if u.Dir? && q[0] in u.children {
        SeeStep(access, at, b, q);
        ReportDescribes(access, at + [q[0]], u.children[q[0]], LookBelow(access, at, b, q[0]), q[1..]);
      }
    }
  }

  /** Below a name that the walker finds, it sees what the host sees; else it sees nothing. */
  lemma SeeStep(access: Access, at: Path, b: Option<Node>, q: Path)
    requires q != []
    ensures LookBelow(access, at, b, q[0]).Some? ==>
      See(access, at, b, q) == See(access, at + [q[0]], LookBelow(access, at, b, q[0]), q[1..])
    ensures LookBelow(access, at, b, q[0]).None? ==>
      See(access, at + [q[0]], LookBelow(access, at, b, q[0]), q[1..]) == None
  {
    SeeNothing(access, at + [q[0]], q[1..]);
  }

  lemma {:induction false} SeeNothing(access: Access, at: Path, q: Path)
    ensures See(access, at, None, q) == None
    decreases |q|
  {
    if q != [] {
      SeeNothing(access, at + [q[0]], q[1..]);
    }
  }

  // ----- when the walk completes -----

  /**
   Reading the base subtree `b` at `at`, node by node: a directory must be readable, and its
   entries reachable. Any refusal here ends the walk without a result.
   */
  predicate RemovalCompletes(access: Access, at: Path, b: Node)
    decreases b
  {
    b.Dir? ==>
      && access.readable(at)
      && forall n | n in b.children :: access.reachable(at, n) && RemovalCompletes(access, at + [n], b.children[n])
  }

  predicate ShadowedCompletes(access: Access, at: Path, u: Node, b: Node)
    requires u.Dir? && b.Dir?
  {
    && access.readable(at)
    && forall n | n in b.children && n !in u.children ::
         access.reachable(at, n) && RemovalCompletes(access, at + [n], b.children[n])
  }

  predicate WalkCompletes(access: Access, at: Path, u: Node, b: Option<Node>)
    requires u.Dir?
    decreases u, 0
  {
    forall n | n in u.children ::
      EntryCompletes(access, at + [n], u.children[n], LookBelow(access, at, b, n))
  }

  predicate EntryCompletes(access: Access, at: Path, u: Node, b: Option<Node>)
    decreases u, 1
  {
    if IsWhiteout(u) then b.Some? ==> RemovalCompletes(access, at, b.value)
    else if u.Dir? then
      && (b.Some? && b.value.Dir? && IsOpaque(u) ==> ShadowedCompletes(access, at, u, b.value))
      && WalkCompletes(access, at, u, b)
    else b.Some? && b.value.Dir? ==> RemovalCompletes(access, at, b.value)
  }

  // ----- when the two agree -----

  /**
   The layers on which the walker is exact. For each upper entry facing a base entry:
   nothing the entry replaces or hides is itself a whiteout; below a base symlink no name
   of the new directory resolves; where the lookup of a base entry fails, that entry is
   a whiteout; and wherever the base directory is hidden by an opaque
   directory, the directory at hand is opaque itself or names every visible base entry.
   */
  predicate Faithful(access: Access, at: Path, u: Node, b: Option<Node>, hidden: bool)
    decreases u, 2
  {
    if IsWhiteout(u) then b.None? || WhiteoutFree(b.value)
    else if b.Some? && IsWhiteout(b.value) then false
    else if !u.Dir? then b.None? || WhiteoutFree(b.value)
    else FaithfulContents(access, at, u, b, hidden)
  }

  predicate FaithfulContents(access: Access, at: Path, u: Node, b: Option<Node>, hidden: bool)
    requires u.Dir?
    decreases u, 1
  {
    && FaithfulNames(access, at, u, b, hidden || IsOpaque(u))
    && (b.Some? && b.value.Link? ==> forall n | n in u.children :: n !in access.follow(at))
    && (b.Some? && b.value.Dir? && (hidden || IsOpaque(u)) ==>
          forall n | n in b.value.children && n !in u.children ::
            if IsOpaque(u) then WhiteoutFree(b.value.children[n]) else IsWhiteout(b.value.children[n]))
  }

  /** The names of the upper directory `u`, where `hidden` speaks of their merge. */
  predicate FaithfulNames(access: Access, at: Path, u: Node, b: Option<Node>, hidden: bool)
    requires u.Dir?
    decreases u, 0
  {
    forall n | n in u.children ::
      if IsRefused(access, at, b, n) then Child(b, n).None? || IsWhiteout(Child(b, n).value)
      else Faithful(access, at + [n], u.children[n], Child(b, n), hidden)
  }

  // ----- the walker is exact on faithful layers -----

  lemma {:induction false} RemovalIsExact(b: Option<Node>, q: Path)
    requires b.None? || WhiteoutFree(b.value)
    ensures RemovalBelow(b, q) == TrueChange(None, Find(VisibleAt(b), q), false)
    ensures RemovalBelow(b, q) == TrueChange(None, Find(VisibleAt(b), q), true)
  {
    if b.Some? {
      WhiteoutFreeIsVisible(b.value);
    }
  }

  /** One step down both views from an upper directory. */
  lemma TruthStep(u: Node, b: Option<Node>, hidden: bool, n: Name, q: Path)
    requires u.Dir?
    ensures n in u.children ==>
      TruthBelow(u, b, hidden, [n] + q) == TruthBelow(u.children[n], Child(b, n), hidden || IsOpaque(u), q)
    ensures n !in u.children ==>
      TruthBelow(u, b, hidden, [n] + q) ==
        if hidden || IsOpaque(u) then TrueChange(None, Find(VisibleAt(Child(b, n)), q), false) else None
  {
    var low := if hidden then None else b;
    StepInto(MergedAt(Some(u), low), n, q);
    StepInto(VisibleAt(b), n, q);
    StepInto(Some(u), n, q);
    MergedChild(u, low, n);
    VisibleChild(b, n);
    FindNothing(q);
  }

  /** Over nothing every layer is faithful, and a base whiteout is as good as nothing. */
  lemma {:induction false} NothingIsFaithful(access: Access, at: Path, u: Node, hidden: bool)
    ensures Faithful(access, at, u, None, hidden)
    decreases u
  {
    if u.Dir? {
      forall n | n in u.children
        ensures Faithful(access, at + [n], u.children[n], None, hidden || IsOpaque(u))
      {
        NothingIsFaithful(access, at + [n], u.children[n], hidden || IsOpaque(u));
      }
    }
  }

  lemma WhiteoutIsNothing(u: Node, b: Node, hidden: bool, q: Path)
    requires IsWhiteout(b)
    ensures TruthBelow(u, Some(b), hidden, q) == TruthBelow(u, None, hidden, q)
  {
    assert Merge(u, Some(b)) == Merge(u, None) by {
      if u.Dir? {
        assert Beneath(u, Some(b)) == Beneath(u, None);
      }
    }
  }

  lemma {:induction false} WalkIsExact(access: Access, at: Path, u: Node, b: Option<Node>, hidden: bool, q: Path)
    requires Faithful(access, at, u, b, hidden)
    ensures EntryBelow(access, at, u, b, q) == TruthBelow(u, b, hidden, q)
    decreases |q|, 1
  {
    if q == [] {
      if IsWhiteout(u) {
        RemovalIsExact(b, q);
      }
    } else {
      var n, rest := q[0], q[1..];
      assert q == [n] + rest;
      StepInto(VisibleAt(b), n, rest);
      VisibleChild(b, n);
      FindNothing(rest);
      if IsWhiteout(u) || !u.Dir? {
        RemovalIsExact(b, q);
      } else {
        TruthStep(u, b, hidden, n, rest);
        if n in u.children {
          NameIsExact(access, at, u, b, hidden || IsOpaque(u), n, rest);
        } else if IsOpaque(u) && Child(b, n).Some? {
          RemovalIsExact(Child(b, n), rest);
        }
      }
    }
  }

  /** One name of an upper directory, with whatever the walker finds for it in the base. */
  lemma {:induction false} NameIsExact(
    access: Access, at: Path, u: Node, b: Option<Node>, hidden: bool, n: Name, q: Path)
    requires u.Dir? && n in u.children && FaithfulNames(access, at, u, b, hidden)
    requires b.Some? && b.value.Link? ==> n !in access.follow(at)
    ensures EntryBelow(access, at + [n], u.children[n], LookBelow(access, at, b, n), q)
            == TruthBelow(u.children[n], Child(b, n), hidden, q)
    decreases |q|, 2
  {
    hide EntryBelow, TruthBelow, Faithful;
    if IsRefused(access, at, b, n) {
      NothingIsFaithful(access, at + [n], u.children[n], hidden);
      WalkIsExact(access, at + [n], u.children[n], None, hidden, q);
      if Child(b, n).Some? {
        WhiteoutIsNothing(u.children[n], Child(b, n).value, hidden, q);
      }
    } else {
      WalkIsExact(access, at + [n], u.children[n], Child(b, n), hidden, q);
    }
  }

  // ----- and only on faithful layers -----

  /** The walker's report agrees with the truth everywhere below one upper entry. */
  ghost predicate ExactBelow(access: Access, at: Path, u: Node, b: Option<Node>, hidden: bool) {
    forall q: Path :: EntryBelow(access, at, u, b, q) == TruthBelow(u, b, hidden, q)
  }

  /** A base subtree reported as removed must not contain whiteouts. */
  lemma RemovalNeedsVisibleBase(b: Node)
    requires forall q: Path :: RemovalBelow(Some(b), q) == TrueChange(None, Find(VisibleAt(Some(b)), q), false)
    ensures WhiteoutFree(b)
  {
    if !WhiteoutFree(b) {
      var p := HiddenPath(b);
      var report := RemovalBelow(Some(b), p);
      assert false;
    }
  }

  lemma {:induction false} ExactImpliesFaithful(access: Access, at: Path, u: Node, b: Option<Node>, hidden: bool)
    requires ExactBelow(access, at, u, b, hidden)
    ensures Faithful(access, at, u, b, hidden)
    decreases u
  {
    assert EntryBelow(access, at, u, b, []) == TruthBelow(u, b, hidden, []);
    if IsWhiteout(u) {
      if b.Some? {
        forall q: Path
          ensures RemovalBelow(b, q) == TrueChange(None, Find(VisibleAt(b), q), false)
        {
          assert EntryBelow(access, at, u, b, q) == TruthBelow(u, b, hidden, q);
          FindNothing(q);
        }
        RemovalNeedsVisibleBase(b.value);
      }
    } else if u.Dir? {
      ExactContentsImpliesFaithful(access, at, u, b, hidden);
    } else if b.Some? && b.value.Dir? {
      forall n | n in b.value.children
        ensures WhiteoutFree(b.value.children[n])
      {
        forall q: Path
          ensures RemovalBelow(Some(b.value.children[n]), q)
                  == TrueChange(None, Find(VisibleAt(Some(b.value.children[n])), q), false)
        {
          assert EntryBelow(access, at, u, b, [n] + q) == TruthBelow(u, b, hidden, [n] + q);
          StepInto(b, n, q);
          StepInto(VisibleAt(b), n, q);
          VisibleChild(b, n);
          StepInto(Some(u), n, q);
          FindNothing(q);
        }
        RemovalNeedsVisibleBase(b.value.children[n]);
      }
    }
  }

  lemma {:induction false} ExactContentsImpliesFaithful(
    access: Access, at: Path, u: Node, b: Option<Node>, hidden: bool)
    requires u.Dir?
    requires b.None? || !IsWhiteout(b.value)
    requires ExactBelow(access, at, u, b, hidden)
    ensures FaithfulContents(access, at, u, b, hidden)
    decreases u, 0
  {
    forall n, q: Path
      ensures EntryBelow(access, at, u, b, [n] + q) == TruthBelow(u, b, hidden, [n] + q)
    {
    }
    forall n | n in u.children
      ensures b.Some? && b.value.Link? ==> n !in access.follow(at)
      ensures if IsRefused(access, at, b, n) then Child(b, n).None? || IsWhiteout(Child(b, n).value)
              else Faithful(access, at + [n], u.children[n], Child(b, n), hidden || IsOpaque(u))
    {
      ChildIsExact(access, at, u, b, hidden, n);
      if !IsRefused(access, at, b, n) {
        ExactImpliesFaithful(access, at + [n], u.children[n], Child(b, n), hidden || IsOpaque(u));
      }
    }
    if b.Some? && b.value.Dir? && (hidden || IsOpaque(u)) {
      forall n | n in b.value.children && n !in u.children
        ensures if IsOpaque(u) then WhiteoutFree(b.value.children[n]) else IsWhiteout(b.value.children[n])
      {
        UnnamedIsFaithful(access, at, u, b.value, hidden, n);
      }
    }
  }

  /** An entry compared with a node found through a base symlink is always misreported. */
  lemma LinkedNameIsMisreported(access: Access, at: Path, u: Node, found: Node, hidden: bool)
    ensures EntryBelow(access, at, u, Some(found), []) != TruthBelow(u, None, hidden, [])
  {
    assert WalkBelow(access, at, u, Some(found), []) == None;
    assert Find(VisibleAt(None), []) == None;
    assert Find(MergedAt(Some(u), None), []) == MergedAt(Some(u), None);
  }

  lemma EntryStep(access: Access, at: Path, u: Node, b: Option<Node>, n: Name, q: Path)
    requires u.Dir? && n in u.children
    requires b.None? || !IsWhiteout(b.value)
    ensures EntryBelow(access, at, u, b, [n] + q)
            == EntryBelow(access, at + [n], u.children[n], LookBelow(access, at, b, n), q)
  {
    assert ([n] + q)[1..] == q;
  }

  /** An entry that faces a base entry the walker cannot look up is always misreported. */
  lemma RefusedNameIsMisreported(access: Access, at: Path, u: Node, b: Node, hidden: bool)
    requires !IsWhiteout(b)
    ensures EntryBelow(access, at, u, None, []) != TruthBelow(u, Some(b), hidden, [])
  {
    assert WalkBelow(access, at, u, None, []) == None;
  }

  /** What exactness below one name says about what the walker found for it. */
  lemma FoundNameIsTrue(access: Access, at: Path, u: Node, b: Option<Node>, hidden: bool, n: Name)
    requires u.Dir? && n in u.children
    requires ExactName(access, at, u, b, hidden, n)
    ensures b.Some? && b.value.Link? ==> n !in access.follow(at)
    ensures if IsRefused(access, at, b, n) then Child(b, n).None? || IsWhiteout(Child(b, n).value)
            else ExactBelow(access, at + [n], u.children[n], Child(b, n), hidden)
  {
    hide EntryBelow, TruthBelow, IsWhiteout;
    var found := LookBelow(access, at, b, n);
    assert EntryBelow(access, at + [n], u.children[n], found, [])
           == TruthBelow(u.children[n], Child(b, n), hidden, []);
    if b.Some? && b.value.Link? && n in access.follow(at) {
      LinkedNameIsMisreported(access, at + [n], u.children[n], access.follow(at)[n], hidden);
    } else if IsRefused(access, at, b, n) && Child(b, n).Some? && !IsWhiteout(Child(b, n).value) {
      RefusedNameIsMisreported(access, at + [n], u.children[n], Child(b, n).value, hidden);
    } else if !IsRefused(access, at, b, n) {
      assert found == Child(b, n);
    }
  }

  ghost predicate ExactName(access: Access, at: Path, u: Node, b: Option<Node>, hidden: bool, n: Name)
    requires u.Dir? && n in u.children
  {
    forall q: Path ::
      EntryBelow(access, at + [n], u.children[n], LookBelow(access, at, b, n), q)
      == TruthBelow(u.children[n], Child(b, n), hidden, q)
  }

  /** Exactness of a directory passes to its entries, and rules out names found wrongly. */
  lemma {:induction false} ChildIsExact(access: Access, at: Path, u: Node, b: Option<Node>, hidden: bool, n: Name)
    requires u.Dir? && n in u.children
    requires b.None? || !IsWhiteout(b.value)
    requires ExactBelow(access, at, u, b, hidden)
    ensures b.Some? && b.value.Link? ==> n !in access.follow(at)
    ensures if IsRefused(access, at, b, n) then Child(b, n).None? || IsWhiteout(Child(b, n).value)
            else ExactBelow(access, at + [n], u.children[n], Child(b, n), hidden || IsOpaque(u))
  {
    hide EntryBelow, TruthBelow, IsWhiteout, LookBelow;
    forall q: Path
      ensures EntryBelow(access, at + [n], u.children[n], LookBelow(access, at, b, n), q)
              == TruthBelow(u.children[n], Child(b, n), hidden || IsOpaque(u), q)
    {
      EntryStep(access, at, u, b, n, q);
      TruthStep(u, b, hidden, n, q);
    }
    FoundNameIsTrue(access, at, u, b, hidden || IsOpaque(u), n);
  }

  /** A hidden base entry that the upper directory does not name. */
  lemma {:induction false} UnnamedIsFaithful(access: Access, at: Path, u: Node, b: Node, hidden: bool, n: Name)
    requires u.Dir? && b.Dir? && n in b.children && n !in u.children
    requires hidden || IsOpaque(u)
    requires ExactBelow(access, at, u, Some(b), hidden)
    ensures if IsOpaque(u) then WhiteoutFree(b.children[n]) else IsWhiteout(b.children[n])
  {
    forall q: Path
      ensures (if IsOpaque(u) then RemovalBelow(Some(b.children[n]), q) else None)
              == TrueChange(None, Find(VisibleAt(Some(b.children[n])), q), false)
    {
      assert EntryBelow(access, at, u, Some(b), [n] + q) == TruthBelow(u, Some(b), hidden, [n] + q);
      assert ([n] + q)[1..] == q;
      TruthStep(u, Some(b), hidden, n, q);
      assert WalkBelow(access, at, u, Some(b), [n] + q) == None;
      assert ShadowedBelow(u, b, [n] + q) == RemovalBelow(Some(b.children[n]), q);
    }
    if IsOpaque(u) {
      RemovalNeedsVisibleBase(b.children[n]);
    } else {
      assert TrueChange(None, Find(VisibleAt(Some(b.children[n])), []), false) == None;
    }
  }

  // ----- the whole layer -----

  /** The change at `p` between a base image and the overlay of `u` on it. */
  function TruthAt(u: Node, b: Node, p: Path): Option<Change> {
    TruthBelow(u, Some(b), false, p)
  }

  /** The report of `diff_upper` at `p`. The walker never asks whether the root is opaque. */
  function ReportAt(access: Access, u: Node, b: Node, p: Path): Option<Change> {
    WalkBelow(access, [], u, Some(b), p)
  }

  predicate FaithfulLayer(access: Access, u: Node, b: Node)
    requires u.Dir? && b.Dir?
  {
    && FaithfulNames(access, [], u, Some(b), IsOpaque(u))
    && (IsOpaque(u) ==> forall n | n in b.children && n !in u.children :: IsWhiteout(b.children[n]))
  }

  /** The first step from the roots, for the report and for the truth. */
  lemma RootStep(access: Access, u: Node, b: Node, n: Name, q: Path)
    requires u.Dir? && b.Dir?
    ensures ReportAt(access, u, b, [n] + q) ==
            if n in u.children then EntryBelow(access, [] + [n], u.children[n], LookBelow(access, [], Some(b), n), q)
            else None
    ensures TruthAt(u, b, [n] + q) ==
            if n in u.children then TruthBelow(u.children[n], Child(Some(b), n), IsOpaque(u), q)
            else if IsOpaque(u) then TrueChange(None, Find(VisibleAt(Child(Some(b), n)), q), false)
            else None
  {
    assert ([n] + q)[1..] == q;
    TruthStep(u, Some(b), false, n, q);
  }

  /**
   Exactness, in both directions: the report is the overlay's change set at every path
   precisely when the layer is faithful.
   */
  lemma ReportIsExactIffFaithful(access: Access, u: Node, b: Node)
    requires u.Dir? && b.Dir?
    ensures (forall p: Path :: ReportAt(access, u, b, p) == TruthAt(u, b, p)) <==> FaithfulLayer(access, u, b)
  {
    if FaithfulLayer(access, u, b) {
      forall p: Path
        ensures ReportAt(access, u, b, p) == TruthAt(u, b, p)
      {
        FaithfulReport(access, u, b, p);
      }
    }
    if forall p: Path :: ReportAt(access, u, b, p) == TruthAt(u, b, p) {
      ExactLayerIsFaithful(access, u, b);
    }
  }

  lemma ExactLayerIsFaithful(access: Access, u: Node, b: Node)
    requires u.Dir? && b.Dir?
    requires forall p: Path :: ReportAt(access, u, b, p) == TruthAt(u, b, p)
    ensures FaithfulLayer(access, u, b)
  {
    hide EntryBelow, TruthBelow, LookBelow, ReportAt, TruthAt;
    forall n | n in u.children
      ensures if IsRefused(access, [], Some(b), n) then Child(Some(b), n).None? || IsWhiteout(Child(Some(b), n).value)
              else Faithful(access, [] + [n], u.children[n], Child(Some(b), n), IsOpaque(u))
    {
      forall q: Path
        ensures EntryBelow(access, [] + [n], u.children[n], LookBelow(access, [], Some(b), n), q)
                == TruthBelow(u.children[n], Child(Some(b), n), IsOpaque(u), q)
      {
        RootStep(access, u, b, n, q);
      }
      FoundNameIsTrue(access, [], u, Some(b), IsOpaque(u), n);
      if !IsRefused(access, [], Some(b), n) {
        ExactImpliesFaithful(access, [] + [n], u.children[n], Child(Some(b), n), IsOpaque(u));
      }
    }
    forall n | n in b.children && n !in u.children && IsOpaque(u)
      ensures IsWhiteout(b.children[n])
    {
      RootStep(access, u, b, n, []);
    }
  }

  lemma FaithfulReport(access: Access, u: Node, b: Node, p: Path)
    requires u.Dir? && b.Dir?
    requires FaithfulLayer(access, u, b)
    ensures ReportAt(access, u, b, p) == TruthAt(u, b, p)
  {
    if p != [] {
      var n, q := p[0], p[1..];
      assert p == [n] + q;
      RootStep(access, u, b, n, q);
      FindNothing(q);
      if n in u.children {
        NameIsExact(access, [], u, Some(b), IsOpaque(u), n, q);
      }
    }
  }
}
