/**
 The diff walker itself: directory loops, in whatever order `read_dir` yields the names,
 that append to one shared log of entries; proved to report exactly what `Diff` says.
 */
module DiffWalk {
  import opened Options
  import opened Trees
  import opened Overlay
  import opened Diff
  import opened PathStrings
  import opened Sorting

  // ----- what a stretch of the log reports -----

  /** What to report at each path relative to some directory. */
  type Plan = Path -> Option<Change>

  /**
   The entries `es`, made at the paths `ps`, are the plan for the subtree at `at`: nothing
   outside the plan, everything in it, and no path twice.
   */
  ghost predicate Reports(ps: seq<Path>, es: seq<DiffEntry>, at: Path, plan: Plan) {
    && |ps| == |es|
    && (forall i | 0 <= i < |ps| ::
          at <= ps[i] && plan(ps[i][|at|..]).Some? && es[i] == DiffEntry(Render(ps[i]), plan(ps[i][|at|..]).value))
    && (forall q: Path :: plan(q).Some? ==> at + q in ps)
    && (forall i, j | 0 <= i < j < |ps| :: ps[i] != ps[j])
  }

  /** The log grew from `(ps0, es0)` to `(ps, es)` by exactly the plan for `at`. */
  ghost predicate Grew(ps0: seq<Path>, es0: seq<DiffEntry>, ps: seq<Path>, es: seq<DiffEntry>, at: Path, plan: Plan) {
    && |ps0| == |es0| && |ps| == |es| && ps0 <= ps && es0 <= es
    && Reports(ps[|ps0|..], es[|es0|..], at, plan)
  }

  /** The part of a plan for the directory itself and the entries visited so far. */
  ghost function Within(plan: Plan, done: set<Name>): Plan {
    q => if q == [] || q[0] in done then plan(q) else None
  }

  lemma SamePlan(ps0: seq<Path>, es0: seq<DiffEntry>, ps: seq<Path>, es: seq<DiffEntry>,
                 at: Path, plan: Plan, other: Plan)
    requires Grew(ps0, es0, ps, es, at, plan)
    requires forall q: Path :: plan(q) == other(q)
    ensures Grew(ps0, es0, ps, es, at, other)
  {
  }

  lemma GrewByNothing(ps: seq<Path>, es: seq<DiffEntry>, at: Path, plan: Plan)
    requires |ps| == |es|
    requires forall q: Path :: plan(q) == None
    ensures Grew(ps, es, ps, es, at, plan)
  {
  }

  lemma GrewByOne(ps: seq<Path>, es: seq<DiffEntry>, at: Path, change: Change, plan: Plan)
    requires |ps| == |es|
    requires plan([]) == Some(change) && forall q: Path :: q != [] ==> plan(q) == None
    ensures Grew(ps, es, ps + [at], es + [DiffEntry(Render(at), change)], at, plan)
  {
    assert (ps + [at])[|ps|..] == [at];
    assert (es + [DiffEntry(Render(at), change)])[|es|..] == [DiffEntry(Render(at), change)];
    assert at[|at|..] == [];
    forall q: Path | plan(q).Some?
      ensures at + q in [at]
    {
      assert q == [] && at + q == at;
    }
  }

  lemma ReportsTogether(a: seq<Path>, ea: seq<DiffEntry>, b: seq<Path>, eb: seq<DiffEntry>,
                        at: Path, first: Plan, second: Plan, both: Plan)
    requires Reports(a, ea, at, first) && Reports(b, eb, at, second)
    requires forall q: Path :: first(q).None? || second(q).None?
    requires forall q: Path :: both(q) == if first(q).Some? then first(q) else second(q)
    ensures Reports(a + b, ea + eb, at, both)
  {
    var ps, es := a + b, ea + eb;
    forall i | 0 <= i < |ps|
      ensures at <= ps[i] && both(ps[i][|at|..]).Some?
      ensures es[i] == DiffEntry(Render(ps[i]), both(ps[i][|at|..]).value)
    {
      if i < |a| {
        assert ps[i] == a[i] && es[i] == ea[i];
      } else {
        assert ps[i] == b[i - |a|] && es[i] == eb[i - |a|];
      }
    }
    forall i, j | 0 <= i < |a| && 0 <= j < |b|
      ensures a[i] != b[j]
    {
      assert first(a[i][|at|..]).Some? && second(b[j][|at|..]).Some?;
    }
  }

  /** Two consecutive stretches for the same directory that report disjoint paths. */
  lemma GrewTwice(ps0: seq<Path>, es0: seq<DiffEntry>, ps1: seq<Path>, es1: seq<DiffEntry>,
                  ps2: seq<Path>, es2: seq<DiffEntry>, at: Path, first: Plan, second: Plan, both: Plan)
    requires Grew(ps0, es0, ps1, es1, at, first) && Grew(ps1, es1, ps2, es2, at, second)
    requires forall q: Path :: first(q).None? || second(q).None?
    requires forall q: Path :: both(q) == if first(q).Some? then first(q) else second(q)
    ensures Grew(ps0, es0, ps2, es2, at, both)
  {
    hide Reports;
    assert ps2[|ps0|..] == ps1[|ps0|..] + ps2[|ps1|..];
    assert es2[|es0|..] == es1[|es0|..] + es2[|es1|..];
    ReportsTogether(ps1[|ps0|..], es1[|es0|..], ps2[|ps1|..], es2[|es1|..], at, first, second, both);
  }

  lemma StepPastName(p: Path, at: Path, n: Name)
    requires at + [n] <= p
    ensures at <= p && p[|at|..] != [] && p[|at|..][0] == n
    ensures p[|at|..][1..] == p[|at + [n]|..]
  {
    assert p[..|at| + 1] == at + [n];
    assert p[..|at|] == at;
    assert p[|at|] == n;
  }

  /** A stretch for the entry `n` is a stretch for its directory. */
  lemma GrewBelow(ps0: seq<Path>, es0: seq<DiffEntry>, ps: seq<Path>, es: seq<DiffEntry>,
                  at: Path, n: Name, inner: Plan, plan: Plan)
    requires Grew(ps0, es0, ps, es, at + [n], inner)
    requires forall q: Path :: plan(q) == if q != [] && q[0] == n then inner(q[1..]) else None
    ensures Grew(ps0, es0, ps, es, at, plan)
  {
    var a := ps[|ps0|..];
    forall i | 0 <= i < |a|
      ensures at <= a[i] && plan(a[i][|at|..]) == inner(a[i][|at + [n]|..])
    {
      StepPastName(a[i], at, n);
    }
    forall q: Path | plan(q).Some?
      ensures at + q in a
    {
      assert at + q == at + [n] + q[1..];
    }
  }

  /** One more iteration of a directory loop: the entry `n` is now reported too. */
  lemma GrewByEntry(ps0: seq<Path>, es0: seq<DiffEntry>, ps1: seq<Path>, es1: seq<DiffEntry>,
                    ps2: seq<Path>, es2: seq<DiffEntry>,
                    at: Path, n: Name, done: set<Name>, inner: Plan, plan: Plan)
    requires Grew(ps0, es0, ps1, es1, at, Within(plan, done)) && Grew(ps1, es1, ps2, es2, at + [n], inner)
    requires n !in done
    requires forall q: Path :: q != [] && q[0] == n ==> plan(q) == inner(q[1..])
    ensures Grew(ps0, es0, ps2, es2, at, Within(plan, done + {n}))
  {
    hide Grew;
    var lifted: Plan := q => if q != [] && q[0] == n then inner(q[1..]) else None;
    GrewBelow(ps1, es1, ps2, es2, at, n, inner, lifted);
    GrewTwice(ps0, es0, ps1, es1, ps2, es2, at, Within(plan, done), lifted, Within(plan, done + {n}));
  }

  // ----- the walker -----

  /** The `out` vector, together with the path behind each reported string. */
  class DiffLog {
    var entries: seq<DiffEntry>
    ghost var paths: seq<Path>

    ghost predicate Valid()
      reads this
    {
      |paths| == |entries|
    }

    constructor ()
      ensures Valid() && entries == [] && paths == []
    {
      entries := [];
      paths := [];
    }

    method Push(rel: string, kind: DiffKind, n: Node, ghost at: Path, ghost plan: Plan)
      requires Valid() && rel == Render(at)
      requires plan([]) == Some(ChangeFor(kind, n)) && forall q: Path :: q != [] ==> plan(q) == None
      modifies this
      ensures Grew(old(paths), old(entries), paths, entries, at, plan)
    {
      GrewByOne(paths, entries, at, ChangeFor(kind, n), plan);
      entries := entries + [DiffEntry(rel, ChangeFor(kind, n))];
      paths := paths + [at];
    }
  }

  /** The report for a path on its own. */
  ghost function SelfPlan(c: Change): Plan {
    q => if q == [] then Some(c) else None
  }

  ghost function RemovalPlan(b: Node): Plan {
    q => RemovalBelow(Some(b), q)
  }

  ghost function ShadowedPlan(u: Node, b: Node): Plan {
    q => ShadowedBelow(u, b, q)
  }

  ghost function WalkPlan(access: Access, at: Path, u: Node, b: Option<Node>): Plan {
    q => WalkBelow(access, at, u, b, q)
  }

  ghost function EntryPlan(access: Access, at: Path, u: Node, b: Option<Node>): Plan {
    q => EntryBelow(access, at, u, b, q)
  }

  ghost function NoPlan(): Plan {
    q => None
  }

  lemma RemovalStaysInside(b: Node, q: Path)
    ensures q != [] && Child(Some(b), q[0]).None? ==> RemovalPlan(b)(q) == None
    ensures q != [] && Child(Some(b), q[0]).Some? ==>
      RemovalPlan(b)(q) == RemovalPlan(Child(Some(b), q[0]).value)(q[1..])
  {
    if q != [] {
      FindNothing(q[1..]);
    }
  }

  /** Everything below a removed directory, but not the directory itself. */
  ghost function ContentsRemovalPlan(b: Node): Plan {
    q => if q == [] then None else RemovalBelow(Some(b), q)
  }

  /** Report the contents of the base directory `b`, which a non-directory replaces, as deleted. */
  method PushChildrenDeleted(access: Access, b: Node, rel: string, out: DiffLog, at: Path) returns (ok: bool)
    requires b.Dir?
    requires out.Valid() && rel == Render(at)
    modifies out
    ensures ok == RemovalCompletes(access, at, b)
    ensures ok ==> Grew(old(out.paths), old(out.entries), out.paths, out.entries, at, ContentsRemovalPlan(b))
    decreases b, 0
  {
    hide Reports;
    if !access.readable(at) {
      return false;
    }
    ghost var ps, es := out.paths, out.entries;
    ghost var plan := ContentsRemovalPlan(b);
    forall q: Path
      ensures q != [] && Child(Some(b), q[0]).None? ==> plan(q) == None
    {
      RemovalStaysInside(b, q);
    }
    GrewByNothing(ps, es, at, Within(plan, {}));
    var todo := b.children.Keys;
    assert b.children.Keys - todo == {};
    while todo != {}
      invariant todo <= b.children.Keys
      invariant Grew(ps, es, out.paths, out.entries, at, Within(plan, b.children.Keys - todo))
      invariant forall n | n in b.children.Keys - todo ::
        access.reachable(at, n) && RemovalCompletes(access, at + [n], b.children[n])
    {
      var n :| n in todo;
      ghost var ps1, es1 := out.paths, out.entries;
      if !access.reachable(at, n) {
        return false;
      }
      RenderJoins(at, n);
      ok := PushDeleted(access, b.children[n], JoinRel(rel, n), out, at + [n]);
      if !ok {
        return false;
      }
      forall q: Path | q != [] && q[0] == n
        ensures plan(q) == RemovalPlan(b.children[n])(q[1..])
      {
        RemovalStaysInside(b, q);
      }
      GrewByEntry(ps, es, ps1, es1, out.paths, out.entries, at, n, b.children.Keys - todo,
                  RemovalPlan(b.children[n]), plan);
      assert b.children.Keys - todo + {n} == b.children.Keys - (todo - {n});
      todo := todo - {n};
    }
    SamePlan(ps, es, out.paths, out.entries, at, Within(plan, b.children.Keys - todo), plan);    return true;
  }

  /** Report the base subtree `b` as deleted, one entry per node. */
  method PushDeleted(access: Access, b: Node, rel: string, out: DiffLog, at: Path) returns (ok: bool)
    requires out.Valid() && rel == Render(at)
    modifies out
    ensures ok == RemovalCompletes(access, at, b)
    ensures ok ==> Grew(old(out.paths), old(out.entries), out.paths, out.entries, at, RemovalPlan(b))
    decreases b, 1
  {
    hide Reports;
    ghost var ps, es := out.paths, out.entries;
    ghost var self := SelfPlan(ChangeFor(Deleted, b));
    out.Push(rel, Deleted, b, at, self);
    ghost var ps1, es1 := out.paths, out.entries;
    if b.Dir? {
      ok := PushChildrenDeleted(access, b, rel, out, at);
      if !ok {
        return false;
      }
      GrewTwice(ps, es, ps1, es1, out.paths, out.entries, at, self, ContentsRemovalPlan(b), RemovalPlan(b));
    } else {
      forall q: Path ensures self(q) == RemovalPlan(b)(q) {
        RemovalStaysInside(b, q);
      }
      SamePlan(ps, es, out.paths, out.entries, at, self, RemovalPlan(b));
    }
    return true;
  }

  lemma ShadowedEntry(u: Node, b: Node, q: Path)
    requires u.Dir? && b.Dir?
    ensures q == [] || q[0] !in b.children || q[0] in u.children ==> ShadowedPlan(u, b)(q) == None
    ensures q != [] && q[0] in b.children && q[0] !in u.children ==>
      ShadowedPlan(u, b)(q) == RemovalPlan(b.children[q[0]])(q[1..])
  {
    if q != [] {
      FindNothing(q[1..]);
    }
  }

  /** Report the base children that the opaque directory `u` does not name. */
  method ReportShadowed(access: Access, u: Node, b: Node, rel: string, out: DiffLog, at: Path) returns (ok: bool)
    requires u.Dir? && b.Dir?
    requires out.Valid() && rel == Render(at)
    modifies out
    ensures ok == ShadowedCompletes(access, at, u, b)
    ensures ok ==> Grew(old(out.paths), old(out.entries), out.paths, out.entries, at, ShadowedPlan(u, b))
  {
    hide Reports, RemovalCompletes;
    if !access.readable(at) {
      return false;
    }
    ghost var ps, es := out.paths, out.entries;
    ghost var plan := ShadowedPlan(u, b);
    forall q: Path
      ensures q == [] || q[0] !in b.children || q[0] in u.children ==> plan(q) == None
    {
      ShadowedEntry(u, b, q);
    }
    GrewByNothing(ps, es, at, Within(plan, {}));
    var todo := b.children.Keys;
    assert b.children.Keys - todo == {};
    while todo != {}
      invariant todo <= b.children.Keys
      invariant Grew(ps, es, out.paths, out.entries, at, Within(plan, b.children.Keys - todo))
      invariant forall n | n in b.children.Keys - todo && n !in u.children ::
        access.reachable(at, n) && RemovalCompletes(access, at + [n], b.children[n])
    {
      var n :| n in todo;
      ghost var ps1, es1 := out.paths, out.entries;
      ghost var inner := NoPlan();
      if n !in u.children {
        if !access.reachable(at, n) {
          return false;
        }
        RenderJoins(at, n);
        ok := PushDeleted(access, b.children[n], JoinRel(rel, n), out, at + [n]);
        if !ok {
          return false;
        }
        inner := RemovalPlan(b.children[n]);
        forall q: Path | q != [] && q[0] == n
          ensures plan(q) == inner(q[1..])
        {
          ShadowedEntry(u, b, q);
        }
      } else {
        GrewByNothing(ps1, es1, at + [n], inner);
      }
      GrewByEntry(ps, es, ps1, es1, out.paths, out.entries, at, n, b.children.Keys - todo, inner, plan);
      assert b.children.Keys - todo + {n} == b.children.Keys - (todo - {n});
      todo := todo - {n};
    }
    SamePlan(ps, es, out.paths, out.entries, at, Within(plan, b.children.Keys - todo), plan);    return true;
  }

  /** The plan of a directory at one of its names. */
  lemma WalkPlanAt(access: Access, at: Path, u: Node, b: Option<Node>)
    requires u.Dir?
    ensures forall q: Path | q == [] || q[0] !in u.children :: WalkPlan(access, at, u, b)(q) == None
    ensures forall q: Path | q != [] && q[0] in u.children ::
      WalkPlan(access, at, u, b)(q) ==
      EntryPlan(access, at + [q[0]], u.children[q[0]], LookBelow(access, at, b, q[0]))(q[1..])
  {
    hide EntryBelow, LookBelow;
  }

  /** A plan whose entries have all been visited is complete. */
  lemma GrewByAll(ps0: seq<Path>, es0: seq<DiffEntry>, ps: seq<Path>, es: seq<DiffEntry>,
                  at: Path, done: set<Name>, plan: Plan)
    requires Grew(ps0, es0, ps, es, at, Within(plan, done))
    requires forall q: Path | q != [] && q[0] !in done :: plan(q) == None
    ensures Grew(ps0, es0, ps, es, at, plan)
  {
    hide Grew;
    SamePlan(ps0, es0, ps, es, at, Within(plan, done), plan);
  }

  /** Before its first entry, a directory that is not reported itself has no report. */
  lemma GrewByNoneYet(ps: seq<Path>, es: seq<DiffEntry>, at: Path, plan: Plan)
    requires |ps| == |es| && plan([]) == None
    ensures Grew(ps, es, ps, es, at, Within(plan, {}))
  {
    hide Grew;
    GrewByNothing(ps, es, at, Within(plan, {}));
  }

  lemma GrewIsAligned(ps0: seq<Path>, es0: seq<DiffEntry>, ps: seq<Path>, es: seq<DiffEntry>, at: Path, plan: Plan)
    requires Grew(ps0, es0, ps, es, at, plan)
    ensures |ps| == |es|
  {
  }

  /** Report the contents of the upper directory `u` facing the base node `b`. */
  method Walk(access: Access, u: Node, b: Option<Node>, rel: string, out: DiffLog, at: Path) returns (ok: bool)
    requires u.Dir?
    requires out.Valid() && rel == Render(at)
    modifies out
    ensures ok == WalkCompletes(access, at, u, b)
    ensures ok ==> Grew(old(out.paths), old(out.entries), out.paths, out.entries, at, WalkPlan(access, at, u, b))
    decreases u, 0
  {
    hide Grew, Within, WalkPlan, EntryPlan, LookBelow, EntryCompletes;
    ghost var ps, es := out.paths, out.entries;
    ghost var plan := WalkPlan(access, at, u, b);
    WalkPlanAt(access, at, u, b);
    GrewByNoneYet(ps, es, at, plan);
    var todo := u.children.Keys;
    assert u.children.Keys - todo == {};
    while todo != {}
      invariant todo <= u.children.Keys && out.Valid()
      invariant Grew(ps, es, out.paths, out.entries, at, Within(plan, u.children.Keys - todo))
      invariant forall n | n in u.children.Keys - todo ::
        EntryCompletes(access, at + [n], u.children[n], LookBelow(access, at, b, n))
    {
      var n :| n in todo;
      ghost var ps1, es1 := out.paths, out.entries;
      RenderJoins(at, n);
      var below := LookBelow(access, at, b, n);
      ok := WalkEntry(access, u.children[n], below, JoinRel(rel, n), out, at + [n]);
      if !ok {
        return false;
      }
      GrewByEntry(ps, es, ps1, es1, out.paths, out.entries, at, n, u.children.Keys - todo,
                  EntryPlan(access, at + [n], u.children[n], below), plan);
      assert u.children.Keys - todo + {n} == u.children.Keys - (todo - {n});
      todo := todo - {n};
      GrewIsAligned(ps, es, out.paths, out.entries, at, Within(plan, u.children.Keys - todo));
    }
    GrewByAll(ps, es, out.paths, out.entries, at, u.children.Keys - todo, plan);
    return true;
  }

  /** Report one entry `u` of an upper directory, facing the base node `b`. */
  method WalkEntry(access: Access, u: Node, b: Option<Node>, rel: string, out: DiffLog, at: Path) returns (ok: bool)
    requires out.Valid() && rel == Render(at)
    modifies out
    ensures ok == EntryCompletes(access, at, u, b)
    ensures ok ==> Grew(old(out.paths), old(out.entries), out.paths, out.entries, at, EntryPlan(access, at, u, b))
    decreases u, 1
  {
    hide Reports, RemovalCompletes, ShadowedCompletes, WalkCompletes;
    ok := true;
    ghost var ps, es := out.paths, out.entries;
    ghost var plan := EntryPlan(access, at, u, b);
    if IsWhiteout(u) {
      if b.Some? {
        ok := PushDeleted(access, b.value, rel, out, at);
        if !ok {
          return;
        }
        SamePlan(ps, es, out.paths, out.entries, at, RemovalPlan(b.value), plan);
      } else {
        forall q: Path ensures plan(q) == None {
          FindNothing(q);
        }
        GrewByNothing(ps, es, at, plan);
      }
    } else if u.Dir? {
      ghost var first := NoPlan();
      if b.Some? && b.value.Dir? {
        if IsOpaque(u) {
          ok := ReportShadowed(access, u, b.value, rel, out, at);
          if !ok {
            return;
          }
          first := ShadowedPlan(u, b.value);
        } else {
          GrewByNothing(ps, es, at, first);
        }
      } else {
        var kind := if b.Some? then Modified else Added;
        first := SelfPlan(ChangeFor(kind, u));
        out.Push(rel, kind, u, at, first);
      }
      ghost var ps1, es1 := out.paths, out.entries;
      ok := Walk(access, u, b, rel, out, at);
      if !ok {
        return;
      }
      GrewTwice(ps, es, ps1, es1, out.paths, out.entries, at, first, WalkPlan(access, at, u, b), plan);
    } else {
      var kind := if b.Some? then Modified else Added;
      out.Push(rel, kind, u, at, SelfPlan(ChangeFor(kind, u)));
      if b.Some? && b.value.Dir? {
        ghost var ps1, es1 := out.paths, out.entries;
        ok := PushChildrenDeleted(access, b.value, rel, out, at);
        if !ok {
          return;
        }
        GrewTwice(ps, es, ps1, es1, out.paths, out.entries, at,
                  SelfPlan(ChangeFor(kind, u)), ContentsRemovalPlan(b.value), plan);
      } else {
        SamePlan(ps, es, out.paths, out.entries, at, SelfPlan(ChangeFor(kind, u)), plan);
      }
    }
  }

  // ----- the whole diff -----

  /** The entries are the plan for the whole tree, each path under its own string. */
  ghost predicate Lists(es: seq<DiffEntry>, plan: Plan) {
    && (forall p: Path, c: Change :: DiffEntry(Render(p), c) in es <==> plan(p) == Some(c))
    && (forall e | e in es :: exists p: Path :: e.path == Render(p))
  }

  lemma {:induction false} LoggedEntries(ps: seq<Path>, es: seq<DiffEntry>, plan: Plan)
    requires Reports(ps, es, [], plan)
    ensures DistinctPaths(es) && Lists(es, plan)
  {
    forall i | 0 <= i < |ps|
      ensures ps[i][0..] == ps[i]
    {
    }
    forall i, j | 0 <= i < j < |es|
      ensures es[i].path != es[j].path
    {
      if es[i].path == es[j].path {
        RenderIsInjective(ps[i], ps[j]);
      }
    }
    forall p: Path, c: Change
      ensures DiffEntry(Render(p), c) in es <==> plan(p) == Some(c)
    {
      if DiffEntry(Render(p), c) in es {
        var i :| 0 <= i < |es| && es[i] == DiffEntry(Render(p), c);
        RenderIsInjective(p, ps[i]);
      }
      if plan(p) == Some(c) {
        assert [] + p == p;
        var i :| 0 <= i < |ps| && ps[i] == p;
        assert es[i] == DiffEntry(Render(p), c);
      }
    }
  }

  /** One list of entries cannot be two different plans. */
  lemma ListedPlanIsUnique(es: seq<DiffEntry>, plan: Plan, other: Plan)
    requires Lists(es, plan) && Lists(es, other)
    ensures forall p: Path :: plan(p) == other(p)
  {
    forall p: Path
      ensures plan(p) == other(p)
    {
      var mine := plan(p).Some? && DiffEntry(Render(p), plan(p).value) in es;
      var theirs := other(p).Some? && DiffEntry(Render(p), other(p).value) in es;
    }
  }

  lemma EqualPlansAreListedAlike(es: seq<DiffEntry>, plan: Plan, other: Plan)
    requires Lists(es, plan) && forall p: Path :: plan(p) == other(p)
    ensures Lists(es, other)
  {
  }

  lemma SortingKeepsTheList(es: seq<DiffEntry>, plan: Plan)
    requires Lists(es, plan) && DistinctPaths(es)
    ensures Ascending(SortByPath(es)) && Lists(SortByPath(es), plan)
  {
    SortIsAscending(es);
  }

  ghost function ReportPlan(access: Access, u: Node, b: Node): Plan {
    p => ReportAt(access, u, b, p)
  }

  ghost function TruthPlan(u: Node, b: Node): Plan {
    p => TruthAt(u, b, p)
  }

  lemma TruthIffFaithful(access: Access, u: Node, b: Node, es: seq<DiffEntry>)
    requires u.Dir? && b.Dir? && Lists(es, ReportPlan(access, u, b))
    ensures Lists(es, TruthPlan(u, b)) <==> FaithfulLayer(access, u, b)
  {
    hide Lists, ReportAt, TruthAt, FaithfulLayer;
    var report, truth := ReportPlan(access, u, b), TruthPlan(u, b);
    ReportIsExactIffFaithful(access, u, b);
    if FaithfulLayer(access, u, b) {
      EqualPlansAreListedAlike(es, report, truth);
    }
    if Lists(es, truth) {
      ListedPlanIsUnique(es, report, truth);
      assert forall p: Path :: report(p) == ReportAt(access, u, b, p) && truth(p) == TruthAt(u, b, p);
    }
  }

  /** Size and mode of every entry are those of the version that explains it. */
  ghost predicate EntriesDescribe(es: seq<DiffEntry>, access: Access, u: Node, b: Node) {
    forall p: Path, c: Change | DiffEntry(Render(p), c) in es ::
      DescribesVersion(c, Find(Some(u), p), See(access, [], Some(b), p))
  }

  lemma ListedEntriesDescribe(access: Access, u: Node, b: Node, es: seq<DiffEntry>)
    requires Lists(es, ReportPlan(access, u, b))
    ensures EntriesDescribe(es, access, u, b)
  {
    hide DescribesVersion, WalkBelow, See;
    forall p: Path, c: Change | DiffEntry(Render(p), c) in es
      ensures DescribesVersion(c, Find(Some(u), p), See(access, [], Some(b), p))
    {
      assert ReportPlan(access, u, b)(p) == Some(c);
      ReportDescribes(access, [], u, Some(b), p);
    }
  }

  /**
   Every path that the layer `u` adds to, modifies in, or deletes from the base `b`, in
   strictly ascending order; and these are the overlay's changes precisely when the layer
   is faithful. There is no result precisely when the walk has to read what it may not.
   */
  method DiffUpper(access: Access, u: Node, b: Node) returns (r: Option<seq<DiffEntry>>)
    requires u.Dir? && b.Dir?
    ensures r.Some? <==> WalkCompletes(access, [], u, Some(b))
    ensures r.Some? ==>
      && Ascending(r.value)
      && Lists(r.value, ReportPlan(access, u, b))
      && (Lists(r.value, TruthPlan(u, b)) <==> FaithfulLayer(access, u, b))
      && EntriesDescribe(r.value, access, u, b)
  {
    hide Lists, Reports, FaithfulLayer, WalkCompletes, EntriesDescribe;
    var out := new DiffLog();
    var ok := Walk(access, u, Some(b), "", out, []);
    if !ok {
      return None;
    }
    assert out.paths[0..] == out.paths && out.entries[0..] == out.entries;
    LoggedEntries(out.paths, out.entries, WalkPlan(access, [], u, Some(b)));
    SortingKeepsTheList(out.entries, WalkPlan(access, [], u, Some(b)));
    var es := SortByPath(out.entries);
    EqualPlansAreListedAlike(es, WalkPlan(access, [], u, Some(b)), ReportPlan(access, u, b));
    TruthIffFaithful(access, u, b, es);
    ListedEntriesDescribe(access, u, b, es);
    return Some(es);
  }
}
