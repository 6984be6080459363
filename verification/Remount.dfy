/** Making a bind-mounted directory and everything mounted below it read-only. */
module Remount {
  import opened Options
  import opened TextLines
  import opened MountText

  // ----- paths as `PathBuf` compares them -----

  function Named(segments: seq<string>): seq<string> {
    if segments == [] then []
    else (if segments[0] == "" || segments[0] == "." then [] else [segments[0]]) + Named(segments[1..])
  }

  function Components(path: string): seq<string> {
    var segments := Split(path, '/');
    (if path != "" && path[0] == '/' then ["/"] else if segments[0] == "." then ["."] else []) + Named(segments)
  }

  predicate Same(p: string, q: string) {
    Components(p) == Components(q)
  }

  predicate Under(p: string, top: string) {
    var cp, ct := Components(p), Components(top);
    |ct| <= |cp| && cp[..|ct|] == ct
  }

  function Depth(p: string): nat {
    |Components(p)|
  }

  function Absolute(names: seq<string>): string {
    ['/'] + if names == [] then [] else Joined(names, '/')
  }

  ghost predicate AreNames(names: seq<string>) {
    Free(names, '/') && forall i | 0 <= i < |names| :: names[i] != "" && names[i] != "."
  }

  lemma {:induction false} NamedKeepsNames(names: seq<string>)
    requires AreNames(names)
    ensures Named(names) == names
  {
    if names != [] {
      NamedKeepsNames(names[1..]);
    }
  }

  lemma ComponentsOfAbsolute(names: seq<string>)
    requires AreNames(names)
    ensures Components(Absolute(names)) == ["/"] + names
  {
    var path := Absolute(names);
    if names == [] {
      assert Split(path, '/') == [[], []];
      assert Named([[], []]) == Named([[]]) == [];
    } else {
      var joined := Joined(names, '/');
      assert path == [] + ['/'] + joined;
      FirstOfJoined([], '/', joined);
      SplitOfJoined(names, '/');
      assert Split(path, '/') == [[]] + names;
      NamedKeepsNames(names);
      assert ([[]] + names)[1..] == names;
    }
  }

  /** Below means below name by name: `/usrlocal` is not under `/usr`. */
  lemma UnderIsByName(names: seq<string>, top: seq<string>)
    requires AreNames(names) && AreNames(top)
    ensures Under(Absolute(names), Absolute(top)) <==> |top| <= |names| && names[..|top|] == top
  {
    hide Components, AreNames;
    ComponentsOfAbsolute(names);
    ComponentsOfAbsolute(top);
    var cp, ct := ["/"] + names, ["/"] + top;
    if |top| <= |names| {
      assert cp[..|ct|] == ["/"] + names[..|top|];
      assert cp[..|ct|][1..] == names[..|top|] && ct[1..] == top;
    }
  }

  /** Two paths are the same, or one deeper than the other, name by name. */
  lemma SameIsByName(names: seq<string>, other: seq<string>)
    requires AreNames(names) && AreNames(other)
    ensures Same(Absolute(names), Absolute(other)) <==> names == other
    ensures Depth(Absolute(names)) == 1 + |names|
  {
    hide Components, AreNames;
    ComponentsOfAbsolute(names);
    ComponentsOfAbsolute(other);
    assert (["/"] + names)[1..] == names && (["/"] + other)[1..] == other;
  }

  // ----- the list of mounts -----

  function Selected(l: Option<Listing>, top: string): seq<Listing> {
    if l.Some? && Under(l.value.path, top) then [l.value] else []
  }

  function ListedLines(lines: seq<string>, top: string): seq<Listing> {
    if lines == [] then []
    else ListedLines(lines[..|lines| - 1], top) + Selected(ParseLine(lines[|lines| - 1]), top)
  }

  /** The mounts at or under `top`, in table order. */
  function Listed(rows: seq<Mount>, top: string): seq<Listing> {
    if rows == [] then []
    else Listed(rows[..|rows| - 1], top) + Selected(Some(ListingOf(rows[|rows| - 1])), top)
  }

  function Place(ls: seq<Listing>, l: Listing): seq<Listing> {
    if ls == [] || Depth(ls[|ls| - 1].path) <= Depth(l.path) then ls + [l]
    else Place(ls[..|ls| - 1], l) + [ls[|ls| - 1]]
  }

  /** The stable sort by depth. */
  function ByDepth(ls: seq<Listing>): seq<Listing> {
    if ls == [] then [] else Place(ByDepth(ls[..|ls| - 1]), ls[|ls| - 1])
  }

  ghost predicate ParentsFirst(ls: seq<Listing>) {
    forall i, j | 0 <= i < j < |ls| :: Depth(ls[i].path) <= Depth(ls[j].path)
  }

  function AtDepth(ls: seq<Listing>, d: nat): seq<Listing> {
    if ls == [] then []
    else AtDepth(ls[..|ls| - 1], d) + if Depth(ls[|ls| - 1].path) == d then [ls[|ls| - 1]] else []
  }

  lemma {:induction false} PlaceKeeps(ls: seq<Listing>, l: Listing)
    ensures multiset(Place(ls, l)) == multiset(ls) + multiset{l}
  {
    if ls != [] && Depth(ls[|ls| - 1].path) > Depth(l.path) {
      PlaceKeeps(ls[..|ls| - 1], l);
      assert ls == ls[..|ls| - 1] + [ls[|ls| - 1]];
    }
  }

  lemma {:induction false} PlaceOrders(ls: seq<Listing>, l: Listing)
    requires ParentsFirst(ls)
    ensures ParentsFirst(Place(ls, l))
  {
    hide Components;
    if ls != [] && Depth(ls[|ls| - 1].path) > Depth(l.path) {
      var init, last := ls[..|ls| - 1], ls[|ls| - 1];
      PlaceOrders(init, l);
      PlaceKeeps(init, l);
      forall i | 0 <= i < |Place(init, l)|
        ensures Depth(Place(init, l)[i].path) <= Depth(last.path)
      {
        assert Place(init, l)[i] in multiset(Place(init, l));
        assert Place(init, l)[i] in init || Place(init, l)[i] == l;
      }
    }
  }

  lemma {:induction false} AtDepthOfExtended(ls: seq<Listing>, l: Listing, d: nat)
    ensures AtDepth(ls + [l], d) == AtDepth(ls, d) + if Depth(l.path) == d then [l] else []
  {
    assert (ls + [l])[..|ls|] == ls;
  }

  lemma {:induction false} PlaceIsStable(ls: seq<Listing>, l: Listing, d: nat)
    requires ParentsFirst(ls)
    ensures AtDepth(Place(ls, l), d) == AtDepth(ls, d) + if Depth(l.path) == d then [l] else []
  {
    hide Components;
    if ls == [] || Depth(ls[|ls| - 1].path) <= Depth(l.path) {
      AtDepthOfExtended(ls, l, d);
    } else {
      PlaceIsStable(ls[..|ls| - 1], l, d);
      AtDepthOfExtended(Place(ls[..|ls| - 1], l), ls[|ls| - 1], d);
    }
  }

  lemma {:induction false} SortKeeps(ls: seq<Listing>)
    ensures multiset(ByDepth(ls)) == multiset(ls)
  {
    hide Place;
    if ls != [] {
      SortKeeps(ls[..|ls| - 1]);
      PlaceKeeps(ByDepth(ls[..|ls| - 1]), ls[|ls| - 1]);
      assert ls == ls[..|ls| - 1] + [ls[|ls| - 1]];
    }
  }

  lemma {:induction false} SortOrders(ls: seq<Listing>)
    ensures ParentsFirst(ByDepth(ls))
  {
    hide Place, Depth;
    if ls != [] {
      SortOrders(ls[..|ls| - 1]);
      PlaceOrders(ByDepth(ls[..|ls| - 1]), ls[|ls| - 1]);
    }
  }

  lemma {:induction false} SortIsStable(ls: seq<Listing>, d: nat)
    ensures AtDepth(ByDepth(ls), d) == AtDepth(ls, d)
  {
    hide Place, Depth, ParentsFirst;
    if ls != [] {
      SortIsStable(ls[..|ls| - 1], d);
      SortOrders(ls[..|ls| - 1]);
      PlaceIsStable(ByDepth(ls[..|ls| - 1]), ls[|ls| - 1], d);
    }
  }

  /** The sorted list is a rearrangement, parents first, that keeps the order of mounts at one depth. */
  lemma SortedByDepth(ls: seq<Listing>, d: nat)
    ensures multiset(ByDepth(ls)) == multiset(ls)
    ensures ParentsFirst(ByDepth(ls))
    ensures AtDepth(ByDepth(ls), d) == AtDepth(ls, d)
  {
    hide ByDepth, Depth, ParentsFirst, AtDepth;
    SortKeeps(ls);
    SortOrders(ls);
    SortIsStable(ls, d);
  }

  /** A directory mounted below another one comes after it. */
  lemma ParentsComeFirst(ls: seq<Listing>, i: nat, j: nat, parent: seq<string>, child: seq<string>)
    requires i < |ByDepth(ls)| && j < |ByDepth(ls)|
    requires AreNames(parent) && AreNames(child) && parent < child
    requires ByDepth(ls)[i].path == Absolute(parent) && ByDepth(ls)[j].path == Absolute(child)
    ensures i < j
  {
    hide ByDepth, Depth, AreNames, Absolute;
    SortOrders(ls);
    SameIsByName(parent, parent);
    SameIsByName(child, child);
  }

  /** `mounts_under`, on the text of the table. */
  method MountsUnder(info: string, top: string) returns (out: seq<Listing>)
    ensures out == ByDepth(ListedLines(Lines(info, '\n', '\r'), top))
  {
    hide Components, Lines, Split, Unescaped, FlagsIn, ByDepth;
    var lines := Lines(info, '\n', '\r');
    out := [];
    var i := 0;
    while i < |lines|
      invariant i <= |lines| && out == ListedLines(lines[..i], top)
    {
      var line := lines[i];
      i := i + 1;
      assert lines[..i][..i - 1] == lines[..i - 1];
      var fields := Split(line, ' ');
      if |fields| <= 5 {
        continue;
      }
      var mp := Unescape(fields[4]);
      if Same(mp, top) || Under(mp, top) {
        var options := Split(fields[5], ',');
        var flags := ParseMountOpts(fields[5]);
        out := out + [Listing(mp, flags, "ro" in options)];
      }
    }
    assert lines[..|lines|] == lines;
    out := ByDepth(out);
  }

  /** On the kernel's own text the list is exactly the mounts at or under `top`. */
  lemma {:induction false} ListedIsExact(rows: seq<Mount>, lines: seq<string>, top: string)
    requires |lines| == |rows|
    requires forall i | 0 <= i < |rows| :: ParseLine(lines[i]) == Some(ListingOf(rows[i]))
    ensures ListedLines(lines, top) == Listed(rows, top)
  {
    hide ParseLine, Under, ListingOf;
    if rows != [] {
      ListedIsExact(rows[..|rows| - 1], lines[..|rows| - 1], top);
    }
  }

  lemma InfoIsListed(rows: seq<Mount>, top: string)
    requires forall i | 0 <= i < |rows| :: WellFormed(rows[i])
    ensures ListedLines(Lines(Info(rows), '\n', '\r'), top) == Listed(rows, top)
  {
    hide Lines, Info, WellFormed, ListedLines, Listed, ParseLine, ListingOf;
    InfoReadsBack(rows);
    ListedIsExact(rows, Lines(Info(rows), '\n', '\r'), top);
  }

  lemma {:induction false} ListedMembers(rows: seq<Mount>, top: string)
    ensures forall l :: l in Listed(rows, top) <==>
      exists i :: 0 <= i < |rows| && Under(rows[i].path, top) && l == ListingOf(rows[i])
  {
    hide Under, ListingOf;
    if rows != [] {
      var n := |rows| - 1;
      ListedMembers(rows[..n], top);
      assert ListingOf(rows[n]).path == rows[n].path by {
        PathOfListing(rows[n]);
      }
      forall l
        ensures l in Listed(rows, top) <==>
          exists i :: 0 <= i < |rows| && Under(rows[i].path, top) && l == ListingOf(rows[i])
      {
        if i :| 0 <= i < |rows| && Under(rows[i].path, top) && l == ListingOf(rows[i]) {
          assert i < n ==> rows[..n][i] == rows[i];
        }
        if i :| 0 <= i < n && Under(rows[..n][i].path, top) && l == ListingOf(rows[..n][i]) {
          assert rows[..n][i] == rows[i];
        }
      }
    }
  }

  lemma PathOfListing(m: Mount)
    ensures ListingOf(m).path == m.path
  {
  }

  // ----- remounting -----

  /** Row of the mount a path resolves to: the one mounted there last. */
  function Topmost(rows: seq<Mount>, path: string): (i: int)
    ensures -1 <= i < |rows| && (i >= 0 ==> rows[i].path == path)
    ensures forall k | i < k < |rows| :: rows[k].path != path
  {
    if rows == [] then -1
    else if rows[|rows| - 1].path == path then |rows| - 1
    else Topmost(rows[..|rows| - 1], path)
  }

  const ATIME: set<Flag> := {NoAtime, NoDirAtime, RelAtime}

  /**
   The flags that the kernel gives a remounted mount: those asked for, except that a request
   without any atime flag keeps the mount's own, and one with some of them means relatime
   unless it says noatime.
   */
  function KernelFlags(before: set<Flag>, asked: set<Flag>): set<Flag> {
    if asked * ATIME == {} then asked + before * ATIME
    else asked - {RelAtime} + (if NoAtime in asked then {} else {RelAtime})
  }

  /** A read-only bind remount of the mount that the listed path resolves to. */
  function Remade(rows: seq<Mount>, l: Listing): (after: seq<Mount>)
    ensures |after| == |rows|
  {
    var i := Topmost(rows, l.path);
    if i < 0 then rows else rows[i := rows[i].(readOnly := true, flags := KernelFlags(rows[i].flags, l.flags))]
  }

  /** Whether each remount call, by number, is refused. */
  type Refusals = nat -> bool

  /** The table after the first `n` listings have been tried. */
  function After(rows: seq<Mount>, todo: seq<Listing>, refused: Refusals, n: nat): (after: seq<Mount>)
    requires n <= |todo|
    ensures |after| == |rows|
  {
    if n == 0 then rows
    else
      var before := After(rows, todo, refused, n - 1);
      if refused(n - 1) then before else Remade(before, todo[n - 1])
  }

  predicate Tolerated(l: Listing, top: string) {
    !Same(l.path, top) && l.readOnly
  }

  predicate Proceeds(todo: seq<Listing>, top: string, refused: Refusals, n: nat)
    requires n <= |todo|
  {
    forall i: nat | i < n :: refused(i) ==> Tolerated(todo[i], top)
  }

  class MountTable {
    var rows: seq<Mount>

    constructor (rows: seq<Mount>)
      ensures this.rows == rows
    {
      this.rows := rows;
    }

    /** `mount` with the read-only bind remount flags. */
    method Remount(l: Listing, refused: bool) returns (ok: bool)
      modifies this
      ensures ok == !refused
      ensures rows == if refused then old(rows) else Remade(old(rows), l)
    {
      if refused {
        return false;
      }
      rows := Remade(rows, l);
      return true;
    }

    /** `remount_ro_recursive`. */
    method RemountReadOnly(top: string, refused: Refusals) returns (ok: bool, ghost calls: nat)
      requires forall i | 0 <= i < |rows| :: WellFormed(rows[i])
      modifies this
      ensures
        var todo := ByDepth(Listed(old(rows), top));
        && calls <= |todo|
        && rows == After(old(rows), todo, refused, calls)
        && ok == Proceeds(todo, top, refused, |todo|)
        && (ok ==> calls == |todo|)
        && (!ok ==> refused(calls) && Proceeds(todo, top, refused, calls) && !Proceeds(todo, top, refused, calls + 1))
      ensures ok ==>
        forall j | 0 <= j < |rows| && Under(rows[j].path, top) && Topmost(rows, rows[j].path) == j ::
          rows[j].readOnly
    {
      hide ByDepth, ListedLines, Listed, Under, Same, WellFormed, Topmost, Remade, ListingOf, Lines, Info;
      ghost var was := rows;
      InfoIsListed(rows, top);
      var todo := MountsUnder(Info(rows), top);
      calls := 0;
      var i := 0;
      while i < |todo|
        invariant i <= |todo| && calls == i && rows == After(was, todo, refused, i)
        invariant Proceeds(todo, top, refused, i)
      {
        var done := Remount(todo[i], refused(i));
        if !done {
          if Same(todo[i].path, top) {
            return false, i;
          }
          if !todo[i].readOnly {
            return false, i;
          }
        }
        i := i + 1;
        calls := i;
      }
      ok := true;
      SuccessIsReadOnly(was, todo, top, refused);
    }
  }

  // ----- what remounting guarantees -----

  lemma {:induction false} SameTopmost(rows: seq<Mount>, other: seq<Mount>, path: string)
    requires |rows| == |other| && forall i | 0 <= i < |rows| :: rows[i].path == other[i].path
    ensures Topmost(rows, path) == Topmost(other, path)
  {
    if rows != [] {
      SameTopmost(rows[..|rows| - 1], other[..|rows| - 1], path);
    }
  }

  /** Only access and flags ever change, and no mount becomes writable. */
  lemma {:induction false} AfterOnlyRestricts(rows: seq<Mount>, todo: seq<Listing>, refused: Refusals, n: nat)
    requires n <= |todo|
    ensures
      var after := After(rows, todo, refused, n);
      forall i | 0 <= i < |rows| ::
        && after[i] == rows[i].(readOnly := after[i].readOnly, flags := after[i].flags)
        && (rows[i].readOnly ==> after[i].readOnly)
  {
    if n > 0 {
      AfterOnlyRestricts(rows, todo, refused, n - 1);
    }
  }

  lemma {:induction false} ListedCallIsFelt(
    rows: seq<Mount>, todo: seq<Listing>, refused: Refusals, q: nat, n: nat, j: nat)
    requires q < n <= |todo| && j < |rows| && Topmost(rows, rows[j].path) == j
    requires todo[q].path == rows[j].path && !refused(q)
    ensures After(rows, todo, refused, n)[j].readOnly
  {
    hide Topmost;
    var before := After(rows, todo, refused, n - 1);
    AfterOnlyRestricts(rows, todo, refused, n - 1);
    SameTopmost(rows, before, rows[j].path);
    if q < n - 1 {
      ListedCallIsFelt(rows, todo, refused, q, n - 1, j);
    }
  }

  lemma InSorted(rows: seq<Mount>, top: string, j: nat) returns (q: nat)
    requires j < |rows| && Under(rows[j].path, top)
    ensures q < |ByDepth(Listed(rows, top))| && ByDepth(Listed(rows, top))[q] == ListingOf(rows[j])
  {
    hide Under, ListingOf, ByDepth, Listed;
    var todo := ByDepth(Listed(rows, top));
    ListedMembers(rows, top);
    SortedByDepth(Listed(rows, top), 0);
    assert ListingOf(rows[j]) in Listed(rows, top);
    assert ListingOf(rows[j]) in multiset(todo);
    q :| 0 <= q < |todo| && todo[q] == ListingOf(rows[j]);
  }

  /**
   Fail closed: when every refusal was tolerable, each mount a path at or under `top` resolves
   to is read-only, even where mounts are stacked on one path.
   */
  lemma SuccessIsReadOnly(rows: seq<Mount>, todo: seq<Listing>, top: string, refused: Refusals)
    requires todo == ByDepth(Listed(rows, top)) && Proceeds(todo, top, refused, |todo|)
    ensures
      var after := After(rows, todo, refused, |todo|);
      forall j | 0 <= j < |rows| && Under(after[j].path, top) && Topmost(after, after[j].path) == j :: after[j].readOnly
  {
    hide Under, Same, Topmost, ByDepth, Listed, After;
    var after := After(rows, todo, refused, |todo|);
    AfterOnlyRestricts(rows, todo, refused, |todo|);
    forall j | 0 <= j < |rows| && Under(after[j].path, top) && Topmost(after, after[j].path) == j
      ensures after[j].readOnly
    {
      SameTopmost(rows, after, rows[j].path);
      var q := InSorted(rows, top, j);
      if refused(q) {
        assert Tolerated(todo[q], top);
      } else {
        ListedCallIsFelt(rows, todo, refused, q, |todo|, j);
      }
    }
  }

  lemma {:induction false} UngrantedIsUntouched(rows: seq<Mount>, todo: seq<Listing>, refused: Refusals, n: nat, j: nat)
    requires n <= |todo| && j < |rows|
    requires forall i: nat | i < n && todo[i].path == rows[j].path :: refused(i)
    ensures After(rows, todo, refused, n)[j] == rows[j]
  {
    hide Topmost, KernelFlags;
    if n > 0 {
      UngrantedIsUntouched(rows, todo, refused, n - 1, j);
    }
  }

  /** The last granted call on a mount's path decides its flags, given those it had just before. */
  lemma {:induction false} LastGrantedWins(
    rows: seq<Mount>, todo: seq<Listing>, refused: Refusals, q: nat, n: nat, j: nat)
    requires q < n <= |todo| && j < |rows| && Topmost(rows, rows[j].path) == j
    requires todo[q].path == rows[j].path && !refused(q)
    requires forall i: nat | q < i < n && todo[i].path == rows[j].path :: refused(i)
    ensures After(rows, todo, refused, n)[j] ==
      rows[j].(readOnly := true, flags := KernelFlags(After(rows, todo, refused, q)[j].flags, todo[q].flags))
  {
    hide Topmost, KernelFlags;
    var before := After(rows, todo, refused, n - 1);
    AfterOnlyRestricts(rows, todo, refused, n - 1);
    SameTopmost(rows, before, rows[j].path);
    if q < n - 1 {
      LastGrantedWins(rows, todo, refused, q, n - 1, j);
    }
  }

  ghost predicate DistinctPoints(rows: seq<Mount>) {
    forall i, j | 0 <= i < j < |rows| :: rows[i].path != rows[j].path
  }

  ghost predicate Granted(todo: seq<Listing>, refused: Refusals, path: string) {
    exists q: nat :: q < |todo| && todo[q].path == path && !refused(q)
  }

  lemma ListedOnce(rows: seq<Mount>, top: string, j: nat, l: Listing)
    requires DistinctPoints(rows) && j < |rows|
    requires l in ByDepth(Listed(rows, top)) && l.path == rows[j].path
    ensures l == ListingOf(rows[j]) && Under(rows[j].path, top)
  {
    hide Under, ByDepth, Listed;
    ListedMembers(rows, top);
    SortedByDepth(Listed(rows, top), 0);
    assert l in multiset(ByDepth(Listed(rows, top)));
    assert l in Listed(rows, top);
  }

  lemma KernelFlagsSettle(before: set<Flag>, asked: set<Flag>)
    ensures KernelFlags(KernelFlags(before, asked), asked) == KernelFlags(before, asked)
  {
  }

  ghost predicate GrantedBefore(todo: seq<Listing>, refused: Refusals, path: string, n: nat)
    requires n <= |todo|
  {
    exists q: nat :: q < n && todo[q].path == path && !refused(q)
  }

  /** When a mount is the only one of its path in the list, its calls all ask for the same. */
  lemma {:induction false} CallsAgree(
    rows: seq<Mount>, todo: seq<Listing>, refused: Refusals, n: nat, j: nat, own: set<Flag>)
    requires n <= |todo| && j < |rows| && Topmost(rows, rows[j].path) == j
    requires forall i: nat | i < n && todo[i].path == rows[j].path :: todo[i].flags == own
    ensures After(rows, todo, refused, n)[j] ==
      if GrantedBefore(todo, refused, rows[j].path, n)
      then rows[j].(readOnly := true, flags := KernelFlags(rows[j].flags, own)) else rows[j]
  {
    hide Topmost, KernelFlags;
    if n > 0 {
      CallsAgree(rows, todo, refused, n - 1, j, own);
      AfterOnlyRestricts(rows, todo, refused, n - 1);
      SameTopmost(rows, After(rows, todo, refused, n - 1), rows[j].path);
      KernelFlagsSettle(rows[j].flags, own);
      assert GrantedBefore(todo, refused, rows[j].path, n) <==>
        GrantedBefore(todo, refused, rows[j].path, n - 1) || (todo[n - 1].path == rows[j].path && !refused(n - 1));
    }
  }

  /**
   With distinct mount points the new table is known row by row: granted mounts at or under
   `top` are read-only with the flags that the kernel makes of their parsed ones, all others
   are as before.
   */
  lemma RemountIsExact(rows: seq<Mount>, top: string, refused: Refusals, j: nat)
    requires DistinctPoints(rows) && j < |rows|
    ensures
      var todo := ByDepth(Listed(rows, top));
      After(rows, todo, refused, |todo|)[j] ==
        if Under(rows[j].path, top) && Granted(todo, refused, rows[j].path)
        then rows[j].(readOnly := true, flags := KernelFlags(rows[j].flags, rows[j].flags - {NoSymFollow}))
        else rows[j]
  {
    hide Under, ByDepth, Listed, After, KernelFlags;
    var todo := ByDepth(Listed(rows, top));
    var own := rows[j].flags - {NoSymFollow};
    assert Topmost(rows, rows[j].path) == j;
    forall i: nat | i < |todo| && todo[i].path == rows[j].path
      ensures todo[i].flags == own && Under(rows[j].path, top)
    {
      ListedOnce(rows, top, j, todo[i]);
    }
    CallsAgree(rows, todo, refused, |todo|, j, own);
  }

  /** The atime flags can be asked for as they are: none, or relatime exactly without noatime. */
  predicate AtimeIsPlain(flags: set<Flag>) {
    flags * ATIME == {} || (RelAtime in flags <==> NoAtime !in flags)
  }

  lemma KernelKeepsIff(flags: set<Flag>)
    ensures KernelFlags(flags, flags - {NoSymFollow}) == flags <==> NoSymFollow !in flags && AtimeIsPlain(flags)
  {
    var asked := flags - {NoSymFollow};
    assert asked * ATIME == flags * ATIME;
    assert NoSymFollow !in ATIME;
    assert NoSymFollow !in KernelFlags(flags, asked);
    if asked * ATIME == {} {
      assert KernelFlags(flags, asked) == asked;
    } else {
      assert RelAtime in KernelFlags(flags, asked) <==> NoAtime !in flags;
      assert KernelFlags(flags, asked) - {RelAtime} == asked - {RelAtime};
    }
  }

  /**
   A granted remount keeps a mount's flags exactly when they do not include `nosymfollow`
   and are not `nodiratime` under strict atime (or both `noatime` and `relatime`).
   */
  lemma FlagsSurviveIff(rows: seq<Mount>, top: string, refused: Refusals, j: nat)
    requires DistinctPoints(rows) && j < |rows|
    requires Under(rows[j].path, top) && Granted(ByDepth(Listed(rows, top)), refused, rows[j].path)
    ensures
      var todo := ByDepth(Listed(rows, top));
      After(rows, todo, refused, |todo|)[j].flags == rows[j].flags <==>
        NoSymFollow !in rows[j].flags && AtimeIsPlain(rows[j].flags)
  {
    hide Under, ByDepth, Listed, After, Granted, KernelFlags, AtimeIsPlain;
    RemountIsExact(rows, top, refused, j);
    KernelKeepsIff(rows[j].flags);
  }

  // ----- stacked mounts -----

  function LastAt(ls: seq<Listing>, path: string): Option<Listing> {
    if ls == [] then None
    else if ls[|ls| - 1].path == path then Some(ls[|ls| - 1])
    else LastAt(ls[..|ls| - 1], path)
  }

  lemma LastAtOfExtended(ls: seq<Listing>, l: Listing, path: string)
    ensures LastAt(ls + [l], path) == if l.path == path then Some(l) else LastAt(ls, path)
  {
    assert (ls + [l])[..|ls|] == ls;
  }

  lemma {:induction false} LastAtDepth(ls: seq<Listing>, path: string)
    ensures LastAt(AtDepth(ls, Depth(path)), path) == LastAt(ls, path)
  {
    hide Depth;
    if ls != [] {
      LastAtDepth(ls[..|ls| - 1], path);
      var before := AtDepth(ls[..|ls| - 1], Depth(path));
      LastAtOfExtended(before, ls[|ls| - 1], path);
      assert before + [] == before;
    }
  }

  lemma {:induction false} LastListedIsTopmost(rows: seq<Mount>, top: string, path: string)
    requires Under(path, top)
    ensures LastAt(Listed(rows, top), path) ==
      if Topmost(rows, path) < 0 then None else Some(ListingOf(rows[Topmost(rows, path)]))
  {
    hide Under;
    if rows != [] {
      var init, last := rows[..|rows| - 1], rows[|rows| - 1];
      LastListedIsTopmost(init, top, path);
      LastAtOfExtended(Listed(init, top), ListingOf(last), path);
      assert Listed(init, top) + [] == Listed(init, top);
      assert forall i | 0 <= i < |init| :: init[i] == rows[i];
    }
  }

  lemma {:induction false} LastAtIsLast(ls: seq<Listing>, path: string) returns (q: nat)
    requires LastAt(ls, path).Some?
    ensures q < |ls| && ls[q] == LastAt(ls, path).value && ls[q].path == path
    ensures forall i | q < i < |ls| :: ls[i].path != path
  {
    if ls[|ls| - 1].path == path {
      q := |ls| - 1;
    } else {
      q := LastAtIsLast(ls[..|ls| - 1], path);
    }
  }

  /**
   Where mounts are stacked on one path, the visible one is tried last, because the sort is
   stable; so when that call is granted, it ends with what the kernel makes of its own flags.
   */
  lemma VisibleMountIsTriedLast(rows: seq<Mount>, top: string, refused: Refusals, j: nat) returns (q: nat)
    requires j < |rows| && Under(rows[j].path, top) && Topmost(rows, rows[j].path) == j
    ensures
      var todo := ByDepth(Listed(rows, top));
      && q < |todo| && todo[q] == ListingOf(rows[j])
      && (forall i | q < i < |todo| :: todo[i].path != rows[j].path)
      && (!refused(q) ==>
        After(rows, todo, refused, |todo|)[j] == rows[j].(
          readOnly := true,
          flags := KernelFlags(After(rows, todo, refused, q)[j].flags, rows[j].flags - {NoSymFollow})))
  {
    hide Under, ByDepth, Listed, After, Depth, AtDepth, Topmost, KernelFlags;
    var path := rows[j].path;
    var todo := ByDepth(Listed(rows, top));
    SortIsStable(Listed(rows, top), Depth(path));
    LastAtDepth(todo, path);
    LastAtDepth(Listed(rows, top), path);
    LastListedIsTopmost(rows, top, path);
    q := LastAtIsLast(todo, path);
    if !refused(q) {
      LastGrantedWins(rows, todo, refused, q, |todo|, j);
    }
  }

  /**
   The mount that `top` resolves to was remounted, even if it was read-only before: its own
   call came last, was granted, and decided its flags.
   */
  lemma SuccessRemountsTop(rows: seq<Mount>, top: string, refused: Refusals, j: nat) returns (q: nat)
    requires j < |rows| && Same(rows[j].path, top) && Topmost(rows, rows[j].path) == j
    requires Proceeds(ByDepth(Listed(rows, top)), top, refused, |ByDepth(Listed(rows, top))|)
    ensures
      var todo := ByDepth(Listed(rows, top));
      && q < |todo| && todo[q] == ListingOf(rows[j]) && !refused(q)
      && (forall i | q < i < |todo| :: todo[i].path != rows[j].path)
      && After(rows, todo, refused, |todo|)[j] == rows[j].(
           readOnly := true,
           flags := KernelFlags(After(rows, todo, refused, q)[j].flags, rows[j].flags - {NoSymFollow}))
  {
    hide ByDepth, Listed, After, Topmost, KernelFlags, Components;
    q := VisibleMountIsTriedLast(rows, top, refused, j);
  }

  /**
   A visible mount with strict atime keeps it exactly when no granted call on its path, such
   as that of a hidden mount stacked below it, asked for an atime flag.
   */
  lemma {:induction false} StrictAtimeSurvivesIff(
    rows: seq<Mount>, todo: seq<Listing>, refused: Refusals, n: nat, j: nat)
    requires n <= |todo| && j < |rows| && Topmost(rows, rows[j].path) == j
    requires rows[j].flags * ATIME == {}
    ensures After(rows, todo, refused, n)[j].flags * ATIME == {} <==>
      forall i: nat | i < n && todo[i].path == rows[j].path && !refused(i) :: todo[i].flags * ATIME == {}
  {
    hide Topmost, KernelFlags, ATIME;
    if n > 0 {
      StrictAtimeSurvivesIff(rows, todo, refused, n - 1, j);
      var before := After(rows, todo, refused, n - 1);
      AfterOnlyRestricts(rows, todo, refused, n - 1);
      SameTopmost(rows, before, rows[j].path);
      AtimeAfter(before[j].flags, todo[n - 1].flags);
    }
  }

  lemma AtimeAfter(before: set<Flag>, asked: set<Flag>)
    ensures KernelFlags(before, asked) * ATIME == {} <==> before * ATIME == {} && asked * ATIME == {}
  {
    var after := KernelFlags(before, asked);
    if asked * ATIME == {} {
      forall f | f in ATIME
        ensures f in after <==> f in before
      {
        assert f in asked ==> f in asked * ATIME;
      }
      assert after * ATIME == before * ATIME;
    } else {
      assert NoAtime in after * ATIME || RelAtime in after * ATIME;
    }
  }
}
