/**
 Copying an overlay upper layer: the directory walk through open descriptors, the three
 ways of moving file contents, and the retry inside a user namespace.
 */
module LayerCopy {
  import opened Options
  import opened Trees

  datatype Errno = PermissionDenied | AlreadyExists | Unsupported | OtherErrno(code: int)

  datatype Result<+T> = Ok(value: T) | Err(error: Errno)

  /** The system calls that can fail, each at the path it is applied to. */
  datatype Call =
    | OpenRoot | List | Stat | Mkdir | Open | Create | ReadLink | Chown | Chmod
    | Reflink | CopyRange | Read | Write | ListXattr | GetXattr(name: string) | SetXattr(name: string)
    | Helper

  /** Which calls fail, and how. */
  type Faults = (Call, Path) -> Option<Errno>

  // ----- what a copy has to preserve -----

  /** Overlay metadata; other extended attributes are copied on a best-effort basis. */
  predicate IsOverlayName(name: string) {
    "user.overlay." <= name || "trusted.overlay." <= name
  }

  function OverlayPart(x: Xattrs): Xattrs {
    map k | k in x && IsOverlayName(k) :: x[k]
  }

  /** A tree without the attributes that a copy may lose. */
  function Essence(n: Node): Node
    decreases n
  {
    match n
    case File(o, m, x, data) => File(o, m, OverlayPart(x), data)
    case Dir(o, m, x, ch) => Dir(o, m, OverlayPart(x), map k | k in ch :: Essence(ch[k]))
    case _ => n
  }

  /** Total regular-file bytes. */
  ghost function TotalBytes(n: Node): nat
    decreases n, 1, 0
  {
    match n
    case File(_, _, _, data) => |data|
    case Dir(_, _, _, ch) => BytesUnder(n, ch.Keys)
    case _ => 0
  }

  ghost function BytesUnder(d: Node, names: set<Name>): nat
    requires d.Dir? && names <= d.children.Keys
    decreases d, 0, |names|
  {
    if names == {} then 0 else
    var n :| n in names;
    TotalBytes(d.children[n]) + BytesUnder(d, names - {n})
  }

  lemma BytesOfDir(d: Node)
    requires d.Dir?
    ensures BytesUnder(d, {}) == 0 && TotalBytes(d) == BytesUnder(d, d.children.Keys)
  {
  }

  /** The order in which entries are counted does not matter. */
  lemma {:induction false} BytesUnderStep(d: Node, names: set<Name>, n: Name)
    requires d.Dir? && names <= d.children.Keys && n in names
    ensures BytesUnder(d, names) == TotalBytes(d.children[n]) + BytesUnder(d, names - {n})
    decreases |names|
  {
    var m :| m in names && BytesUnder(d, names) == TotalBytes(d.children[m]) + BytesUnder(d, names - {m});
    if m != n {
      BytesUnderStep(d, names - {m}, n);
      BytesUnderStep(d, names - {n}, m);
      assert names - {m} - {n} == names - {n} - {m};
    }
  }

  /**
   What equal essence means at every path: the same names, kinds, owners, modes, contents,
   targets and devices, and the same attributes in the two overlay namespaces.
   */
  predicate SameButAttributes(a: Node, b: Node) {
    && a.owner == b.owner
    && (a.File? <==> b.File?) && (a.Link? <==> b.Link?) && (a.Special? <==> b.Special?)
    && (a.File? ==> a.mode == b.mode && a.data == b.data)
    && (a.Link? ==> a.target == b.target)
    && (a.Special? ==> a.mode == b.mode && a.format == b.format && a.rdev == b.rdev)
    && (a.Dir? ==> a.mode == b.mode && a.children.Keys == b.children.Keys)
  }

  ghost predicate SameOverlayAttributes(a: Xattrs, b: Xattrs) {
    forall k | "user.overlay." <= k || "trusted.overlay." <= k ::
      (k in a <==> k in b) && (k in a ==> a[k] == b[k])
  }

  lemma {:induction false} EqualEssenceMeans(a: Node, b: Node, p: Path)
    requires Essence(a) == Essence(b)
    ensures Find(Some(a), p).Some? <==> Find(Some(b), p).Some?
    ensures Find(Some(a), p).Some? ==>
      var x, y := Find(Some(a), p).value, Find(Some(b), p).value;
      && SameButAttributes(x, y)
      && (x.File? || x.Dir? ==> SameOverlayAttributes(x.xattrs, y.xattrs))
    decreases |p|
  {
    if p == [] {
      EqualEssenceHere(a, b);
    } else {
      EqualEssenceHere(a, b);
      FindNothing(p[1..]);
      if a.Dir? && p[0] in a.children {
        assert Essence(a).children[p[0]] == Essence(b).children[p[0]];
        EqualEssenceMeans(a.children[p[0]], b.children[p[0]], p[1..]);
      }
    }
  }

  lemma EqualEssenceHere(a: Node, b: Node)
    requires Essence(a) == Essence(b)
    ensures SameButAttributes(a, b)
    ensures a.File? || a.Dir? ==> SameOverlayAttributes(a.xattrs, b.xattrs)
  {
    if a.Dir? {
      assert Essence(a).children.Keys == a.children.Keys && Essence(b).children.Keys == b.children.Keys;
    }
    if a.File? || a.Dir? {
      assert OverlayPart(a.xattrs) == OverlayPart(b.xattrs);
      SameParts(a.xattrs, b.xattrs);
    }
  }

  lemma SameParts(a: Xattrs, b: Xattrs)
    requires OverlayPart(a) == OverlayPart(b)
    ensures SameOverlayAttributes(a, b)
  {
    forall k | "user.overlay." <= k || "trusted.overlay." <= k
      ensures (k in a <==> k in b) && (k in a ==> a[k] == b[k])
    {
      assert k in OverlayPart(a) <==> k in a;
      assert k in OverlayPart(b) <==> k in b;
      assert k in a ==> OverlayPart(a)[k] == a[k];
    }
  }

  // ----- what can fail a copy -----

  /** A failing call that keeps the entry `st` from being created at `at`. */
  predicate FailsMaking(faults: Faults, st: Node, at: Path, c: Call) {
    faults(c, at).Some? &&
    match c
    case Stat => true
    case Create => true
    case ReadLink => st.Link?
    case Open => st.Dir? || st.File?
    case _ => false
  }

  /**
   A failing call that keeps it from being filled. A refused reflink never does, nor does an
   attribute outside the overlay namespaces; an in-kernel copy does unless it is
   unsupported from the start, and the plain loop only where that is the case.
   */
  predicate FailsFilling(faults: Faults, st: Node, at: Path, c: Call) {
    faults(c, at).Some? &&
    match c
    case CopyRange => FailsRange(faults, st, at)
    case Read => FailsLoop(faults, st, at)
    case Write => FailsLoop(faults, st, at)
    case Chown => true
    case Chmod => !st.Link?
    case List => st.Dir?
    case ListXattr => st.Dir? || st.File?
    case GetXattr(k) => (st.Dir? || st.File?) && k in st.xattrs
    case SetXattr(k) => (st.Dir? || st.File?) && k in st.xattrs && IsOverlayName(k)
    case _ => false
  }

  predicate FailsRange(faults: Faults, st: Node, at: Path) {
    && st.File? && faults(Reflink, at).Some?
    && (faults(CopyRange, at) == Some(Unsupported) ==> st.data != [])
  }

  predicate FailsLoop(faults: Faults, st: Node, at: Path) {
    st.File? && faults(Reflink, at).Some? && faults(CopyRange, at) == Some(Unsupported)
  }

  /** The error `e` comes from filling the node `st` at `at`, or from copying something below it. */
  ghost predicate FillCaused(faults: Faults, st: Node, at: Path, e: Errno)
    decreases st, 0
  {
    || (exists c: Call :: FailsFilling(faults, st, at, c) && faults(c, at) == Some(e))
    || (st.Dir? && exists n | n in st.children :: Caused(faults, st.children[n], at + [n], e))
  }

  /** The error `e` comes from copying the entry `st` at `at`. */
  ghost predicate Caused(faults: Faults, st: Node, at: Path, e: Errno)
    decreases st, 1
  {
    || (exists c: Call :: FailsMaking(faults, st, at, c) && faults(c, at) == Some(e))
    || FillCaused(faults, st, at, e)
  }

  lemma FillingFails(faults: Faults, st: Node, at: Path, c: Call)
    requires FailsFilling(faults, st, at, c)
    ensures FillCaused(faults, st, at, faults(c, at).value)
  {
  }

  lemma MakingFails(faults: Faults, st: Node, at: Path, c: Call)
    requires FailsMaking(faults, st, at, c)
    ensures Caused(faults, st, at, faults(c, at).value)
  {
  }

  lemma EntryFails(faults: Faults, st: Node, at: Path, n: Name, e: Errno)
    requires st.Dir? && n in st.children && Caused(faults, st.children[n], at + [n], e)
    ensures FillCaused(faults, st, at, e)
  {
  }

  // ----- descriptors -----

  const ME := Owner(0, 0)
  const PRIVATE_DIR := Mode(false, false, false, 0x1c0)
  const PRIVATE_FILE := Mode(false, false, false, 0x180)

  /** Whether the owner may create entries in a directory of this mode (write and search). */
  predicate OwnerMayPopulate(mode: Mode) {
    mode.perm / 128 % 2 == 1 && mode.perm / 64 % 2 == 1
  }

  function WithOwner(n: Node, o: Owner): Node {
    n.(owner := o)
  }

  function WithMode(n: Node, m: Mode): Node {
    match n
    case Link(_, _) => n
    case File(o, _, x, data) => File(o, m, x, data)
    case Special(o, _, f, rdev) => Special(o, m, f, rdev)
    case Dir(o, _, x, ch) => Dir(o, m, x, ch)
  }

  /** Changing the owner clears the set-id bits. */
  function AfterChown(n: Node, o: Owner): Node {
    match n
    case Link(_, _) => WithOwner(n, o)
    case _ => WithMode(WithOwner(n, o), n.mode.(setuid := false, setgid := false))
  }

  /** A node of the output tree held open by a descriptor. */
  class OpenNode {
    var node: Node

    constructor (n: Node)
      ensures node == n
    {
      node := n;
    }
  }

  /** The running `bytes` total. */
  class Tally {
    var bytes: nat

    constructor ()
      ensures bytes == 0
    {
      bytes := 0;
    }
  }

  /** A regular file being read from its current offset. */
  class Reader {
    const data: Bytes
    var pos: nat

    constructor (d: Bytes)
      ensures data == d && pos == 0
    {
      data := d;
      pos := 0;
    }
  }

  /** `set_fd_owner_mode`: owner first, since changing it clears the set-id bits. */
  method SetOwnerMode(fd: OpenNode, st: Node, at: Path, faults: Faults) returns (r: Result<()>)
    requires !fd.node.Link? && !st.Link?
    modifies fd
    ensures r.Ok? ==> fd.node == WithMode(WithOwner(old(fd.node), st.owner), st.mode)
    ensures r.Err? ==> FillCaused(faults, st, at, r.error)
    ensures
      && (fd.node.Dir? <==> old(fd.node).Dir?)
      && (fd.node.Dir? ==> fd.node.children == old(fd.node.children) && fd.node.xattrs == old(fd.node.xattrs))
  {
    hide FillCaused;
    if faults(Chown, at).Some? {
      FillingFails(faults, st, at, Chown);
      return Err(faults(Chown, at).value);
    }
    fd.node := AfterChown(fd.node, st.owner);
    if faults(Chmod, at).Some? {
      FillingFails(faults, st, at, Chmod);
      return Err(faults(Chmod, at).value);
    }
    fd.node := WithMode(fd.node, st.mode);
    return Ok(());
  }

  function WithXattrs(n: Node, x: Xattrs): Node
    requires n.File? || n.Dir?
  {
    n.(xattrs := x)
  }

  /** `copy_xattrs_fd`: losing an overlay attribute is an error, losing any other is not. */
  method CopyXattrs(src: Node, fd: OpenNode, at: Path, faults: Faults) returns (r: Result<()>)
    requires (src.File? || src.Dir?) && (fd.node.File? || fd.node.Dir?)
    modifies fd
    ensures fd.node.File? || fd.node.Dir?
    ensures fd.node == WithXattrs(old(fd.node), fd.node.xattrs)
    ensures r.Ok? ==> OverlayPart(fd.node.xattrs) == OverlayPart(old(fd.node.xattrs) + src.xattrs)
    ensures forall k | k in fd.node.xattrs ::
      (k in src.xattrs && fd.node.xattrs[k] == src.xattrs[k])
      || (k in old(fd.node.xattrs) && fd.node.xattrs[k] == old(fd.node.xattrs)[k])
    ensures r.Err? ==> FillCaused(faults, src, at, r.error)
  {
    hide FillCaused;
    if faults(ListXattr, at).Some? {
      FillingFails(faults, src, at, ListXattr);
      return Err(faults(ListXattr, at).value);
    }
    ghost var before := fd.node.xattrs;
    var todo := src.xattrs.Keys;
    while todo != {}
      invariant todo <= src.xattrs.Keys
      invariant fd.node.File? || fd.node.Dir?
      invariant fd.node == WithXattrs(old(fd.node), fd.node.xattrs)
      invariant forall k | k in fd.node.xattrs ::
        (k in src.xattrs && fd.node.xattrs[k] == src.xattrs[k]) || (k in before && fd.node.xattrs[k] == before[k])
      invariant forall k | k in src.xattrs && k !in todo && IsOverlayName(k) ::
        k in fd.node.xattrs && fd.node.xattrs[k] == src.xattrs[k]
      invariant forall k | k in before :: k in fd.node.xattrs
    {
      var name :| name in todo;
      if faults(GetXattr(name), at).Some? {
        FillingFails(faults, src, at, GetXattr(name));
        return Err(faults(GetXattr(name), at).value);
      }
      if faults(SetXattr(name), at).Some? {
        if IsOverlayName(name) {
          FillingFails(faults, src, at, SetXattr(name));
          return Err(faults(SetXattr(name), at).value);
        }
      } else {
        fd.node := WithXattrs(fd.node, fd.node.xattrs[name := src.xattrs[name]]);
      }
      todo := todo - {name};
    }
    return Ok(());
  }

  // ----- file contents -----

  /** The inner loop of `copy_loop`: writes of any length until the buffer is out. */
  method WriteOut(buf: Bytes, fd: OpenNode, at: Path, faults: Faults) returns (r: Result<()>)
    requires fd.node.File?
    modifies fd
    ensures fd.node.File? && fd.node == old(fd.node).(data := fd.node.data)
    ensures r.Ok? ==> fd.node.data == old(fd.node.data) + buf
    ensures r.Err? ==> faults(Write, at) == Some(r.error)
  {
    var off := 0;
    while off < |buf|
      invariant off <= |buf|
      invariant fd.node.File? && fd.node == old(fd.node).(data := fd.node.data)
      invariant fd.node.data == old(fd.node.data) + buf[..off]
    {
      var fails: bool := *;
      if fails && faults(Write, at).Some? {
        return Err(faults(Write, at).value);
      }
      var w: nat :| 1 <= w <= |buf| - off;
      assert buf[..off] + buf[off..off + w] == buf[..off + w];
      fd.node := fd.node.(data := fd.node.data + buf[off..off + w]);
      off := off + w;
    }
    return Ok(());
  }

  /** `copy_loop`: reads of any length, each written out in full. */
  method CopyLoop(reader: Reader, fd: OpenNode, at: Path, faults: Faults) returns (r: Result<nat>)
    requires fd.node.File? && reader.pos <= |reader.data|
    modifies reader`pos, fd
    ensures fd.node.File? && fd.node == old(fd.node).(data := fd.node.data)
    ensures r.Ok? ==> fd.node.data == old(fd.node.data) + reader.data[old(reader.pos)..]
    ensures r.Ok? ==> r.value == |reader.data| - old(reader.pos)
    ensures r.Err? ==> faults(Read, at) == Some(r.error) || faults(Write, at) == Some(r.error)
  {
    var total := 0;
    ghost var start := reader.pos;
    while true
      invariant start <= reader.pos <= |reader.data| && total == reader.pos - start
      invariant fd.node.File? && fd.node == old(fd.node).(data := fd.node.data)
      invariant fd.node.data == old(fd.node.data) + reader.data[start..reader.pos]
      decreases |reader.data| - reader.pos
    {
      var fails: bool := *;
      if fails && faults(Read, at).Some? {
        return Err(faults(Read, at).value);
      }
      if reader.pos == |reader.data| {
        return Ok(total);
      }
      var n: nat :| 1 <= n <= |reader.data| - reader.pos && n <= 0x100000;
      var buf := reader.data[reader.pos..reader.pos + n];
      assert reader.data[start..reader.pos] + buf == reader.data[start..reader.pos + n];
      reader.pos := reader.pos + n;
      var w := WriteOut(buf, fd, at, faults);
      if w.Err? {
        return Err(w.error);
      }
      total := total + n;
    }
  }

  /** What fails a copy of contents that could not be shared. */
  predicate ContentsCause(faults: Faults, at: Path, data: Bytes, e: Errno) {
    || (faults(CopyRange, at) == Some(e) && (e == Unsupported ==> data != []))
    || (faults(CopyRange, at) == Some(Unsupported) && (faults(Read, at) == Some(e) || faults(Write, at) == Some(e)))
  }

  /** `copy_file_contents`: reflink, then in-kernel copy, then the plain loop. */
  method CopyContents(reader: Reader, fd: OpenNode, size: nat, at: Path, faults: Faults) returns (r: Result<nat>)
    requires fd.node.File? && fd.node.data == [] && reader.pos == 0 && size == |reader.data|
    modifies reader`pos, fd
    ensures fd.node.File? && fd.node == old(fd.node).(data := fd.node.data)
    ensures r.Ok? ==> fd.node.data == reader.data && r.value == |reader.data|
    ensures r.Err? ==> faults(Reflink, at).Some? && ContentsCause(faults, at, reader.data, r.error)
  {
    if faults(Reflink, at).None? {
      fd.node := fd.node.(data := reader.data);
      return Ok(size);
    }
    var copied := 0;
    while true
      invariant copied == reader.pos <= |reader.data|
      invariant fd.node.File? && fd.node == old(fd.node).(data := fd.node.data)
      invariant fd.node.data == reader.data[..reader.pos]
      decreases |reader.data| - reader.pos
    {
      var fails: bool := *;
      if fails && faults(CopyRange, at).Some? {
        var e := faults(CopyRange, at).value;
        if e == Unsupported && copied == 0 {
          r := CopyLoop(reader, fd, at, faults);
          return;
        }
        return Err(e);
      }
      if reader.pos == |reader.data| {
        return Ok(copied);
      }
      var n: nat :| 1 <= n <= |reader.data| - reader.pos && n <= 0x1000000;
      assert reader.data[..reader.pos] + reader.data[reader.pos..reader.pos + n] == reader.data[..reader.pos + n];
      fd.node := fd.node.(data := fd.node.data + reader.data[reader.pos..reader.pos + n]);
      reader.pos := reader.pos + n;
      copied := copied + n;
    }
  }

  // ----- the walk -----

  /** `copy_dir` has copied the entries `done` of `src` into what was `before`. */
  ghost predicate CopiedEntries(before: Node, now: Node, src: Node, done: set<Name>) {
    && src.Dir? && before.Dir? && now.Dir? && done <= src.children.Keys
    && now == before.(children := now.children)
    && before.children.Keys !! done
    && now.children.Keys == before.children.Keys + done
    && (forall n | n in before.children :: now.children[n] == before.children[n])
    && (forall n | n in done :: Essence(now.children[n]) == Essence(src.children[n]))
  }

  /** Whatever happened, only names of `src` were created. */
  ghost predicate OnlyNewNames(before: Node, now: Node, src: Node) {
    && src.Dir? && before.Dir? && now.Dir?
    && now == before.(children := now.children)
    && now.children.Keys <= before.children.Keys + src.children.Keys
  }

  /** A copy into the directory `before` fails on a name that is taken, or on its mode. */
  ghost predicate Obstructed(before: Node, src: Node, e: Errno) {
    before.Dir? && src.Dir? &&
    ((e == AlreadyExists && !(before.children.Keys !! src.children.Keys)) ||
     (e == PermissionDenied && src.children != map[] && !OwnerMayPopulate(before.mode)))
  }

  /** Copy every entry of the directory `src` into the directory open at `dst`. */
  method CopyDir(src: Node, dst: OpenNode, tally: Tally, at: Path, faults: Faults) returns (r: Result<()>)
    requires src.Dir? && dst.node.Dir?
    modifies dst, tally
    ensures r.Ok? ==> CopiedEntries(old(dst.node), dst.node, src, src.children.Keys)
    ensures r.Ok? ==> tally.bytes == old(tally.bytes) + TotalBytes(src)
    ensures OnlyNewNames(old(dst.node), dst.node, src)
    ensures r.Err? ==> FillCaused(faults, src, at, r.error) || Obstructed(old(dst.node), src, r.error)
    decreases src, 0
  {
    hide FillCaused, Caused, Essence, OwnerMayPopulate, BytesUnder, TotalBytes;
    if faults(List, at).Some? {
      FillingFails(faults, src, at, List);
      return Err(faults(List, at).value);
    }
    var todo := src.children.Keys;
    assert src.children.Keys - todo == {};
    BytesOfDir(src);
    while todo != {}
      invariant todo <= src.children.Keys
      invariant CopiedEntries(old(dst.node), dst.node, src, src.children.Keys - todo)
      invariant tally.bytes == old(tally.bytes) + BytesUnder(src, src.children.Keys - todo)
    {
      var n :| n in todo;
      ghost var done := src.children.Keys - todo;
      var entry := CopyEntry(src.children[n], n, dst, tally, at + [n], faults);
      if entry.Err? {
        if Caused(faults, src.children[n], at + [n], entry.error) {
          EntryFails(faults, src, at, n, entry.error);
        }
        return Err(entry.error);
      }
      BytesUnderStep(src, done + {n}, n);
      assert done + {n} - {n} == done && done + {n} == src.children.Keys - (todo - {n});
      todo := todo - {n};
    }
    return Ok(());
  }

  /** One iteration of `copy_dir`: the node `st` is copied to the new name `n` of `dst`. */
  method CopyEntry(st: Node, n: Name, dst: OpenNode, tally: Tally, at: Path, faults: Faults) returns (r: Result<()>)
    requires dst.node.Dir?
    modifies dst, tally
    ensures dst.node.Dir? && dst.node == old(dst.node).(children := dst.node.children)
    ensures forall k | k in dst.node.children.Keys - {n} ::
      k in old(dst.node.children) && dst.node.children[k] == old(dst.node.children)[k]
    ensures old(dst.node.children).Keys <= dst.node.children.Keys
    ensures r.Ok? ==> n !in old(dst.node.children) && n in dst.node.children
    ensures r.Ok? ==> Essence(dst.node.children[n]) == Essence(st)
    ensures r.Ok? ==> tally.bytes == old(tally.bytes) + TotalBytes(st)
    ensures r.Err? ==>
      || Caused(faults, st, at, r.error)
      || (r.error == AlreadyExists && n in old(dst.node.children))
      || (r.error == PermissionDenied && !OwnerMayPopulate(old(dst.node).mode))
    decreases st, 2
  {
    hide FillCaused;
    if faults(Stat, at).Some? {
      MakingFails(faults, st, at, Stat);
      return Err(faults(Stat, at).value);
    }
    if st.Link? && faults(ReadLink, at).Some? {
      MakingFails(faults, st, at, ReadLink);
      return Err(faults(ReadLink, at).value);
    }
    // What mkdirat, openat(O_CREAT|O_EXCL), symlinkat and mknodat share.
    if n in dst.node.children {
      return Err(AlreadyExists);
    }
    if !OwnerMayPopulate(dst.node.mode) {
      return Err(PermissionDenied);
    }
    if faults(Create, at).Some? {
      MakingFails(faults, st, at, Create);
      return Err(faults(Create, at).value);
    }
    var fd: OpenNode;
    match st {
      case Dir(_, _, _, _) =>
        fd := new OpenNode(Dir(ME, PRIVATE_DIR, map[], map[]));
        r := FillDir(st, fd, tally, at, faults);
      case File(_, _, _, _) =>
        fd := new OpenNode(File(ME, PRIVATE_FILE, map[], []));
        r := FillFile(st, fd, tally, at, faults);
      case Link(_, target) =>
        fd := new OpenNode(Link(ME, target));
        if faults(Chown, at).Some? {
          FillingFails(faults, st, at, Chown);
          r := Err(faults(Chown, at).value);
        } else {
          fd.node := AfterChown(fd.node, st.owner);
          r := Ok(());
        }
      case Special(_, _, format, rdev) =>
        var masked: Mode := *;
        fd := new OpenNode(Special(ME, masked, format, rdev));
        r := SetOwnerMode(fd, st, at, faults);
    }
    // The entry is the very node behind the descriptor, finished or not.
    dst.node := dst.node.(children := dst.node.children[n := fd.node]);
  }

  /** The directory case of `copy_dir`: contents first, then owner, mode and attributes. */
  method FillDir(st: Node, fd: OpenNode, tally: Tally, at: Path, faults: Faults) returns (r: Result<()>)
    requires st.Dir? && fd.node == Dir(ME, PRIVATE_DIR, map[], map[])
    modifies fd, tally
    ensures r.Ok? ==> Essence(fd.node) == Essence(st)
    ensures r.Ok? ==> tally.bytes == old(tally.bytes) + TotalBytes(st)
    ensures r.Err? ==> Caused(faults, st, at, r.error)
    decreases st, 1
  {
    hide FillCaused;
    if faults(Open, at).Some? {
      MakingFails(faults, st, at, Open);
      return Err(faults(Open, at).value);
    }
    var inner := CopyDir(st, fd, tally, at, faults);
    if inner.Err? {
      return inner;
    }
    ghost var filled := fd.node;
    var owned := SetOwnerMode(fd, st, at, faults);
    if owned.Err? {
      return owned;
    }
    r := CopyXattrs(st, fd, at, faults);
    if r.Ok? {
      assert map[] + st.xattrs == st.xattrs;
      EssenceOfDir(fd.node, st);
    }
  }

  lemma EssenceOfOneDir(d: Node)
    requires d.Dir?
    ensures Essence(d) ==
      Dir(d.owner, d.mode, OverlayPart(d.xattrs), map k | k in d.children :: Essence(d.children[k]))
  {
  }

  lemma EssenceOfDir(a: Node, b: Node)
    requires a.Dir? && b.Dir? && a.owner == b.owner && a.mode == b.mode
    requires OverlayPart(a.xattrs) == OverlayPart(b.xattrs)
    requires a.children.Keys == b.children.Keys
    requires forall n | n in a.children :: Essence(a.children[n]) == Essence(b.children[n])
    ensures Essence(a) == Essence(b)
  {
    hide OverlayPart, Essence;
    EssenceOfOneDir(a);
    EssenceOfOneDir(b);
    var ca := map n | n in a.children :: Essence(a.children[n]);
    var cb := map n | n in b.children :: Essence(b.children[n]);
    assert ca == cb;
  }

  lemma ContentsFail(faults: Faults, st: Node, at: Path, e: Errno)
    requires st.File? && faults(Reflink, at).Some? && ContentsCause(faults, at, st.data, e)
    ensures FillCaused(faults, st, at, e)
  {
    hide FillCaused;
    if faults(CopyRange, at) == Some(e) && (e == Unsupported ==> st.data != []) {
      FillingFails(faults, st, at, CopyRange);
    } else if faults(Read, at) == Some(e) {
      FillingFails(faults, st, at, Read);
    } else {
      FillingFails(faults, st, at, Write);
    }
  }

  /** The regular-file case of `copy_dir`. */
  method FillFile(st: Node, fd: OpenNode, tally: Tally, at: Path, faults: Faults) returns (r: Result<()>)
    requires st.File? && fd.node == File(ME, PRIVATE_FILE, map[], [])
    modifies fd, tally
    ensures r.Ok? ==> Essence(fd.node) == Essence(st)
    ensures r.Ok? ==> tally.bytes == old(tally.bytes) + TotalBytes(st)
    ensures r.Err? ==> Caused(faults, st, at, r.error)
  {
    hide FillCaused;
    if faults(Open, at).Some? {
      MakingFails(faults, st, at, Open);
      return Err(faults(Open, at).value);
    }
    var reader := new Reader(st.data);
    var copied := CopyContents(reader, fd, |st.data|, at, faults);
    if copied.Err? {
      ContentsFail(faults, st, at, copied.error);
      return Err(copied.error);
    }
    tally.bytes := tally.bytes + copied.value;
    var owned := SetOwnerMode(fd, st, at, faults);
    if owned.Err? {
      return owned;
    }
    r := CopyXattrs(st, fd, at, faults);
    assert map[] + st.xattrs == st.xattrs;
  }

  // ----- whole layers -----

  /** What a host path holds. */
  class Slot {
    var node: Option<Node>

    constructor (n: Option<Node>)
      ensures node == n
    {
      node := n;
    }
  }

  /** Nothing, or a directory that an attempt to copy `src` may have left behind. */
  ghost predicate Leftover(t: Option<Node>, src: Node) {
    t.Some? ==>
      && src.Dir? && t.value.Dir?
      && t.value.children.Keys <= src.children.Keys
      && (forall k | k in t.value.xattrs && IsOverlayName(k) :: k in src.xattrs && t.value.xattrs[k] == src.xattrs[k])
  }

  /** Why a copy into a path can fail with `e`: a call did, or what is there is in the way. */
  ghost predicate TreeCaused(faults: Faults, src: Node, before: Option<Node>, e: Errno) {
    || faults(Mkdir, []) == Some(e) || faults(OpenRoot, []) == Some(e)
    || FillCaused(faults, src, [], e)
    || (before.Some? && !before.value.Dir? && e == AlreadyExists)
    || (before.Some? && Obstructed(before.value, src, e))
  }

  /** `copy_tree`, into a path that may already hold a directory. */
  method CopyTree(src: Node, dst: Slot, faults: Faults) returns (r: Result<nat>)
    requires src.Dir?
    modifies dst
    ensures Leftover(old(dst.node), src) ==> Leftover(dst.node, src)
    ensures Leftover(old(dst.node), src) && r.Ok? ==>
      dst.node.Some? && Essence(dst.node.value) == Essence(src)
    ensures r.Ok? ==> r.value == TotalBytes(src)
    ensures r.Err? ==> TreeCaused(faults, src, old(dst.node), r.error)
  {
    hide FillCaused;
    if faults(Mkdir, []).Some? {
      return Err(faults(Mkdir, []).value);
    }
    if dst.node.None? {
      assert OwnerMayPopulate(PRIVATE_DIR);
      var umasked: Mode :| OwnerMayPopulate(umasked);
      dst.node := Some(Dir(ME, umasked, map[], map[]));
    } else if !dst.node.value.Dir? {
      return Err(AlreadyExists);
    }
    if faults(OpenRoot, []).Some? {
      return Err(faults(OpenRoot, []).value);
    }
    var fd := new OpenNode(dst.node.value);
    var tally := new Tally();
    var done := FillRoot(src, fd, tally, faults);
    dst.node := Some(fd.node);
    r := if done.Ok? then Ok(tally.bytes) else Err(done.error);
  }

  method FillRoot(src: Node, fd: OpenNode, tally: Tally, faults: Faults) returns (r: Result<()>)
    requires src.Dir? && fd.node.Dir?
    modifies fd, tally
    ensures Leftover(Some(old(fd.node)), src) ==> Leftover(Some(fd.node), src)
    ensures Leftover(Some(old(fd.node)), src) && r.Ok? ==> Essence(fd.node) == Essence(src)
    ensures r.Ok? ==> tally.bytes == old(tally.bytes) + TotalBytes(src)
    ensures r.Err? ==> FillCaused(faults, src, [], r.error) || Obstructed(old(fd.node), src, r.error)
  {
    hide FillCaused;
    r := CopyDir(src, fd, tally, [], faults);
    if r.Err? {
      return;
    }
    r := SetOwnerMode(fd, src, [], faults);
    if r.Err? {
      return;
    }
    r := CopyXattrs(src, fd, [], faults);
    if r.Ok? && Leftover(Some(old(fd.node)), src) {
      // Every name of the source was new, so the directory was empty.
      assert old(fd.node).children.Keys == {};
      assert OverlayPart(old(fd.node).xattrs + src.xattrs) == OverlayPart(src.xattrs);
      EssenceOfDir(fd.node, src);
    }
  }

  /** The error of a helper that is run on `rest`, whatever was left of the partial output. */
  ghost predicate HelperCaused(faults: Faults, src: Node, rest: Option<Node>, e: Errno) {
    faults(Helper, []) == Some(e) || TreeCaused(faults, src, rest, e)
  }

  /**
   Why a layer copy can fail with `e`: the direct copy failed with it, and not for lack of
   permission; or it was denied, and the helper's copy failed with it, into nothing if the
   partial output was `removed`.
   */
  ghost predicate LayerCaused(
    src: Node, before: Option<Node>, direct: Faults, helper: Faults, removed: bool, e: Errno)
  {
    || (e != PermissionDenied && TreeCaused(direct, src, before, e))
    || (TreeCaused(direct, src, before, PermissionDenied) &&
        exists rest: Option<Node> :: (removed ==> rest.None?) && HelperCaused(helper, src, rest, e))
  }

  /**
   `copy_layer`: a direct copy and, if that was denied, a second one inside a user
   namespace. Removing the partial output in between is best effort, so whatever
   `remove_dir_all` leaves must not survive in a successful copy. `helped` tells whether the
   helper was called.
   */
  method CopyLayer(src: Node, dst: Slot, direct: Faults, helper: Faults, removed: bool)
    returns (r: Result<nat>, helped: bool)
    requires src.Dir? && Leftover(dst.node, src)
    modifies dst
    ensures r.Ok? ==> dst.node.Some? && Essence(dst.node.value) == Essence(src) && r.value == TotalBytes(src)
    ensures helped ==> TreeCaused(direct, src, old(dst.node), PermissionDenied)
    ensures !helped && r.Err? ==> r.error != PermissionDenied && TreeCaused(direct, src, old(dst.node), r.error)
    ensures helped && r.Err? ==>
      exists rest: Option<Node> :: (removed ==> rest.None?) && HelperCaused(helper, src, rest, r.error)
    ensures r.Err? ==> LayerCaused(src, old(dst.node), direct, helper, removed, r.error)
    ensures Leftover(dst.node, src)
  {
    hide TreeCaused;
    helped := false;
    r := CopyTree(src, dst, direct);
    if r.Ok? || r.error != PermissionDenied {
      return;
    }
    helped := true;
    if removed {
      dst.node := None;
    } else if dst.node.Some? {
      var rest: Node :| rest.Dir? && rest.xattrs == dst.node.value.xattrs
                        && rest.children.Keys <= dst.node.value.children.Keys;
      dst.node := Some(rest);
    }
    ghost var rest := dst.node;
    if helper(Helper, []).Some? {
      r := Err(helper(Helper, []).value);
      assert HelperCaused(helper, src, rest, r.error);
      return;
    }
    r := CopyTree(src, dst, helper);
    assert r.Err? ==> HelperCaused(helper, src, rest, r.error);
  }

  /** Nothing fails a helper's copy into nothing if none of its calls fails. */
  lemma {:induction false} NoFaultNoCause(faults: Faults, src: Node, e: Errno)
    requires forall c: Call, p: Path :: faults(c, p).None?
    ensures !HelperCaused(faults, src, None, e)
  {
    NothingIsCaused(faults, src, [], e);
  }

  lemma {:induction false} NothingIsCaused(faults: Faults, st: Node, at: Path, e: Errno)
    requires forall c: Call, p: Path :: faults(c, p).None?
    ensures !Caused(faults, st, at, e) && !FillCaused(faults, st, at, e)
    decreases st
  {
    if st.Dir? {
      forall n | n in st.children
        ensures !Caused(faults, st.children[n], at + [n], e)
      {
        NothingIsCaused(faults, st.children[n], at + [n], e);
      }
    }
  }
}
