/**
 File trees as the layer code observes them: names, paths, and the four kinds of node
 that the diff walker and the layer copier tell apart.
 */
module Trees {
  import opened Options

  /** A directory entry's name: never empty and never containing a separator. */
  type Name = s: string | s != "" && '/' !in s witness "x"

  /** A position below some root, outermost component first. */
  type Path = seq<Name>

  type byte = x: int | 0 <= x < 256 witness 0
  type Bytes = seq<byte>

  datatype Owner = Owner(uid: nat, gid: nat)

  /** The twelve bits of `st_mode & 0o7777`; `perm` is the nine-bit rwx triple. */
  datatype Mode = Mode(setuid: bool, setgid: bool, sticky: bool, perm: nat)

  datatype SpecialFormat = CharDevice | BlockDevice | Fifo | Socket

  /** Extended attributes, by name. */
  type Xattrs = map<string, string>

  datatype Node =
    | File(owner: Owner, mode: Mode, xattrs: Xattrs, data: Bytes)
    | Link(owner: Owner, target: string)
    | Special(owner: Owner, mode: Mode, format: SpecialFormat, rdev: nat)
    | Dir(owner: Owner, mode: Mode, xattrs: Xattrs, children: map<Name, Node>)

  /** The entry `n` of the directory `t`, if `t` is a directory that has one. */
  function Child(t: Option<Node>, n: Name): Option<Node> {
    if t.Some? && t.value.Dir? && n in t.value.children then Some(t.value.children[n]) else None
  }

  /** The node at `p` below `t`, without following symlinks. */
  function Find(t: Option<Node>, p: Path): Option<Node>
    decreases |p|
  {
    if p == [] then t else Find(Child(t, p[0]), p[1..])
  }

  lemma {:induction false} FindNothing(p: Path)
    ensures Find(None, p) == None
  {
    if p != [] {
      FindNothing(p[1..]);
    }
  }

  /** A node without its children: what one `stat` plus one read or readlink shows. */
  function Shallow(n: Node): Node {
    if n.Dir? then n.(children := map[]) else n
  }

  /** A tree is determined by what each of its paths shows. */
  lemma {:induction false} TreesAreExtensional(a: Node, b: Node)
    requires forall p: Path :: Find(Some(a), p).Some? == Find(Some(b), p).Some?
    requires forall p: Path ::
      Find(Some(a), p).Some? && Find(Some(b), p).Some? ==>
      Shallow(Find(Some(a), p).value) == Shallow(Find(Some(b), p).value)
    ensures a == b
    decreases a
  {
    assert Find(Some(a), []) == Some(a) && Find(Some(b), []) == Some(b);
    assert Shallow(a) == Shallow(b);
    if a.Dir? {
      forall n: Name
        ensures (n in a.children) == (n in b.children)
        ensures n in a.children ==> a.children[n] == b.children[n]
      {
        StepInto(Some(a), n, []);
        StepInto(Some(b), n, []);
        if n in a.children {
          forall p: Path
            ensures Find(Some(a.children[n]), p) == Find(Some(a), [n] + p)
            ensures Find(Some(b.children[n]), p) == Find(Some(b), [n] + p)
          {
            StepInto(Some(a), n, p);
            StepInto(Some(b), n, p);
          }
          TreesAreExtensional(a.children[n], b.children[n]);
        }
      }
      assert a.children == b.children;
    }
  }

  lemma StepInto(t: Option<Node>, n: Name, p: Path)
    ensures Find(t, [n] + p) == Find(Child(t, n), p)
  {
    assert ([n] + p)[1..] == p;
  }
}
