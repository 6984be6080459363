/** Paths as the strings that a diff reports, and their ordering. */
module PathStrings {
  import opened Trees

  /** `join_rel`: the root contributes nothing, every other component a separator. */
  function JoinRel(rel: string, name: string): string {
    if rel == "" then name else rel + "/" + name
  }

  /** The reported form of a path. */
  function Render(p: Path): (s: string)
    ensures s == "" <==> p == []
    decreases |p|
  {
    if p == [] then "" else JoinRel(Render(p[..|p| - 1]), p[|p| - 1])
  }

  lemma RenderJoins(p: Path, n: Name)
    ensures Render(p + [n]) == JoinRel(Render(p), n)
  {
    assert (p + [n])[..|p|] == p;
  }

  /** Where the last separator of a joined string is. */
  lemma LastSeparator(a: string, x: string)
    requires '/' !in x
    ensures (a + "/" + x)[|a|] == '/' && '/' in a + "/" + x
    ensures forall k | |a| < k < |a| + 1 + |x| :: (a + "/" + x)[k] != '/'
  {
    forall k | |a| < k < |a| + 1 + |x|
      ensures (a + "/" + x)[k] != '/'
    {
      assert (a + "/" + x)[k] == x[k - |a| - 1];
    }
  }

  /** A string has only one split at its last separator. */
  lemma LastSeparatorIsUnique(a: string, x: string, b: string, y: string)
    requires '/' !in x && '/' !in y
    requires a + "/" + x == b + "/" + y
    ensures a == b && x == y
  {
    LastSeparator(a, x);
    LastSeparator(b, y);
    var s := a + "/" + x;
    assert |a| == |b|;
    assert a == s[..|a|] && b == s[..|b|];
    assert x == s[|a| + 1..] && y == s[|b| + 1..];
  }

  /** No two paths are reported under the same string. */
  lemma {:induction false} RenderIsInjective(p: Path, q: Path)
    requires Render(p) == Render(q)
    ensures p == q
    decreases |p|
  {
    if p != [] {
      var a, x := Render(p[..|p| - 1]), p[|p| - 1];
      var b, y := Render(q[..|q| - 1]), q[|q| - 1];
      LastSeparator(a, x);
      LastSeparator(b, y);
      if a != "" && b != "" {
        LastSeparatorIsUnique(a, x, b, y);
      }
      RenderIsInjective(p[..|p| - 1], q[..|q| - 1]);
      assert p == p[..|p| - 1] + [x] && q == q[..|q| - 1] + [y];
    }
  }

  // ----- byte order on strings; on UTF-8 it is code-point order -----

  predicate Precedes(a: string, b: string) {
    b != [] && (a == [] || a[0] < b[0] || (a[0] == b[0] && Precedes(a[1..], b[1..])))
  }

  /** The two strings agree up to `k`, where one ends or has the smaller character. */
  predicate DiffersFrom(a: string, b: string, k: nat) {
    && k <= |a| && k < |b| && a[..k] == b[..k]
    && (k == |a| || a[k] < b[k])
  }

  /** The order is lexicographic, by character, and a string comes before its extensions. */
  lemma {:induction false} PrecedesIsLexicographic(a: string, b: string)
    ensures Precedes(a, b) <==> exists k: nat :: DiffersFrom(a, b, k)
  {
    if a == [] || b == [] || a[0] != b[0] {
      assert forall k | 0 < k <= |a| && k <= |b| :: a[..k][0] == a[0] && b[..k][0] == b[0];
      assert b != [] ==> a[..0] == b[..0];
      assert Precedes(a, b) ==> DiffersFrom(a, b, 0);
    } else {
      PrecedesIsLexicographic(a[1..], b[1..]);
      if Precedes(a[1..], b[1..]) {
        var k: nat :| DiffersFrom(a[1..], b[1..], k);
        assert a[..k + 1] == [a[0]] + a[1..][..k] && b[..k + 1] == [b[0]] + b[1..][..k];
        assert DiffersFrom(a, b, k + 1);
      }
      if k: nat :| DiffersFrom(a, b, k) {
        assert k > 0;
        assert a[1..][..k - 1] == a[..k][1..] && b[1..][..k - 1] == b[..k][1..];
        assert DiffersFrom(a[1..], b[1..], k - 1);
      }
    }
  }

  lemma {:induction false} PrecedesIsTotal(a: string, b: string)
    ensures Precedes(a, b) || Precedes(b, a) || a == b
  {
    if a != [] && b != [] && a[0] == b[0] {
      PrecedesIsTotal(a[1..], b[1..]);
      assert a == [a[0]] + a[1..] && b == [b[0]] + b[1..];
    }
  }

  lemma {:induction false} PrecedesIsTransitive(a: string, b: string, c: string)
    requires Precedes(a, b) && Precedes(b, c)
    ensures Precedes(a, c)
  {
    if a != [] && a[0] == b[0] && b[0] == c[0] {
      PrecedesIsTransitive(a[1..], b[1..], c[1..]);
    }
  }
}
