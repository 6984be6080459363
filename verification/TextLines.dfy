/** Splitting text at separators: fields and lines, over bytes or characters. */
module TextLines {

  /** Index of the first separator, or the length. */
  function FirstAt<T(==)>(s: seq<T>, sep: T): (i: nat)
    ensures i <= |s| && (i < |s| ==> s[i] == sep)
    ensures forall k | 0 <= k < i :: s[k] != sep
  {
    if s == [] || s[0] == sep then 0 else 1 + FirstAt(s[1..], sep)
  }

  // ----- fields -----

  /** `str::split`: one field more than there are separators. */
  function Split<T(==)>(s: seq<T>, sep: T): (fs: seq<seq<T>>)
    ensures fs != []
    decreases |s|
  {
    var i := FirstAt(s, sep);
    if i == |s| then [s] else [s[..i]] + Split(s[i + 1..], sep)
  }

  function Joined<T>(fs: seq<seq<T>>, sep: T): seq<T>
    requires fs != []
  {
    if |fs| == 1 then fs[0] else fs[0] + [sep] + Joined(fs[1..], sep)
  }

  predicate Free<T(==)>(fs: seq<seq<T>>, sep: T) {
    forall i | 0 <= i < |fs| :: sep !in fs[i]
  }

  lemma FirstOfJoined<T>(l: seq<T>, sep: T, rest: seq<T>)
    requires sep !in l
    ensures FirstAt(l + [sep] + rest, sep) == |l|
    ensures (l + [sep] + rest)[..|l|] == l && (l + [sep] + rest)[|l| + 1..] == rest
  {
    var s := l + [sep] + rest;
    assert s[|l|] == sep;
    assert forall k | 0 <= k < |l| :: s[k] == l[k] && l[k] in l;
  }

  /** Fields free of the separator are read back as they were written. */
  lemma {:induction false} SplitOfJoined<T>(fs: seq<seq<T>>, sep: T)
    requires fs != [] && Free(fs, sep)
    ensures Split(Joined(fs, sep), sep) == fs
  {
    assert sep !in fs[0];
    if |fs| > 1 {
      FirstOfJoined(fs[0], sep, Joined(fs[1..], sep));
      SplitOfJoined(fs[1..], sep);
    }
  }

  // ----- lines -----

  predicate EndsIn<T(==)>(s: seq<T>, c: T) {
    s != [] && s[|s| - 1] == c
  }

  function StripEnd<T(==)>(s: seq<T>, c: T): seq<T> {
    if EndsIn(s, c) then s[..|s| - 1] else s
  }

  /** `str::lines`: terminated lines lose their newline and one carriage return before it. */
  function Lines<T(==)>(s: seq<T>, nl: T, cr: T): seq<seq<T>>
    decreases |s|
  {
    if s == [] then []
    else
      var i := FirstAt(s, nl);
      if i == |s| then [s] else [StripEnd(s[..i], cr)] + Lines(s[i + 1..], nl, cr)
  }

  /** A last line without its newline is kept as it is, carriage return and all. */
  lemma UnterminatedLine<T>(l: seq<T>, nl: T, cr: T)
    requires l != [] && nl !in l
    ensures Lines(l, nl, cr) == [l]
  {
    var i := FirstAt(l, nl);
    assert forall k | 0 <= k < |l| :: l[k] in l;
  }

  function Unlines<T>(ls: seq<seq<T>>, nl: T): seq<T> {
    if ls == [] then [] else Unlines(ls[..|ls| - 1], nl) + ls[|ls| - 1] + [nl]
  }

  lemma NoLines<T>(nl: T)
    ensures Unlines<T>([], nl) == []
  {
  }

  lemma UnlinesStep<T>(ls: seq<seq<T>>, nl: T, k: nat)
    requires k < |ls|
    ensures Unlines(ls[..k + 1], nl) == Unlines(ls[..k], nl) + ls[k] + [nl]
  {
    assert ls[..k + 1][..k] == ls[..k];
  }

  lemma {:induction false} LinesAreFree<T>(s: seq<T>, nl: T, cr: T)
    ensures Free(Lines(s, nl, cr), nl)
    decreases |s|
  {
    if s != [] {
      var i := FirstAt(s, nl);
      if i < |s| {
        LinesAreFree(s[i + 1..], nl, cr);
      }
    }
  }

  function Stripped<T(==)>(ls: seq<seq<T>>, cr: T): seq<seq<T>> {
    seq(|ls|, i requires 0 <= i < |ls| => StripEnd(ls[i], cr))
  }

  lemma {:induction false} UnlinesFromFront<T>(ls: seq<seq<T>>, nl: T)
    requires ls != []
    ensures Unlines(ls, nl) == ls[0] + [nl] + Unlines(ls[1..], nl)
  {
    if |ls| > 1 {
      var init := ls[..|ls| - 1];
      UnlinesFromFront(init, nl);
      assert ls[1..][..|ls| - 2] == init[1..];
      assert ls[1..][|ls| - 2] == ls[|ls| - 1];
    } else {
      assert ls[..0] == [] && ls[1..] == [];
    }
  }

  lemma LinesStep<T>(l: seq<T>, nl: T, rest: seq<T>, cr: T)
    requires nl !in l
    ensures Lines(l + [nl] + rest, nl, cr) == [StripEnd(l, cr)] + Lines(rest, nl, cr)
  {
    FirstOfJoined(l, nl, rest);
  }

  /** Reading written lines back gives them without one trailing carriage return each. */
  lemma {:induction false} LinesOfUnlines<T>(ls: seq<seq<T>>, nl: T, cr: T)
    requires Free(ls, nl)
    ensures Lines(Unlines(ls, nl), nl, cr) == Stripped(ls, cr)
  {
    hide EndsIn, StripEnd;
    if ls != [] {
      UnlinesFromFront(ls, nl);
      LinesStep(ls[0], nl, Unlines(ls[1..], nl), cr);
      LinesOfUnlines(ls[1..], nl, cr);
      assert Stripped(ls, cr) == [StripEnd(ls[0], cr)] + Stripped(ls[1..], cr);
    }
  }

  /** Written lines are read back exactly when none of them ends in a carriage return. */
  lemma LinesReadBack<T>(ls: seq<seq<T>>, nl: T, cr: T)
    requires Free(ls, nl)
    ensures Lines(Unlines(ls, nl), nl, cr) == ls <==> forall i | 0 <= i < |ls| :: !EndsIn(ls[i], cr)
  {
    LinesOfUnlines(ls, nl, cr);
    if i :| 0 <= i < |ls| && EndsIn(ls[i], cr) {
      assert |Stripped(ls, cr)[i]| == |ls[i]| - 1;
    } else {
      assert Stripped(ls, cr) == ls;
    }
  }
}
