/** Sorting diff entries by path, as the library sort used by `diff_upper` leaves them. */
module Sorting {
  import opened PathStrings
  import opened Diff

  datatype DiffEntry = DiffEntry(path: string, change: Change)

  ghost predicate Ascending(es: seq<DiffEntry>) {
    forall i, j | 0 <= i < j < |es| :: Precedes(es[i].path, es[j].path)
  }

  ghost predicate DistinctPaths(es: seq<DiffEntry>) {
    forall i, j | 0 <= i < j < |es| :: es[i].path != es[j].path
  }

  function Insert(e: DiffEntry, es: seq<DiffEntry>): seq<DiffEntry> {
    if es == [] || Precedes(e.path, es[0].path) then [e] + es else [es[0]] + Insert(e, es[1..])
  }

  function SortByPath(es: seq<DiffEntry>): seq<DiffEntry> {
    if es == [] then [] else Insert(es[0], SortByPath(es[1..]))
  }

  lemma {:induction false} InsertKeepsEntries(e: DiffEntry, es: seq<DiffEntry>)
    ensures multiset(Insert(e, es)) == multiset{e} + multiset(es)
  {
    if es != [] && !Precedes(e.path, es[0].path) {
      InsertKeepsEntries(e, es[1..]);
      assert es == [es[0]] + es[1..];
    }
  }

  lemma {:induction false} InsertKeepsOrder(e: DiffEntry, es: seq<DiffEntry>)
    requires Ascending(es)
    requires forall x | x in es :: x.path != e.path
    ensures Ascending(Insert(e, es))
  {
    if es != [] {
      PrecedesIsTotal(e.path, es[0].path);
      if Precedes(e.path, es[0].path) {
        forall j | 0 < j < |es|
          ensures Precedes(e.path, es[j].path)
        {
          PrecedesIsTransitive(e.path, es[0].path, es[j].path);
        }
      } else {
        assert es[0] in es;
        InsertKeepsOrder(e, es[1..]);
        InsertKeepsEntries(e, es[1..]);
        forall x | x in Insert(e, es[1..])
          ensures Precedes(es[0].path, x.path)
        {
          assert x in multiset(Insert(e, es[1..]));
        }
      }
    }
  }

  lemma {:induction false} SortKeepsEntries(es: seq<DiffEntry>)
    ensures multiset(SortByPath(es)) == multiset(es)
    ensures forall e :: e in SortByPath(es) <==> e in es
  {
    if es != [] {
      SortKeepsEntries(es[1..]);
      InsertKeepsEntries(es[0], SortByPath(es[1..]));
      assert es == [es[0]] + es[1..];
    }
    assert forall e :: e in es <==> e in multiset(es);
    assert forall e :: e in SortByPath(es) <==> e in multiset(SortByPath(es));
  }

  /** Sorting keeps every entry, and distinct paths come out strictly ascending. */
  lemma {:induction false} SortIsAscending(es: seq<DiffEntry>)
    requires DistinctPaths(es)
    ensures forall e :: e in SortByPath(es) <==> e in es
    ensures Ascending(SortByPath(es))
  {
    SortKeepsEntries(es);
    if es != [] {
      SortIsAscending(es[1..]);
      InsertKeepsOrder(es[0], SortByPath(es[1..]));
    }
  }
}
