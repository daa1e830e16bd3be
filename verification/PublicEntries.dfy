/** The entries of a collection, and their order by path. */
module PublicEntries {
  import opened GoStrings
  import opened Permutations

  datatype PublicEntry = PublicEntry(path: string, size: nat, digest: string)

  function SumSizes(entries: seq<PublicEntry>): nat {
    if entries == [] then 0 else SumSizes(entries[..|entries| - 1]) + entries[|entries| - 1].size
  }

  predicate PathLeq(e: PublicEntry, f: PublicEntry) { !Less(f.path, e.path) }

  ghost predicate SortedByPath(entries: seq<PublicEntry>) { Ordered(entries, PathLeq) }

  ghost predicate StrictlySorted(entries: seq<PublicEntry>) {
    forall i, j | 0 <= i < j < |entries| :: Less(entries[i].path, entries[j].path)
  }

  ghost predicate PathsDistinguish(entries: seq<PublicEntry>) {
    forall e, f | e in entries && f in entries && e.path == f.path :: e == f
  }

  function InsertByPath(e: PublicEntry, sorted: seq<PublicEntry>): seq<PublicEntry> {
    if sorted == [] || PathLeq(sorted[|sorted| - 1], e) then sorted + [e]
    else InsertByPath(e, sorted[..|sorted| - 1]) + [sorted[|sorted| - 1]]
  }

  /** `sort.Slice` by path. */
  function SortByPath(entries: seq<PublicEntry>): seq<PublicEntry> {
    if entries == [] then []
    else InsertByPath(entries[|entries| - 1], SortByPath(entries[..|entries| - 1]))
  }

  lemma PathOrder(e: PublicEntry, f: PublicEntry)
    ensures PathLeq(e, f) || PathLeq(f, e)
    ensures PathLeq(e, f) && PathLeq(f, e) <==> e.path == f.path
    ensures Less(e.path, f.path) <==> PathLeq(e, f) && e.path != f.path
  {
    LessTotal(e.path, f.path);
    LessTotal(e.path, e.path);
  }

  lemma PathLeqTransitive(e: PublicEntry, f: PublicEntry, g: PublicEntry)
    requires PathLeq(e, f) && PathLeq(f, g)
    ensures PathLeq(e, g)
  {
    hide PathLeq;
    PathOrder(e, f);
    PathOrder(f, g);
    PathOrder(e, g);
    if e.path != f.path && f.path != g.path {
      LessTransitive(e.path, f.path, g.path);
    } else if e.path == f.path {
      SamePathLeq(e, f, g);
    } else {
      SamePathLeq(f, g, e);
    }
  }

  lemma SamePathLeq(e: PublicEntry, f: PublicEntry, g: PublicEntry)
    requires e.path == f.path
    ensures (PathLeq(e, g) <==> PathLeq(f, g)) && (PathLeq(g, e) <==> PathLeq(g, f))
  {
  }

  lemma SumAppend(entries: seq<PublicEntry>, e: PublicEntry)
    ensures SumSizes(entries + [e]) == SumSizes(entries) + e.size
  {
    assert (entries + [e])[..|entries|] == entries;
  }

  lemma {:induction false} InsertPermutes(e: PublicEntry, sorted: seq<PublicEntry>)
    ensures Permutation(InsertByPath(e, sorted), sorted + [e])
    ensures SumSizes(InsertByPath(e, sorted)) == SumSizes(sorted) + e.size
    decreases |sorted|
  {
    hide Permutation, PathLeq, SumSizes;
    SumAppend(sorted, e);
    if sorted == [] || PathLeq(sorted[|sorted| - 1], e) {
      Reflexive(sorted + [e]);
    } else {
      var init, last := sorted[..|sorted| - 1], sorted[|sorted| - 1];
      var rest := InsertByPath(e, init);
      InsertPermutes(e, init);
      assert sorted == init + [last];
      AppendBoth(rest, init + [e], last);
      SwapLast(init, e, last);
      Chain(rest + [last], init + [e] + [last], sorted + [e]);
      SumAppend(rest, last);
      SumAppend(init, last);
    }
  }

  lemma {:induction false} InsertSorted(e: PublicEntry, sorted: seq<PublicEntry>)
    requires SortedByPath(sorted)
    ensures SortedByPath(InsertByPath(e, sorted))
    decreases |sorted|
  {
    hide PathLeq, Permutation;
    if sorted == [] {
    } else if PathLeq(sorted[|sorted| - 1], e) {
      forall i | 0 <= i < |sorted|
        ensures PathLeq(sorted[i], e)
      {
        if i < |sorted| - 1 {
          PathLeqTransitive(sorted[i], sorted[|sorted| - 1], e);
        }
      }
    } else {
      var init, last := sorted[..|sorted| - 1], sorted[|sorted| - 1];
      InsertSorted(e, init);
      InsertPermutes(e, init);
      var rest := InsertByPath(e, init);
      SameElements(rest, init + [e]);
      PathOrder(e, last);
      forall i | 0 <= i < |rest|
        ensures PathLeq(rest[i], last)
      {
        assert rest[i] in init + [e];
      }
    }
  }

  lemma {:induction false} SortFacts(entries: seq<PublicEntry>)
    ensures SortedByPath(SortByPath(entries)) && Permutation(SortByPath(entries), entries)
    ensures SumSizes(SortByPath(entries)) == SumSizes(entries)
    decreases |entries|
  {
    hide SortedByPath, Permutation, InsertByPath;
    if entries == [] {
      Reflexive(entries);
      SortedEmpty();
    } else {
      var init, last := entries[..|entries| - 1], entries[|entries| - 1];
      SortFacts(init);
      InsertSorted(last, SortByPath(init));
      InsertPermutes(last, SortByPath(init));
      AppendBoth(SortByPath(init), init, last);
      assert entries == init + [last];
      Chain(SortByPath(entries), SortByPath(init) + [last], entries);
    }
  }

  lemma SortedEmpty()
    ensures SortedByPath([])
  {
  }

  lemma StrictlySortedOnce(entries: seq<PublicEntry>)
    requires SortedByPath(entries) && PathsDistinguish(entries)
    ensures StrictlySorted(entries) <==> Distinct(entries)
  {
    hide PathLeq;
    forall i, j | 0 <= i < j < |entries|
      ensures Less(entries[i].path, entries[j].path) <==> entries[i] != entries[j]
    {
      assert PathLeq(entries[i], entries[j]);
      PathOrder(entries[i], entries[j]);
    }
  }

  lemma OneOrder(a: seq<PublicEntry>, b: seq<PublicEntry>)
    requires SortedByPath(a) && SortedByPath(b) && Permutation(a, b) && PathsDistinguish(a)
    ensures a == b
  {
    hide PathLeq, Permutation;
    forall e, f | e in a && f in a && PathLeq(e, f) && PathLeq(f, e)
      ensures e == f
    {
      PathOrder(e, f);
    }
    SortedUnique(a, b, PathLeq);
  }
}
