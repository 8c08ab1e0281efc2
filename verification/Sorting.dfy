/** Go's sort package as the model uses it: sort.Slice promises a sorted permutation and
    nothing about ties, sort.SliceStable keeps ties in their order. Callers rely on these
    contracts only. */
module Sorting {

  ghost predicate StrictWeakOrder<T(!new)>(less: (T, T) -> bool) {
    && (forall x, y :: less(x, y) ==> !less(y, x))
    && (forall x, y, z :: Separates(x, y, z, less))
  }

  /** Whatever lies between two ordered elements is ordered against one of them. */
  predicate Separates<T(!new)>(x: T, y: T, z: T, less: (T, T) -> bool) {
    less(x, z) ==> less(x, y) || less(y, z)
  }

  predicate Tied<T(!new)>(x: T, y: T, less: (T, T) -> bool) {
    !less(x, y) && !less(y, x)
  }

  ghost predicate Sorted<T(!new)>(s: seq<T>, less: (T, T) -> bool) {
    forall i, j :: 0 <= i < j < |s| ==> !less(s[j], s[i])
  }

  function Filter<T(!new)>(s: seq<T>, p: T -> bool): (r: seq<T>)
    ensures forall x :: x in r <==> x in s && p(x)
  {
    if s == [] then [] else
      var init, last := s[..|s| - 1], s[|s| - 1];
      assert forall x :: x in s <==> x in init || x == last;
      if p(last) then Filter(init, p) + [last] else Filter(init, p)
  }

  /** The elements of s that tie with x, in their order in s. */
  function Peers<T(!new)>(s: seq<T>, x: T, less: (T, T) -> bool): (r: seq<T>)
    ensures forall y :: y in r <==> y in s && Tied(x, y, less)
  {
    if s == [] then [] else
      var init, last := s[..|s| - 1], s[|s| - 1];
      assert forall y :: y in s <==> y in init || y == last;
      if Tied(x, last, less) then Peers(init, x, less) + [last] else Peers(init, x, less)
  }

  /** r is s sorted, and every group of tied elements keeps its order. */
  ghost predicate StableSortOf<T(!new)>(r: seq<T>, s: seq<T>, less: (T, T) -> bool) {
    && Sorted(r, less)
    && multiset(r) == multiset(s)
    && forall x :: Peers(r, x, less) == Peers(s, x, less)
  }

  /** x is the first of the least elements of s. */
  ghost predicate EarliestLeast<T(!new)>(s: seq<T>, x: T, less: (T, T) -> bool) {
    exists i :: EarliestLeastAt(s, x, less, i)
  }

  ghost predicate EarliestLeastAt<T(!new)>(s: seq<T>, x: T, less: (T, T) -> bool, i: int) {
    && 0 <= i < |s| && s[i] == x
    && (forall j :: 0 <= j < i ==> less(x, s[j]))
    && (forall j :: i <= j < |s| ==> !less(s[j], x))
  }

  /** Puts x behind every element that is not greater. */
  function Insert<T(!new)>(s: seq<T>, x: T, less: (T, T) -> bool): (r: seq<T>)
    ensures multiset(r) == multiset(s) + multiset{x}
  {
    if s == [] || !less(x, s[|s| - 1]) then s + [x] else
      assert s == s[..|s| - 1] + [s[|s| - 1]];
      Insert(s[..|s| - 1], x, less) + [s[|s| - 1]]
  }

  lemma SameMembers<T(!new)>(r: seq<T>, s: seq<T>)
    requires multiset(r) == multiset(s)
    ensures |r| == |s|
    ensures forall x :: x in r <==> x in s
  {
    assert |multiset(r)| == |multiset(s)|;
    assert forall x :: x in r <==> x in multiset(r);
    assert forall x :: x in s <==> x in multiset(s);
  }

  ghost predicate Distinct<T(!new)>(s: seq<T>) {
    forall i, j :: 0 <= i < j < |s| ==> s[i] != s[j]
  }

  /** A selection from distinct elements is distinct. */
  lemma DistinctSelection<T(!new)>(r: seq<T>, s: seq<T>)
    requires multiset(r) <= multiset(s) && Distinct(s)
    ensures Distinct(r)
  {
    forall i, j | 0 <= i < j < |r|
      ensures r[i] != r[j]
    {
      assert r == r[..j] + [r[j]] + r[j + 1..];
      assert r[i] in r[..j];
      DistinctCount(s, r[i]);
      assert multiset(r)[r[i]] <= multiset(s)[r[i]];
    }
  }

  lemma {:induction false} DistinctCount<T(!new)>(s: seq<T>, x: T)
    requires Distinct(s)
    ensures multiset(s)[x] <= 1
  {
    if s != [] {
      var init := s[..|s| - 1];
      assert s == init + [s[|s| - 1]];
      DistinctCount(init, x);
      if x == s[|s| - 1] {
        assert x !in init;
      }
    }
  }

  lemma {:induction false} InsertSorted<T(!new)>(s: seq<T>, x: T, less: (T, T) -> bool)
    requires StrictWeakOrder(less) && Sorted(s, less)
    ensures Sorted(Insert(s, x, less), less)
  {
    if s == [] || !less(x, s[|s| - 1]) {
      forall i | 0 <= i < |s|
        ensures !less(x, s[i])
      {
        assert !less(s[|s| - 1], s[i]);
        assert Separates(x, s[|s| - 1], s[i], less);
      }
    } else {
      var init, last := s[..|s| - 1], s[|s| - 1];
      InsertSorted(init, x, less);
      var r := Insert(init, x, less);
      assert multiset(r) == multiset(init + [x]);
      SameMembers(r, init + [x]);
      forall i | 0 <= i < |r|
        ensures !less(last, r[i])
      {
        assert r[i] in init + [x];
      }
    }
  }

  lemma FilterAppend<T(!new)>(s: seq<T>, x: T, p: T -> bool)
    ensures Filter(s + [x], p) == if p(x) then Filter(s, p) + [x] else Filter(s, p)
  {
    assert (s + [x])[..|s|] == s;
  }

  lemma PeersAppend<T(!new)>(s: seq<T>, x: T, y: T, less: (T, T) -> bool)
    ensures Peers(s + [x], y, less) ==
            if Tied(y, x, less) then Peers(s, y, less) + [x] else Peers(s, y, less)
  {
    assert (s + [x])[..|s|] == s;
  }

  lemma {:induction false} InsertKeepsPeers<T(!new)>(s: seq<T>, x: T, y: T, less: (T, T) -> bool)
    requires StrictWeakOrder(less)
    ensures Peers(Insert(s, x, less), y, less) == Peers(s + [x], y, less)
  {
    if s != [] && less(x, s[|s| - 1]) {
      var init, last := s[..|s| - 1], s[|s| - 1];
      InsertKeepsPeers(init, x, y, less);
      PeersAppend(Insert(init, x, less), last, y, less);
      PeersAppend(init, x, y, less);
      PeersAppend(s, x, y, less);
      assert Separates(x, y, last, less);
    }
  }

  lemma InsertStable<T(!new)>(r: seq<T>, s: seq<T>, x: T, less: (T, T) -> bool)
    requires StrictWeakOrder(less) && StableSortOf(r, s, less)
    ensures StableSortOf(Insert(r, x, less), s + [x], less)
  {
    InsertSorted(r, x, less);
    forall y
      ensures Peers(Insert(r, x, less), y, less) == Peers(s + [x], y, less)
    {
      InsertKeepsPeers(r, x, y, less);
      PeersAppend(r, x, y, less);
      PeersAppend(s, x, y, less);
    }
  }

  /** sort.SliceStable */
  method SortSliceStable<T(!new)>(s: seq<T>, less: (T, T) -> bool) returns (r: seq<T>)
    requires StrictWeakOrder(less)
    ensures StableSortOf(r, s, less)
  {
    r := [];
    for i := 0 to |s|
      invariant StableSortOf(r, s[..i], less)
    {
      assert s[..i + 1] == s[..i] + [s[i]];
      InsertStable(r, s[..i], s[i], less);
      r := Insert(r, s[i], less);
    }
    assert s[..|s|] == s;
  }

  /** sort.Slice */
  method SortSlice<T(!new)>(s: seq<T>, less: (T, T) -> bool) returns (r: seq<T>)
    requires StrictWeakOrder(less)
    ensures Sorted(r, less) && multiset(r) == multiset(s)
  {
    r := SortSliceStable(s, less);
  }

  /** The first element that ties with x is where x's group starts. */
  lemma {:induction false} FirstPeer<T(!new)>(s: seq<T>, x: T, less: (T, T) -> bool) returns (i: nat)
    requires Peers(s, x, less) != []
    ensures i < |s| && s[i] == Peers(s, x, less)[0] && Tied(x, s[i], less)
    ensures forall j :: 0 <= j < i ==> !Tied(x, s[j], less)
  {
    var init := s[..|s| - 1];
    if Peers(init, x, less) == [] {
      i := |s| - 1;
      forall j | 0 <= j < i
        ensures !Tied(x, s[j], less)
      {
        assert s[j] in init;
      }
    } else {
      i := FirstPeer(init, x, less);
    }
  }

  /** The head of a stable sort is the earliest least element. */
  lemma StableHead<T(!new)>(r: seq<T>, s: seq<T>, less: (T, T) -> bool)
    requires StrictWeakOrder(less) && StableSortOf(r, s, less) && s != []
    ensures r != [] && EarliestLeast(s, r[0], less)
  {
    SameMembers(r, s);
    assert r[0] in Peers(r, r[0], less);
    var i := FirstPeer(r, r[0], less);
    var k := FirstPeer(s, r[0], less);
    forall j | 0 <= j < |s|
      ensures !less(s[j], r[0])
    {
      assert s[j] in r;
    }
    assert EarliestLeastAt(s, r[0], less, k);
  }

  lemma HeadsTie<T(!new)>(r: seq<T>, s: seq<T>, less: (T, T) -> bool)
    requires StrictWeakOrder(less) && Sorted(r, less) && Sorted(s, less)
    requires multiset(r) == multiset(s) && r != []
    ensures s != [] && Tied(r[0], s[0], less)
  {
    SameMembers(r, s);
    assert r[0] in s && s[0] in r;
    var i :| 0 <= i < |s| && s[i] == r[0];
    var j :| 0 <= j < |r| && r[j] == s[0];
  }

  lemma TailMultiset<T(!new)>(r: seq<T>, s: seq<T>)
    requires multiset(r) == multiset(s) && r != [] && s != [] && r[0] == s[0]
    ensures multiset(r[1..]) == multiset(s[1..])
  {
    assert r == [r[0]] + r[1..] && s == [s[0]] + s[1..];
    assert multiset(r[1..]) == multiset(r) - multiset{r[0]};
    assert multiset(s[1..]) == multiset(s) - multiset{s[0]};
  }

  /** Without ties between different elements there is only one way to sort. */
  lemma {:induction false} SortUnique<T(!new)>(r: seq<T>, s: seq<T>, less: (T, T) -> bool)
    requires StrictWeakOrder(less) && Sorted(r, less) && Sorted(s, less)
    requires multiset(r) == multiset(s)
    requires forall x, y :: x in r && y in r && Tied(x, y, less) ==> x == y
    ensures r == s
  {
    SameMembers(r, s);
    if r != [] {
      HeadsTie(r, s, less);
      assert r[0] in r && s[0] in r;
      TailMultiset(r, s);
      SortUnique(r[1..], s[1..], less);
      assert r == [r[0]] + r[1..] && s == [s[0]] + s[1..];
    }
  }

  lemma {:induction false} FilterSorted<T(!new)>(s: seq<T>, p: T -> bool, less: (T, T) -> bool)
    requires Sorted(s, less)
    ensures Sorted(Filter(s, p), less)
  {
    if s != [] {
      var init, last := s[..|s| - 1], s[|s| - 1];
      FilterSorted(init, p, less);
      var f := Filter(init, p);
      forall i | 0 <= i < |f|
        ensures !less(last, f[i])
      {
        assert f[i] in init;
      }
    }
  }

  lemma {:induction false} FilterAll<T(!new)>(s: seq<T>, p: T -> bool)
    requires forall x :: x in s ==> p(x)
    ensures Filter(s, p) == s
  {
    if s != [] {
      var init, last := s[..|s| - 1], s[|s| - 1];
      assert forall x :: x in s <==> x in init || x == last;
      FilterAll(init, p);
      assert s == init + [last];
    }
  }

  /** Filtering twice is filtering once, if the second filter implies the first. */
  lemma {:induction false} FilterFilter<T(!new)>(s: seq<T>, p: T -> bool, q: T -> bool)
    requires forall x :: x in s && q(x) ==> p(x)
    ensures Filter(Filter(s, p), q) == Filter(s, q)
  {
    if s != [] {
      var init, last := s[..|s| - 1], s[|s| - 1];
      assert forall x :: x in init ==> x in s;
      FilterFilter(init, p, q);
      assert last in s;
      if p(last) {
        FilterAppend(Filter(init, p), last, q);
      }
    }
  }

  lemma {:induction false} FilterCount<T(!new)>(s: seq<T>, p: T -> bool, x: T)
    ensures multiset(Filter(s, p))[x] == if p(x) then multiset(s)[x] else 0
  {
    if s != [] {
      var init, last := s[..|s| - 1], s[|s| - 1];
      assert s == init + [last];
      FilterCount(init, p, x);
    }
  }

  /** x is the first of the least among the elements of s that pass p. */
  ghost predicate BestOf<T(!new)>(s: seq<T>, p: T -> bool, x: T, less: (T, T) -> bool) {
    exists i :: BestOfAt(s, p, x, less, i)
  }

  ghost predicate BestOfAt<T(!new)>(s: seq<T>, p: T -> bool, x: T, less: (T, T) -> bool, i: int) {
    && 0 <= i < |s| && s[i] == x && p(x)
    && (forall j :: 0 <= j < i && p(s[j]) ==> less(x, s[j]))
    && (forall j :: i <= j < |s| && p(s[j]) ==> !less(s[j], x))
  }

  lemma BestOfUnique<T(!new)>(s: seq<T>, p: T -> bool, x: T, y: T, less: (T, T) -> bool)
    requires BestOf(s, p, x, less) && BestOf(s, p, y, less)
    ensures x == y
  {
    var i :| BestOfAt(s, p, x, less, i);
    var j :| BestOfAt(s, p, y, less, j);
  }

  /** A best element stays best if the one that joins at the end is no better. */
  lemma BestOfExtended<T(!new)>(s: seq<T>, p: T -> bool, x: T, less: (T, T) -> bool)
    requires s != [] && BestOf(s[..|s| - 1], p, x, less)
    requires p(s[|s| - 1]) ==> !less(s[|s| - 1], x)
    ensures BestOf(s, p, x, less)
  {
    var i :| BestOfAt(s[..|s| - 1], p, x, less, i);
    assert BestOfAt(s, p, x, less, i);
  }

  /** Dropping elements that fail p does not change the best. */
  lemma {:induction false} BestOfDropped<T(!new)>(s: seq<T>, keep: T -> bool, p: T -> bool, x: T,
                                                  less: (T, T) -> bool)
    requires forall y :: y in s && p(y) ==> keep(y)
    requires BestOf(Filter(s, keep), p, x, less)
    ensures BestOf(s, p, x, less)
  {
    var init, last := s[..|s| - 1], s[|s| - 1];
    var f := Filter(init, keep);
    var k :| BestOfAt(Filter(s, keep), p, x, less, k);
    assert forall y :: y in init ==> y in s;
    assert last in s;
    if keep(last) && k == |f| {
      forall j | 0 <= j < |init| && p(s[j])
        ensures less(x, s[j])
      {
        assert s[j] in init;
        var m :| 0 <= m < |f| && f[m] == s[j];
        assert f[m] == (f + [last])[m];
      }
      assert BestOfAt(s, p, x, less, |init|);
    } else {
      assert forall j :: 0 <= j < |f| ==> f[j] == Filter(s, keep)[j];
      assert BestOfAt(f, p, x, less, k);
      BestOfDropped(init, keep, p, x, less);
      assert keep(last) ==> Filter(s, keep)[|f|] == last;
      BestOfExtended(s, p, x, less);
    }
  }

  /** Nor does the best itself go. */
  lemma {:induction false} BestOfKept<T(!new)>(s: seq<T>, keep: T -> bool, p: T -> bool, x: T, less: (T, T) -> bool)
    requires forall y :: y in s && p(y) ==> keep(y)
    requires BestOf(s, p, x, less)
    ensures BestOf(Filter(s, keep), p, x, less)
  {
    var init, last := s[..|s| - 1], s[|s| - 1];
    var f := Filter(init, keep);
    var i :| BestOfAt(s, p, x, less, i);
    assert forall y :: y in init ==> y in s;
    assert last in s;
    if i == |init| {
      forall j | 0 <= j < |f| && p(f[j])
        ensures less(x, f[j])
      {
        assert f[j] in init;
        var m :| 0 <= m < |init| && init[m] == f[j];
        assert s[m] == f[j];
      }
      assert BestOfAt(f + [last], p, x, less, |f|);
    } else {
      assert BestOfAt(init, p, x, less, i);
      BestOfKept(init, keep, p, x, less);
      if keep(last) {
        assert (f + [last])[..|f|] == f;
        BestOfExtended(f + [last], p, x, less);
      }
    }
  }

  /** Inserting an element that fails p does not show in what passes it. */
  lemma {:induction false} FilterInsert<T(!new)>(s: seq<T>, x: T, less: (T, T) -> bool, p: T -> bool)
    requires !p(x)
    ensures Filter(Insert(s, x, less), p) == Filter(s, p)
  {
    if s == [] || !less(x, s[|s| - 1]) {
      assert (s + [x])[..|s|] == s;
    } else {
      var init, last := s[..|s| - 1], s[|s| - 1];
      FilterInsert(init, x, less, p);
      var r := Insert(init, x, less);
      assert (r + [last])[..|r|] == r;
    }
  }

  lemma EarliestOfFilter<T(!new)>(s: seq<T>, p: T -> bool, x: T, less: (T, T) -> bool)
    requires EarliestLeast(Filter(s, p), x, less)
    ensures BestOf(s, p, x, less)
  {
    var f := Filter(s, p);
    var k :| EarliestLeastAt(f, x, less, k);
    assert forall j :: 0 <= j < |f| ==> f[j] in f;
    assert BestOfAt(f, p, x, less, k);
    BestOfDropped(s, p, p, x, less);
  }
}
