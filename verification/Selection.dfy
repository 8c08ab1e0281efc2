/** Selecting elements of a sequence for their weight. */
module Selection {
  import opened Sorting

  /** The weight of the first n elements. */
  function SumTo<T(!new)>(s: seq<T>, n: nat, weight: T -> nat): nat
    requires n <= |s|
  {
    if n == 0 then 0 else SumTo(s, n - 1, weight) + weight(s[n - 1])
  }

  function Sum<T(!new)>(s: seq<T>, weight: T -> nat): nat {
    SumTo(s, |s|, weight)
  }

  /** w lists, in order, some of the candidates such that none left out comes before any of
      them. */
  ghost predicate Top<T(!new)>(w: seq<T>, candidates: seq<T>, less: (T, T) -> bool) {
    && Sorted(w, less)
    && multiset(w) <= multiset(candidates)
    && forall x, y :: multiset(candidates)[x] > multiset(w)[x] && y in w ==> !less(x, y)
  }

  function RemoveAt<T(!new)>(s: seq<T>, i: nat): (r: seq<T>)
    requires i < |s|
    ensures |r| == |s| - 1
  {
    s[..i] + s[i + 1..]
  }

  lemma {:induction false} SamePrefix<T(!new)>(s: seq<T>, t: seq<T>, n: nat, weight: T -> nat)
    requires n <= |s| && n <= |t| && forall i :: 0 <= i < n ==> s[i] == t[i]
    ensures SumTo(s, n, weight) == SumTo(t, n, weight)
  {
    if n > 0 {
      SamePrefix(s, t, n - 1, weight);
    }
  }

  lemma SumAppend<T(!new)>(s: seq<T>, x: T, weight: T -> nat)
    ensures Sum(s + [x], weight) == Sum(s, weight) + weight(x)
  {
    SamePrefix(s, s + [x], |s|, weight);
  }

  /** Taking one element away takes away one occurrence ... */
  lemma RemoveOne<T(!new)>(s: seq<T>, i: nat)
    requires i < |s|
    ensures multiset(RemoveAt(s, i)) == multiset(s) - multiset{s[i]}
  {
    assert s == (s[..i] + [s[i]]) + s[i + 1..];
  }

  /** ... and its weight. */
  lemma RemoveWeight<T(!new)>(s: seq<T>, i: nat, weight: T -> nat)
    requires i < |s|
    ensures Sum(s, weight) == Sum(RemoveAt(s, i), weight) + weight(s[i])
  {
    SamePrefix(s, RemoveAt(s, i), i, weight);
    ShiftedSum(s, RemoveAt(s, i), i, |s| - 1, weight);
  }

  lemma {:induction false} ShiftedSum<T(!new)>(s: seq<T>, r: seq<T>, i: nat, n: nat, weight: T -> nat)
    requires i <= n < |s| && n <= |r|
    requires SumTo(r, i, weight) == SumTo(s, i, weight)
    requires forall j :: i <= j < n ==> r[j] == s[j + 1]
    ensures SumTo(s, n + 1, weight) == SumTo(r, n, weight) + weight(s[i])
  {
    if n > i {
      ShiftedSum(s, r, i, n - 1, weight);
    }
  }

  /** A selection weighs no more than what it is selected from. */
  lemma {:induction false} SumMonotone<T(!new)>(sub: seq<T>, s: seq<T>, weight: T -> nat)
    requires multiset(sub) <= multiset(s)
    ensures Sum(sub, weight) <= Sum(s, weight)
    decreases |sub|
  {
    if sub != [] {
      var x := sub[0];
      assert x in multiset(sub);
      assert x in s;
      var i :| 0 <= i < |s| && s[i] == x;
      RemoveOne(sub, 0);
      RemoveOne(s, i);
      RemoveWeight(sub, 0, weight);
      RemoveWeight(s, i, weight);
      SumMonotone(RemoveAt(sub, 0), RemoveAt(s, i), weight);
    }
  }

  lemma NoneBehind<T(!new)>(w: seq<T>, k: nat, x: T, less: (T, T) -> bool)
    requires Sorted(w, less) && StrictWeakOrder(less) && k < |w| && less(x, w[k])
    ensures multiset(w)[x] == multiset(w[..k])[x]
  {
    assert w == w[..k] + w[k..];
    forall j | 0 <= j < |w[k..]|
      ensures w[k..][j] != x
    {
      if j > 0 {
        assert !less(w[k + j], w[k]);
      }
    }
    assert x !in w[k..];
  }

  /** If every element of sub comes before w[k], sub has at most k elements. */
  lemma AtMostBefore<T(!new)>(w: seq<T>, candidates: seq<T>, sub: seq<T>, k: nat, less: (T, T) -> bool)
    requires StrictWeakOrder(less) && Top(w, candidates, less) && multiset(sub) <= multiset(candidates)
    requires k < |w| && forall j :: 0 <= j < |sub| ==> less(sub[j], w[k])
    ensures |sub| <= k
  {
    forall x
      ensures multiset(sub)[x] <= multiset(w[..k])[x]
    {
      if x in sub {
        assert multiset(sub)[x] <= multiset(candidates)[x];
        assert !(multiset(candidates)[x] > multiset(w)[x]);
        NoneBehind(w, k, x, less);
      }
    }
    MultisetCardinality(multiset(sub), multiset(w[..k]));
  }

  lemma MultisetCardinality<T(!new)>(a: multiset<T>, b: multiset<T>)
    requires a <= b
    ensures |a| <= |b|
  {
    assert b == a + (b - a);
  }

  /** Among k + 1 candidates there is one that does not come before w[k]. */
  lemma LateOne<T(!new)>(w: seq<T>, candidates: seq<T>, sub: seq<T>, less: (T, T) -> bool) returns (i: nat)
    requires StrictWeakOrder(less) && Top(w, candidates, less)
    requires multiset(sub) <= multiset(candidates) && 0 < |sub| <= |w|
    ensures i < |sub| && !less(sub[i], w[|sub| - 1])
  {
    var k := |sub| - 1;
    if forall j :: 0 <= j < |sub| ==> less(sub[j], w[k]) {
      AtMostBefore(w, candidates, sub, k, less);
      assert false;
    } else {
      i :| 0 <= i < |sub| && !less(sub[i], w[k]);
    }
  }

  /** Coming later never means weighing more. */
  ghost predicate Lighter<T(!new)>(less: (T, T) -> bool, weight: T -> nat) {
    forall x, y :: !less(x, y) ==> weight(x) <= weight(y)
  }

  /** The k first candidates weigh at least as much as any k candidates. */
  lemma {:induction false} TopPrefixDominates<T(!new)>(w: seq<T>, candidates: seq<T>, sub: seq<T>,
                                                       less: (T, T) -> bool, weight: T -> nat)
    requires StrictWeakOrder(less) && Top(w, candidates, less) && Lighter(less, weight)
    requires multiset(sub) <= multiset(candidates) && |sub| <= |w|
    ensures Sum(sub, weight) <= SumTo(w, |sub|, weight)
    decreases |sub|
  {
    if sub != [] {
      var k := |sub| - 1;
      var i := LateOne(w, candidates, sub, less);
      var rest := RemoveAt(sub, i);
      assert multiset(rest) <= multiset(sub) by {
        RemoveOne(sub, i);
      }
      TopPrefixDominates(w, candidates, rest, less, weight);
      RemoveWeight(sub, i, weight);
    }
  }
}
