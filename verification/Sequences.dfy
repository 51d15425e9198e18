/** Filters, sums and permutations of sequences. */
module Sequences {

  function Filter<T>(s: seq<T>, p: T -> bool): (r: seq<T>)
  {
    if s == [] then []
    else
      var r := Filter(s[..|s| - 1], p);
      if p(s[|s| - 1]) then r + [s[|s| - 1]] else r
  }

  function Sum<T>(s: seq<T>, f: T -> real): real
  {
    if s == [] then 0.0 else Sum(s[..|s| - 1], f) + f(s[|s| - 1])
  }

  function Map<T, U>(s: seq<T>, f: T -> U): (r: seq<U>)
    ensures |r| == |s|
    ensures forall i :: 0 <= i < |s| ==> r[i] == f(s[i])
  {
    seq(|s|, i requires 0 <= i < |s| => f(s[i]))
  }

  /** The sequence without its k-th entry. */
  function Without<T>(s: seq<T>, k: nat): (r: seq<T>)
    requires k < |s|
    ensures |r| == |s| - 1
  {
    s[..k] + s[k + 1..]
  }

  ghost predicate Permutation<T>(s: seq<T>, t: seq<T>)
  {
    multiset(s) == multiset(t)
  }

  lemma SplitLast<T>(s: seq<T>)
    requires s != []
    ensures s == s[..|s| - 1] + [s[|s| - 1]]
    ensures multiset(s) == multiset(s[..|s| - 1]) + multiset{s[|s| - 1]}
  {
    assert s == s[..|s| - 1] + [s[|s| - 1]];
  }

  lemma SplitAt<T>(s: seq<T>, k: nat)
    requires k < |s|
    ensures s == s[..k] + [s[k]] + s[k + 1..]
  {
  }

  lemma WithoutMultiset<T>(s: seq<T>, k: nat)
    requires k < |s|
    ensures multiset(s) == multiset(Without(s, k)) + multiset{s[k]}
  {
    SplitAt(s, k);
  }

  /** Dropping the same value from two permutations of each other leaves permutations. */
  lemma PermutationPeel<T>(s: seq<T>, t: seq<T>) returns (k: nat)
    requires Permutation(s, t) && t != []
    ensures k < |s| && s[k] == t[|t| - 1]
    ensures Permutation(Without(s, k), t[..|t| - 1])
  {
    SplitLast(t);
    var x := t[|t| - 1];
    assert x in multiset(s);
    assert x in s;
    k :| 0 <= k < |s| && s[k] == x;
    WithoutMultiset(s, k);
    assert multiset(Without(s, k)) == multiset(s) - multiset{x};
    assert multiset(t[..|t| - 1]) == multiset(t) - multiset{x};
  }

  lemma PermutationLength<T>(s: seq<T>, t: seq<T>)
    requires Permutation(s, t)
    ensures |s| == |t|
    ensures forall x :: x in s <==> x in t
  {
    assert |multiset(s)| == |s| && |multiset(t)| == |t|;
    forall x ensures x in s <==> x in t {
      assert x in s <==> x in multiset(s);
      assert x in t <==> x in multiset(t);
    }
  }

  lemma {:induction false} FilterCounts<T>(s: seq<T>, p: T -> bool, x: T)
    ensures multiset(Filter(s, p))[x] == if p(x) then multiset(s)[x] else 0
  {
    if s != [] {
      SplitLast(s);
      FilterCounts(s[..|s| - 1], p, x);
    }
  }

  lemma {:induction false} FilterMember<T>(s: seq<T>, p: T -> bool)
    ensures forall x :: x in Filter(s, p) <==> x in s && p(x)
  {
    forall x ensures x in Filter(s, p) <==> x in s && p(x) {
      FilterCounts(s, p, x);
      assert x in Filter(s, p) <==> x in multiset(Filter(s, p));
      assert x in s <==> x in multiset(s);
    }
  }

  lemma {:induction false} FilterConcat<T>(s: seq<T>, t: seq<T>, p: T -> bool)
    ensures Filter(s + t, p) == Filter(s, p) + Filter(t, p)
  {
    if t == [] {
      assert s + t == s;
    } else {
      assert (s + t)[..|s + t| - 1] == s + t[..|t| - 1];
      FilterConcat(s, t[..|t| - 1], p);
    }
  }

  lemma {:induction false} FilterAll<T>(s: seq<T>, p: T -> bool)
    requires forall x :: x in s ==> p(x)
    ensures Filter(s, p) == s
  {
    if s != [] {
      FilterAll(s[..|s| - 1], p);
      SplitLast(s);
    }
  }

  lemma {:induction false} FilterNone<T>(s: seq<T>, p: T -> bool)
    requires forall x :: x in s ==> !p(x)
    ensures Filter(s, p) == []
  {
    if s != [] {
      FilterNone(s[..|s| - 1], p);
    }
  }

  /** Leaving out an entry makes a list shorter. */
  lemma {:induction false} FilterShorter<T>(s: seq<T>, p: T -> bool, x: T)
    ensures |Filter(s, p)| <= |s|
    ensures x in s && !p(x) ==> |Filter(s, p)| < |s|
  {
    if s != [] {
      FilterShorter(s[..|s| - 1], p, x);
      SplitLast(s);
    }
  }

  lemma {:induction false} FilterTwice<T>(s: seq<T>, p: T -> bool, q: T -> bool)
    requires forall x :: x in s && q(x) ==> p(x)
    ensures Filter(Filter(s, p), q) == Filter(s, q)
  {
    if s != [] {
      SplitLast(s);
      FilterTwice(s[..|s| - 1], p, q);
      FilterSnoc(Filter(s[..|s| - 1], p), s[|s| - 1], q);
    }
  }

  function Picked<T>(x: T, p: T -> bool): seq<T> { if p(x) then [x] else [] }

  lemma {:induction false} FilterSnoc<T>(s: seq<T>, x: T, p: T -> bool)
    ensures Filter(s + [x], p) == Filter(s, p) + Picked(x, p)
  {
    assert (s + [x])[..|s|] == s;
  }

  lemma MiddleMultiset<T>(a: seq<T>, x: seq<T>, b: seq<T>)
    ensures multiset(a + x + b) == multiset(a + b) + multiset(x)
  {
  }

  lemma {:induction false} FilterWithout<T>(s: seq<T>, k: nat, p: T -> bool)
    requires k < |s|
    ensures multiset(Filter(s, p)) == multiset(Filter(Without(s, k), p)) + multiset(Picked(s[k], p))
  {
    hide Filter;
    var front, back := s[..k], s[k + 1..];
    SplitAt(s, k);
    FilterConcat(front + [s[k]], back, p);
    FilterSnoc(front, s[k], p);
    FilterConcat(front, back, p);
    MiddleMultiset(Filter(front, p), Picked(s[k], p), Filter(back, p));
  }

  lemma {:induction false} FilterPermutation<T>(s: seq<T>, t: seq<T>, p: T -> bool)
    requires Permutation(s, t)
    ensures Permutation(Filter(s, p), Filter(t, p))
    decreases |t|
  {
    PermutationLength(s, t);
    if t != [] {
      var k := PermutationPeel(s, t);
      FilterPermutation(Without(s, k), t[..|t| - 1], p);
      FilterWithout(s, k, p);
      FilterWithout(t, |t| - 1, p);
      assert Without(t, |t| - 1) == t[..|t| - 1];
    }
  }

  lemma {:induction false} SumConcat<T>(s: seq<T>, t: seq<T>, f: T -> real)
    ensures Sum(s + t, f) == Sum(s, f) + Sum(t, f)
  {
    if t == [] {
      assert s + t == s;
    } else {
      assert (s + t)[..|s + t| - 1] == s + t[..|t| - 1];
      SumConcat(s, t[..|t| - 1], f);
    }
  }

  lemma {:induction false} SumSnoc<T>(s: seq<T>, x: T, f: T -> real)
    ensures Sum(s + [x], f) == Sum(s, f) + f(x)
  {
    assert (s + [x])[..|s|] == s;
  }

  lemma {:induction false} SumWithout<T>(s: seq<T>, k: nat, f: T -> real)
    requires k < |s|
    ensures Sum(s, f) == Sum(Without(s, k), f) + f(s[k])
  {
    hide Sum;
    var front, back := s[..k], s[k + 1..];
    SplitAt(s, k);
    SumConcat(front + [s[k]], back, f);
    SumSnoc(front, s[k], f);
    SumConcat(front, back, f);
  }

  lemma {:induction false} SumPermutation<T>(s: seq<T>, t: seq<T>, f: T -> real)
    requires Permutation(s, t)
    ensures Sum(s, f) == Sum(t, f)
    decreases |t|
  {
    PermutationLength(s, t);
    if t != [] {
      var k := PermutationPeel(s, t);
      SumPermutation(Without(s, k), t[..|t| - 1], f);
      SumWithout(s, k, f);
    }
  }

  /** A symmetric relation that holds between no two positions of a sequence
      holds between no two positions of any rearrangement of it. */
  lemma PermutationKeepsApart<T(!new)>(s: seq<T>, t: seq<T>, clash: (T, T) -> bool)
    requires Permutation(s, t)
    requires forall x, y :: clash(x, y) == clash(y, x)
    requires forall i, j :: 0 <= i < j < |s| ==> !clash(s[i], s[j])
    ensures forall i, j :: 0 <= i < j < |t| ==> !clash(t[i], t[j])
    decreases |t|
  {
    PermutationLength(s, t);
    if t != [] {
      var k := PermutationPeel(s, t);
      var s', t' := Without(s, k), t[..|t| - 1];
      PermutationLength(s', t');
      PermutationKeepsApart(s', t', clash);
      forall i | 0 <= i < |t'| ensures !clash(t[i], t[|t| - 1]) {
        assert t'[i] in s';
        var q :| 0 <= q < |s'| && s'[q] == t'[i];
        assert s'[q] == if q < k then s[q] else s[q + 1];
      }
    }
  }

  // ----- flattening -----

  ghost function FlatMap<T, U>(s: seq<T>, f: T -> seq<U>): seq<U>
  {
    if s == [] then [] else FlatMap(s[..|s| - 1], f) + f(s[|s| - 1])
  }

  lemma {:induction false} FlatMapConcat<T, U>(s: seq<T>, t: seq<T>, f: T -> seq<U>)
    ensures FlatMap(s + t, f) == FlatMap(s, f) + FlatMap(t, f)
  {
    if t == [] {
      assert s + t == s;
    } else {
      assert (s + t)[..|s + t| - 1] == s + t[..|t| - 1];
      FlatMapConcat(s, t[..|t| - 1], f);
    }
  }

  lemma {:induction false} FlatMapSnoc<T, U>(s: seq<T>, x: T, f: T -> seq<U>)
    ensures FlatMap(s + [x], f) == FlatMap(s, f) + f(x)
    ensures FlatMap([x], f) == f(x)
  {
    assert (s + [x])[..|s|] == s;
    assert [x][..0] == [];
  }

  lemma {:induction false} FlatMapWithout<T, U>(s: seq<T>, k: nat, f: T -> seq<U>)
    requires k < |s|
    ensures multiset(FlatMap(s, f)) == multiset(FlatMap(Without(s, k), f)) + multiset(f(s[k]))
  {
    hide FlatMap;
    var front, back := s[..k], s[k + 1..];
    SplitAt(s, k);
    FlatMapConcat(front + [s[k]], back, f);
    FlatMapSnoc(front, s[k], f);
    FlatMapConcat(front, back, f);
    MiddleMultiset(FlatMap(front, f), f(s[k]), FlatMap(back, f));
  }

  lemma {:induction false} FlatMapPermutation<T, U>(s: seq<T>, t: seq<T>, f: T -> seq<U>)
    requires Permutation(s, t)
    ensures Permutation(FlatMap(s, f), FlatMap(t, f))
    decreases |t|
  {
    PermutationLength(s, t);
    if t != [] {
      var k := PermutationPeel(s, t);
      FlatMapPermutation(Without(s, k), t[..|t| - 1], f);
      FlatMapWithout(s, k, f);
    }
  }

  lemma {:induction false} FlatMapAgree<T, U>(s: seq<T>, f: T -> seq<U>, g: T -> seq<U>)
    requires forall x :: x in s ==> f(x) == g(x)
    ensures FlatMap(s, f) == FlatMap(s, g)
  {
    if s != [] {
      FlatMapAgree(s[..|s| - 1], f, g);
    }
  }

  // ----- duplicate-free sequences -----

  ghost predicate Distinct<T>(s: seq<T>)
  {
    forall i, j :: 0 <= i < j < |s| ==> s[i] != s[j]
  }

  lemma DistinctCounts<T>(s: seq<T>, x: T)
    requires Distinct(s)
    ensures multiset(s)[x] == if x in s then 1 else 0
  {
    if s != [] {
      DistinctCounts(s[..|s| - 1], x);
      SplitLast(s);
    }
  }
}
