/** The exchange sort and the selection sort used by the pipeline, as in-place
    methods and as the functions they compute. */
module Sorting {
  import opened Sequences

  function Swapped<T>(s: seq<T>, i: nat, j: nat): (r: seq<T>)
    requires i < |s| && j < |s|
    ensures |r| == |s|
  {
    s[i := s[j]][j := s[i]]
  }

  lemma SwappedPermutes<T>(s: seq<T>, i: nat, j: nat)
    requires i < |s| && j < |s|
    ensures Permutation(s, Swapped(s, i, j))
  {
  }

  lemma SwappedSelf<T>(s: seq<T>, i: nat)
    requires i < |s|
    ensures Swapped(s, i, i) == s
  {
  }

  method SwapEntries<T>(a: array<T>, n: nat, i: nat, j: nat)
    requires n <= a.Length && i < n && j < n
    modifies a
    ensures a[..n] == Swapped(old(a[..n]), i, j)
    ensures a[n..] == old(a[n..])
  {
    a[i], a[j] := a[j], a[i];
  }

  ghost predicate StrictOrder<T(!new)>(before: (T, T) -> bool)
  {
    && (forall x :: !before(x, x))
    && (forall x, y, z :: before(x, y) && before(y, z) ==> before(x, z))
  }

  /** No later entry comes strictly before an earlier one. */
  ghost predicate Ordered<T>(s: seq<T>, before: (T, T) -> bool)
  {
    forall p, q :: 0 <= p < q < |s| ==> !before(s[q], s[p])
  }

  /** Entries before position i are in their final place. */
  ghost predicate SettledBelow<T>(s: seq<T>, i: nat, before: (T, T) -> bool)
  {
    forall p, q :: 0 <= p < i && p < q < |s| ==> !before(s[q], s[p])
  }

  // ----- exchange sort -----

  /** One pass of the inner loop: position i meets positions j, j + 1, ... */
  function ExchangeRow<T>(s: seq<T>, i: nat, j: nat, before: (T, T) -> bool): (r: seq<T>)
    requires i < j <= |s|
    ensures |r| == |s|
    decreases |s| - j
  {
    if j == |s| then s
    else ExchangeRow(if before(s[j], s[i]) then Swapped(s, i, j) else s, i, j + 1, before)
  }

  function ExchangeFrom<T>(s: seq<T>, i: nat, before: (T, T) -> bool): (r: seq<T>)
    ensures |r| == |s|
    decreases |s| - i
  {
    if i + 1 >= |s| then s else ExchangeFrom(ExchangeRow(s, i, i + 1, before), i + 1, before)
  }

  /** Nothing strictly between positions i and j comes before position i. */
  ghost predicate FirstUpTo<T>(s: seq<T>, i: nat, j: nat, before: (T, T) -> bool)
    requires i < j <= |s|
  {
    forall q :: i < q < j ==> !before(s[q], s[i])
  }

  /** Swapping a later entry that belongs first into position i disturbs nothing before. */
  lemma SwapSettles<T(!new)>(s: seq<T>, i: nat, j: nat, before: (T, T) -> bool)
    requires i < j < |s| && StrictOrder(before) && before(s[j], s[i])
    requires SettledBelow(s, i, before) && FirstUpTo(s, i, j, before)
    ensures SettledBelow(Swapped(s, i, j), i, before) && FirstUpTo(Swapped(s, i, j), i, j + 1, before)
  {
    var r := Swapped(s, i, j);
    forall p, q | 0 <= p < i && p < q < |r| ensures !before(r[q], r[p]) {
      assert r[p] == s[p];
    }
  }

  lemma StaySettles<T(!new)>(s: seq<T>, i: nat, j: nat, before: (T, T) -> bool)
    requires i < j < |s| && !before(s[j], s[i]) && FirstUpTo(s, i, j, before)
    ensures FirstUpTo(s, i, j + 1, before)
  {
  }

  lemma RowSettled<T(!new)>(s: seq<T>, i: nat, before: (T, T) -> bool)
    requires i < |s| && SettledBelow(s, i, before) && FirstUpTo(s, i, |s|, before)
    ensures SettledBelow(s, i + 1, before)
  {
  }

  lemma {:induction false} ExchangeRowSettles<T(!new)>(s: seq<T>, i: nat, j: nat, before: (T, T) -> bool)
    requires i < j <= |s| && StrictOrder(before)
    requires SettledBelow(s, i, before) && FirstUpTo(s, i, j, before)
    ensures Permutation(s, ExchangeRow(s, i, j, before))
    ensures SettledBelow(ExchangeRow(s, i, j, before), i + 1, before)
    decreases |s| - j
  {
    hide StrictOrder, Swapped, SettledBelow, FirstUpTo;
    if j == |s| {
      RowSettled(s, i, before);
    } else if before(s[j], s[i]) {
      SwapSettles(s, i, j, before);
      SwappedPermutes(s, i, j);
      ExchangeRowSettles(Swapped(s, i, j), i, j + 1, before);
    } else {
      StaySettles(s, i, j, before);
      ExchangeRowSettles(s, i, j + 1, before);
    }
  }

  lemma {:induction false} ExchangeSorts<T(!new)>(s: seq<T>, i: nat, before: (T, T) -> bool)
    requires StrictOrder(before) && SettledBelow(s, i, before)
    ensures Permutation(s, ExchangeFrom(s, i, before))
    ensures Ordered(ExchangeFrom(s, i, before), before)
    decreases |s| - i
  {
    if i + 1 < |s| {
      ExchangeRowSettles(s, i, i + 1, before);
      ExchangeSorts(ExchangeRow(s, i, i + 1, before), i + 1, before);
    }
  }

  /** Exchange sort of the first n entries of a, in place. */
  method ExchangeSort<T>(a: array<T>, n: nat, before: (T, T) -> bool)
    requires n <= a.Length
    modifies a
    ensures a[..n] == ExchangeFrom(old(a[..n]), 0, before)
    ensures a[n..] == old(a[n..])
  {
    var i := 0;
    while i + 1 < n
      invariant 0 <= i
      invariant ExchangeFrom(a[..n], i, before) == ExchangeFrom(old(a[..n]), 0, before)
      invariant a[n..] == old(a[n..])
    {
      ghost var row := a[..n];
      var j := i + 1;
      while j < n
        invariant i < j <= n
        invariant ExchangeRow(a[..n], i, j, before) == ExchangeRow(row, i, i + 1, before)
        invariant a[n..] == old(a[n..])
      {
        if before(a[j], a[i]) {
          SwapEntries(a, n, i, j);
        }
        j := j + 1;
      }
      i := i + 1;
    }
  }

  // ----- selection sort, largest key first -----

  /** The first index in [i, j) with the largest key. */
  function MaxIndex<T>(s: seq<T>, key: T -> real, i: nat, j: nat): (m: nat)
    requires i < j <= |s|
    ensures i <= m < j
    ensures forall q :: i <= q < j ==> key(s[q]) <= key(s[m])
    ensures forall q :: i <= q < m ==> key(s[q]) < key(s[m])
  {
    if j == i + 1 then i
    else
      var m := MaxIndex(s, key, i, j - 1);
      if key(s[j - 1]) > key(s[m]) then j - 1 else m
  }

  function SelectFrom<T>(s: seq<T>, i: nat, key: T -> real): (r: seq<T>)
    ensures |r| == |s|
    decreases |s| - i
  {
    if i + 1 >= |s| then s
    else SelectFrom(Swapped(s, i, MaxIndex(s, key, i, |s|)), i + 1, key)
  }

  ghost predicate Descending<T>(s: seq<T>, key: T -> real)
  {
    forall p, q :: 0 <= p < q < |s| ==> key(s[p]) >= key(s[q])
  }

  lemma {:induction false} SelectionSorts<T>(s: seq<T>, i: nat, key: T -> real)
    requires forall p, q :: 0 <= p < i && p < q < |s| ==> key(s[p]) >= key(s[q])
    ensures Permutation(s, SelectFrom(s, i, key))
    ensures Descending(SelectFrom(s, i, key), key)
    decreases |s| - i
  {
    if i + 1 < |s| {
      var m := MaxIndex(s, key, i, |s|);
      SwappedPermutes(s, i, m);
      SelectionSorts(Swapped(s, i, m), i + 1, key);
    }
  }

  /** A list already in descending order is left as it is, ties included. */
  lemma {:induction false} SelectionKeepsSorted<T>(s: seq<T>, i: nat, key: T -> real)
    requires Descending(s, key)
    ensures SelectFrom(s, i, key) == s
    decreases |s| - i
  {
    if i + 1 < |s| {
      var m := MaxIndex(s, key, i, |s|);
      assert key(s[i]) <= key(s[m]);
      SwappedSelf(s, i);
      SelectionKeepsSorted(s, i + 1, key);
    }
  }

  method FirstMax<T>(a: array<T>, n: nat, i: nat, key: T -> real) returns (m: nat)
    requires i < n <= a.Length
    ensures m == MaxIndex(a[..n], key, i, n)
  {
    ghost var s := a[..n];
    m := i;
    var j := i + 1;
    while j < n
      invariant i < j <= n
      invariant m == MaxIndex(s, key, i, j)
    {
      if key(a[j]) > key(a[m]) {
        m := j;
      }
      j := j + 1;
    }
  }

  /** Selection sort of the first n entries of a, in place, largest key first. */
  method SelectionSort<T>(a: array<T>, n: nat, key: T -> real)
    requires n <= a.Length
    modifies a
    ensures a[..n] == SelectFrom(old(a[..n]), 0, key)
    ensures a[n..] == old(a[n..])
  {
    var i := 0;
    while i + 1 < n
      invariant 0 <= i
      invariant SelectFrom(a[..n], i, key) == SelectFrom(old(a[..n]), 0, key)
      invariant a[n..] == old(a[n..])
    {
      hide MaxIndex, Swapped;
      var m := FirstMax(a, n, i, key);
      ghost var was := a[..n];
      if m != i {
        SwapEntries(a, n, i, m);
      } else {
        SwappedSelf(was, i);
      }
      assert a[..n] == Swapped(was, i, m);
      i := i + 1;
    }
  }
}
