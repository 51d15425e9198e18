/** Non-maximum suppression: a selection sort by confidence, then flags cleared
    in place by the survivors. */
module Nms {
  import opened Types
  import opened Geometry
  import opened Sequences
  import opened Sorting

  function Confidence(d: Detection): real { d.confidence }

  predicate Conflict(a: Detection, b: Detection, thr: real)
  {
    a.classId == b.classId && Iou(a.bbox, b.bbox) > thr
  }

  /** The defining recursion of the greedy kernel: an entry survives exactly when no
      earlier survivor conflicts with it. */
  predicate IsKept(s: seq<Detection>, thr: real, j: nat)
    requires j < |s|
  {
    forall i | 0 <= i < j :: IsKept(s, thr, i) ==> !Conflict(s[i], s[j], thr)
  }

  predicate Suppressed(kept: seq<Detection>, d: Detection, thr: real)
  {
    exists i :: 0 <= i < |kept| && Conflict(kept[i], d, thr)
  }

  /** The survivors, in order. */
  function Kernel(s: seq<Detection>, thr: real): seq<Detection>
  {
    if s == [] then []
    else
      var kept := Kernel(s[..|s| - 1], thr);
      if Suppressed(kept, s[|s| - 1], thr) then kept else kept + [s[|s| - 1]]
  }

  function Run(dets: seq<Detection>, thr: real): seq<Detection>
  {
    Kernel(SelectFrom(dets, 0, Confidence), thr)
  }

  // ----- the in-place algorithm -----

  /** Sorts the first n entries by confidence and sets keep for each. */
  method Suppress(dets: array<Detection>, n: nat, thr: real, keep: array<bool>)
    requires n <= dets.Length && n <= keep.Length
    modifies dets, keep
    ensures dets[..n] == SelectFrom(old(dets[..n]), 0, Confidence)
    ensures dets[n..] == old(dets[n..])
    ensures forall j :: 0 <= j < n ==> keep[j] == IsKept(dets[..n], thr, j)
  {
    SelectionSort(dets, n, Confidence);
    ghost var s := dets[..n];
    for i := 0 to n
      invariant dets[..n] == s && dets[n..] == old(dets[n..])
      invariant forall j :: 0 <= j < i ==> keep[j]
    {
      keep[i] := true;
    }
    for i := 0 to n
      invariant dets[..n] == s && dets[n..] == old(dets[n..])
      invariant forall j :: 0 <= j < n ==> keep[j] == Spared(s, thr, j, i)
    {
      ClearConflicts(dets, n, thr, keep, i);
    }
  }

  /** The inner loop: survivor i clears the later entries it conflicts with. */
  method ClearConflicts(dets: array<Detection>, n: nat, thr: real, keep: array<bool>, i: nat)
    requires i < n <= dets.Length && n <= keep.Length
    requires forall k :: 0 <= k < n ==> keep[k] == Spared(dets[..n], thr, k, i)
    modifies keep
    ensures forall k :: 0 <= k < n ==> keep[k] == Spared(dets[..n], thr, k, i + 1)
  {
    ghost var s := dets[..n];
    assert keep[i] == IsKept(s, thr, i);
    if keep[i] {
      for j := i + 1 to n
        invariant forall k :: 0 <= k < n ==> keep[k] == Spared(s, thr, k, if k < j then i + 1 else i)
      {
        SparedStep(s, thr, j, i);
        if keep[j] && Conflict(dets[i], dets[j], thr) {
          keep[j] := false;
        }
      }
    }
  }

  /** Entry j has met the survivors among the first i entries and stands. */
  ghost predicate Spared(s: seq<Detection>, thr: real, j: nat, i: nat)
    requires j < |s|
  {
    forall k | 0 <= k < j && k < i :: IsKept(s, thr, k) ==> !Conflict(s[k], s[j], thr)
  }

  lemma SparedStep(s: seq<Detection>, thr: real, j: nat, i: nat)
    requires i < j < |s|
    ensures Spared(s, thr, j, i + 1) == (Spared(s, thr, j, i) && (IsKept(s, thr, i) ==> !Conflict(s[i], s[j], thr)))
  {
  }

  // ----- the kernel -----

  /** Any flags that satisfy the kernel equation are the flags NMS computes. */
  lemma {:induction false} KernelUnique(s: seq<Detection>, thr: real, flags: seq<bool>, j: nat)
    requires |flags| == |s| && j < |s|
    requires forall q :: 0 <= q < |s| ==>
      (flags[q] <==> forall i | 0 <= i < q :: flags[i] ==> !Conflict(s[i], s[q], thr))
    ensures flags[j] == IsKept(s, thr, j)
  {
    forall i | 0 <= i < j ensures flags[i] == IsKept(s, thr, i) {
      KernelUnique(s, thr, flags, i);
    }
  }

  lemma {:induction false} KeptByPrefix(s: seq<Detection>, thr: real, m: nat, j: nat)
    requires j < m <= |s|
    ensures IsKept(s[..m], thr, j) == IsKept(s, thr, j)
  {
    forall i | 0 <= i < j ensures IsKept(s[..m], thr, i) == IsKept(s, thr, i) {
      KeptByPrefix(s, thr, m, i);
    }
  }

  /** What the survivors suppress, told by flags and told by the list of survivors. */
  lemma {:induction false} SuppressedByKept(s: seq<Detection>, thr: real, m: nat, d: Detection)
    requires m <= |s|
    ensures Suppressed(Kernel(s[..m], thr), d, thr) <==>
      exists i | 0 <= i < m :: IsKept(s, thr, i) && Conflict(s[i], d, thr)
  {
    if m > 0 {
      var x := s[m - 1];
      assert s[..m][..m - 1] == s[..m - 1] && s[..m][m - 1] == x;
      var k := Kernel(s[..m - 1], thr);
      SuppressedByKept(s, thr, m - 1, d);
      SuppressedByKept(s, thr, m - 1, x);
      assert Suppressed(k, x, thr) == !IsKept(s, thr, m - 1);
      SuppressedSnoc(k, x, d, thr);
    }
  }

  lemma SuppressedSnoc(k: seq<Detection>, x: Detection, d: Detection, thr: real)
    ensures Suppressed(k + [x], d, thr) == (Suppressed(k, d, thr) || Conflict(x, d, thr))
  {
    if Conflict(x, d, thr) {
      assert (k + [x])[|k|] == x;
    }
    if Suppressed(k, d, thr) {
      var i :| 0 <= i < |k| && Conflict(k[i], d, thr);
      assert (k + [x])[i] == k[i];
    }
  }

  /** The flags select the kernel. */
  lemma {:induction false} KernelStep(s: seq<Detection>, thr: real, j: nat)
    requires j < |s|
    ensures Kernel(s[..j + 1], thr) == Kernel(s[..j], thr) + (if IsKept(s, thr, j) then [s[j]] else [])
  {
    assert s[..j + 1][..j] == s[..j] && s[..j + 1][j] == s[j];
    SuppressedByKept(s, thr, j, s[j]);
  }

  lemma {:induction false} KernelMembers(s: seq<Detection>, thr: real)
    ensures |Kernel(s, thr)| <= |s|
    ensures forall d :: d in Kernel(s, thr) ==> d in s
  {
    if s != [] {
      KernelMembers(s[..|s| - 1], thr);
      SplitLast(s);
    }
  }

  ghost predicate ConflictFree(s: seq<Detection>, thr: real)
  {
    forall i, j :: 0 <= i < j < |s| ==> !Conflict(s[i], s[j], thr)
  }

  lemma {:induction false} KernelConflictFree(s: seq<Detection>, thr: real)
    requires Descending(s, Confidence)
    ensures ConflictFree(Kernel(s, thr), thr)
    ensures Descending(Kernel(s, thr), Confidence)
  {
    if s != [] {
      var s' := s[..|s| - 1];
      KernelConflictFree(s', thr);
      forall d | d in Kernel(s', thr) ensures d.confidence >= s[|s| - 1].confidence {
        KernelMembers(s', thr);
        var q :| 0 <= q < |s'| && s'[q] == d;
        assert Confidence(s[q]) >= Confidence(s[|s| - 1]);
      }
    }
  }

  lemma {:induction false} ConflictFreeKernel(s: seq<Detection>, thr: real)
    requires ConflictFree(s, thr)
    ensures Kernel(s, thr) == s
  {
    if s != [] {
      ConflictFreeKernel(s[..|s| - 1], thr);
      SplitLast(s);
    }
  }

  /** The whole contract of suppression over any input: survivors come in descending
      order, never conflict, are taken from the input, and every entry left out
      conflicts with a survivor of at least its confidence. */
  lemma NmsTheorem(dets: seq<Detection>, thr: real)
    ensures Descending(Run(dets, thr), Confidence) && ConflictFree(Run(dets, thr), thr)
    ensures forall d :: d in Run(dets, thr) ==> d in dets
    ensures forall d :: d in dets && d !in Run(dets, thr) ==> Covered(Run(dets, thr), d, thr)
  {
    var s := SelectFrom(dets, 0, Confidence);
    SelectionSorts(dets, 0, Confidence);
    PermutationLength(dets, s);
    KernelConflictFree(s, thr);
    KernelMembers(s, thr);
    forall d | d in s && d !in Kernel(s, thr) ensures Covered(Kernel(s, thr), d, thr) {
      DroppedIsCovered(s, thr, d);
    }
  }

  ghost predicate Covered(kept: seq<Detection>, d: Detection, thr: real)
  {
    exists k :: k in kept && Conflict(k, d, thr) && k.confidence >= d.confidence
  }

  lemma {:induction false} DroppedIsCovered(s: seq<Detection>, thr: real, d: Detection)
    requires Descending(s, Confidence) && d in s && d !in Kernel(s, thr)
    ensures Covered(Kernel(s, thr), d, thr)
  {
    var s', x := s[..|s| - 1], s[|s| - 1];
    var kept := Kernel(s', thr);
    if d in s' {
      DroppedIsCovered(s', thr, d);
    } else {
      SplitLast(s);
      assert d == x;
      var i :| 0 <= i < |kept| && Conflict(kept[i], x, thr);
      KernelMembers(s', thr);
      assert kept[i] in s';
      var q :| 0 <= q < |s'| && s'[q] == kept[i];
      assert Confidence(s[q]) >= Confidence(s[|s| - 1]);
    }
  }

  /** Running suppression again on its own result changes nothing. */
  lemma NmsIdempotent(dets: seq<Detection>, thr: real)
    ensures Run(Run(dets, thr), thr) == Run(dets, thr)
  {
    NmsTheorem(dets, thr);
    SelectionKeepsSorted(Run(dets, thr), 0, Confidence);
    ConflictFreeKernel(Run(dets, thr), thr);
  }

  // ----- classes do not interact -----

  function OfClass(c: int): Detection -> bool { (d: Detection) => d.classId == c }

  /** Suppressing within one class gives what suppression of the sorted whole gives
      for that class. */
  lemma {:induction false} KernelByClass(s: seq<Detection>, thr: real, c: int)
    ensures Filter(Kernel(s, thr), OfClass(c)) == Kernel(Filter(s, OfClass(c)), thr)
  {
    if s != [] {
      var s', x := s[..|s| - 1], s[|s| - 1];
      var kept := Kernel(s', thr);
      KernelByClass(s', thr, c);
      FilterConcat(kept, [x], OfClass(c));
      assert [x][..0] == [];
      if x.classId == c {
        FilteredSuppresses(kept, x, thr);
        var f := Filter(s', OfClass(c));
        assert (f + [x])[..|f|] == f;
      }
    }
  }

  lemma {:induction false} FilteredSuppresses(kept: seq<Detection>, x: Detection, thr: real)
    ensures Suppressed(kept, x, thr) == Suppressed(Filter(kept, OfClass(x.classId)), x, thr)
  {
    var f := Filter(kept, OfClass(x.classId));
    FilterMember(kept, OfClass(x.classId));
    if Suppressed(kept, x, thr) {
      var i :| 0 <= i < |kept| && Conflict(kept[i], x, thr);
      assert kept[i] in f;
    }
    if Suppressed(f, x, thr) {
      var i :| 0 <= i < |f| && Conflict(f[i], x, thr);
      assert f[i] in kept;
    }
  }

  // ----- suppression commutes with undoing the letterbox -----

  function DetToSource(d: Detection, padX: real, padY: real, ratio: real): Detection
    requires ratio != 0.0
  {
    d.(bbox := ToSource(d.bbox, padX, padY, ratio))
  }

  function AllToSource(s: seq<Detection>, padX: real, padY: real, ratio: real): seq<Detection>
    requires ratio != 0.0
  {
    Map(s, (d: Detection) => DetToSource(d, padX, padY, ratio))
  }

  lemma ConflictUnchanged(a: Detection, b: Detection, thr: real, padX: real, padY: real, ratio: real)
    requires ratio > 0.0
    ensures Conflict(DetToSource(a, padX, padY, ratio), DetToSource(b, padX, padY, ratio), thr) == Conflict(a, b, thr)
  {
    IouUnchangedByToSource(a.bbox, b.bbox, padX, padY, ratio);
  }

  lemma SuppressedUnchanged(k: seq<Detection>, x: Detection, thr: real, padX: real, padY: real, ratio: real)
    requires ratio > 0.0
    ensures Suppressed(AllToSource(k, padX, padY, ratio), DetToSource(x, padX, padY, ratio), thr)
      == Suppressed(k, x, thr)
  {
    hide Conflict, DetToSource;
    var k' := AllToSource(k, padX, padY, ratio);
    forall i | 0 <= i < |k|
      ensures Conflict(k'[i], DetToSource(x, padX, padY, ratio), thr) == Conflict(k[i], x, thr)
    {
      ConflictUnchanged(k[i], x, thr, padX, padY, ratio);
    }
  }

  lemma {:induction false} KernelToSource(s: seq<Detection>, thr: real, padX: real, padY: real, ratio: real)
    requires ratio > 0.0
    ensures Kernel(AllToSource(s, padX, padY, ratio), thr) == AllToSource(Kernel(s, thr), padX, padY, ratio)
  {
    if s != [] {
      var s', x := s[..|s| - 1], s[|s| - 1];
      KernelToSource(s', thr, padX, padY, ratio);
      SuppressedUnchanged(Kernel(s', thr), x, thr, padX, padY, ratio);
      assert AllToSource(s, padX, padY, ratio)[..|s| - 1] == AllToSource(s', padX, padY, ratio);
      assert AllToSource(Kernel(s', thr) + [x], padX, padY, ratio)
          == AllToSource(Kernel(s', thr), padX, padY, ratio) + [DetToSource(x, padX, padY, ratio)];
    }
  }

  lemma {:induction false} MaxIndexToSource(s: seq<Detection>, i: nat, j: nat, padX: real, padY: real, ratio: real)
    requires ratio > 0.0 && i < j <= |s|
    ensures MaxIndex(AllToSource(s, padX, padY, ratio), Confidence, i, j) == MaxIndex(s, Confidence, i, j)
  {
    if j > i + 1 {
      MaxIndexToSource(s, i, j - 1, padX, padY, ratio);
    }
  }

  lemma {:induction false} SelectToSource(s: seq<Detection>, i: nat, padX: real, padY: real, ratio: real)
    requires ratio > 0.0
    ensures SelectFrom(AllToSource(s, padX, padY, ratio), i, Confidence)
         == AllToSource(SelectFrom(s, i, Confidence), padX, padY, ratio)
    decreases |s| - i
  {
    if i + 1 < |s| {
      var m := MaxIndex(s, Confidence, i, |s|);
      MaxIndexToSource(s, i, |s|, padX, padY, ratio);
      assert Swapped(AllToSource(s, padX, padY, ratio), i, m) == AllToSource(Swapped(s, i, m), padX, padY, ratio);
      SelectToSource(Swapped(s, i, m), i + 1, padX, padY, ratio);
    }
  }

  /** Suppression in source pixels keeps exactly what suppression in model pixels
      would have kept, so the order of the two steps does not matter. */
  lemma NmsCommutesWithUnletterbox(dets: seq<Detection>, thr: real, padX: real, padY: real, ratio: real)
    requires ratio > 0.0
    ensures Run(AllToSource(dets, padX, padY, ratio), thr) == AllToSource(Run(dets, thr), padX, padY, ratio)
  {
    SelectToSource(dets, 0, padX, padY, ratio);
    KernelToSource(SelectFrom(dets, 0, Confidence), thr, padX, padY, ratio);
  }
}
