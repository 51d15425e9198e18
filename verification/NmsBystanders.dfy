/** When is suppression of one class the same as suppression of that class alone? More
    confident candidates of other classes make the sort move tied ones about. */
module NmsBystanders {
  import opened Types
  import opened Geometry
  import opened Sequences
  import opened Sorting
  import opened Nms
  import opened NmsTies

  /** Whatever bystanders of other classes are mixed into a list of one class, the
      survivors of the class are those of a run on the list alone. */
  ghost predicate AloneSuffices(s: seq<Detection>, c: int, thr: real)
  {
    forall u :: Filter(u, OfClass(c)) == s ==> Permutation(Filter(Run(u, thr), OfClass(c)), Run(s, thr))
  }

  lemma {:induction false} FilterDescending(s: seq<Detection>, p: Detection -> bool)
    requires Descending(s, Confidence)
    ensures Descending(Filter(s, p), Confidence)
  {
    if s != [] {
      var s' := s[..|s| - 1];
      FilterDescending(s', p);
      FilterMember(s', p);
      forall d | d in Filter(s', p) ensures Confidence(d) >= Confidence(s[|s| - 1]) {
        assert d in s';
      }
    }
  }

  /** Bystanders cannot change the survivors of a class exactly when no two rivals of the
      class are both unbeaten. */
  lemma AloneSufficesIffQuiet(s: seq<Detection>, c: int, thr: real)
    requires forall d :: d in s ==> d.classId == c
    ensures AloneSuffices(s, c, thr) <==> Quiet(s, thr)
  {
    hide SettledByAll, Quiet, Compete;
    QuietIffSettled(s, thr);
    if SettledByAll(s, thr) {
      forall u | Filter(u, OfClass(c)) == s ensures Permutation(Filter(Run(u, thr), OfClass(c)), Run(s, thr)) {
        AloneWhenSettled(s, u, c, thr);
      }
    } else {
      var x, y := CompetingRivals(s, thr);
      var u := BystandersFavour(s, x, y, c, thr);
      var v := BystandersFavour(s, y, x, c, thr);
      if AloneSuffices(s, c, thr) {
        PermutationLength(Filter(Run(u, thr), OfClass(c)), Run(s, thr));
        PermutationLength(Filter(Run(v, thr), OfClass(c)), Run(s, thr));
      }
    }
  }

  lemma {:induction false} AloneWhenSettled(s: seq<Detection>, u: seq<Detection>, c: int, thr: real)
    requires SettledByAll(s, thr) && Filter(u, OfClass(c)) == s
    ensures Permutation(Filter(Run(u, thr), OfClass(c)), Run(s, thr))
  {
    hide SettledByAll, SettledAt, Descending;
    var whole := SelectFrom(u, 0, Confidence);
    SelectionSorts(u, 0, Confidence);
    SettledSorted(s, thr);
    KernelByClass(whole, thr, c);
    FilterPermutation(u, whole, OfClass(c));
    FilterDescending(whole, OfClass(c));
    assert Run(s, thr) == Kernel(SelectFrom(s, 0, Confidence), thr);
    SortedKernelsAgree(SelectFrom(s, 0, Confidence), Filter(whole, OfClass(c)), thr);
  }

  // ----- how bystanders decide between rivals -----

  lemma {:induction false} MaxIndexOfPrefix(s: seq<Detection>, z: seq<Detection>, i: nat, j: nat)
    requires i < j <= |s|
    ensures MaxIndex(s + z, Confidence, i, j) == MaxIndex(s, Confidence, i, j)
  {
    if j > i + 1 {
      MaxIndexOfPrefix(s, z, i, j - 1);
    }
  }

  lemma {:induction false} MaxIndexPastWeaker(s: seq<Detection>, i: nat, j: nat, n: nat)
    requires i < j <= n <= |s|
    requires forall q :: j <= q < n ==> s[q].confidence <= s[MaxIndex(s, Confidence, i, j)].confidence
    ensures MaxIndex(s, Confidence, i, n) == MaxIndex(s, Confidence, i, j)
  {
    if j < n {
      MaxIndexPastWeaker(s, i, j, n - 1);
    }
  }

  lemma PermutationSelf(s: seq<Detection>)
    ensures Permutation(s, s)
  {
  }

  lemma PermutationChain(s: seq<Detection>, t: seq<Detection>, r: seq<Detection>)
    requires Permutation(s, t) && Permutation(t, r)
    ensures Permutation(s, r)
  {
  }

  lemma SwappedEntries(s: seq<Detection>, i: nat, j: nat)
    requires i <= j < |s|
    ensures Swapped(s, i, j)[i] == s[j] && forall p :: 0 <= p < i ==> Swapped(s, i, j)[p] == s[p]
  {
  }

  function Copies(d: Detection, k: nat): seq<Detection> { seq(k, _ => d) }

  /** Sorting goes the same way with weaker bystanders waiting at the end, as long as it
      is still placing candidates above confidence f. */
  lemma SortsAbove(s: seq<Detection>, z: Detection, f: real, i: nat) returns (r: seq<Detection>, m: nat)
    requires i <= |s| && forall p :: 0 <= p < i ==> s[p].confidence > f
    requires forall d :: d in s && d.confidence > f ==> z.confidence <= d.confidence
    ensures i <= m <= |r| && Permutation(s, r)
    ensures SelectFrom(s, i, Confidence) == SelectFrom(r, m, Confidence)
    ensures forall k: nat :: SelectFrom(s + Copies(z, k), i, Confidence) == SelectFrom(r + Copies(z, k), m, Confidence)
    ensures forall p :: 0 <= p < m ==> r[p].confidence > f
    ensures forall q :: m <= q < |r| ==> r[q].confidence <= f
    decreases |s| - i
  {
    hide MaxIndex, SelectFrom, Copies, Permutation;
    r, m := s, i;
    PermutationSelf(s);
    if exists q :: i <= q < |s| && s[q].confidence > f {
      var q :| i <= q < |s| && s[q].confidence > f;
      var j := MaxIndex(s, Confidence, i, |s|);
      var t := Swapped(s, i, j);
      assert Confidence(s[q]) <= Confidence(s[j]);
      SwappedPermutes(s, i, j);
      PermutationLength(s, t);
      SwappedEntries(s, i, j);
      assert t[i] == s[j] && forall p :: 0 <= p < i ==> t[p] == s[p];
      r, m := SortsAbove(t, z, f, i + 1);
      PermutationChain(s, t, r);
      StepOfSelect(s, i);
      ChainStep(s, t, r, m, z, i);
    }
  }

  lemma ChainStep(s: seq<Detection>, t: seq<Detection>, r: seq<Detection>, m: nat, z: Detection, i: nat)
    requires i < |s| && t == Swapped(s, i, MaxIndex(s, Confidence, i, |s|))
    requires z.confidence <= s[MaxIndex(s, Confidence, i, |s|)].confidence
    requires forall k: nat ::
      SelectFrom(t + Copies(z, k), i + 1, Confidence) == SelectFrom(r + Copies(z, k), m, Confidence)
    ensures forall k: nat :: SelectFrom(s + Copies(z, k), i, Confidence) == SelectFrom(r + Copies(z, k), m, Confidence)
  {
    hide SelectFrom, MaxIndex;
    forall k: nat ensures SelectFrom(s + Copies(z, k), i, Confidence) == SelectFrom(r + Copies(z, k), m, Confidence) {
      StepPastWeaker(s, Copies(z, k), i);
      assert SelectFrom(t + Copies(z, k), i + 1, Confidence) == SelectFrom(r + Copies(z, k), m, Confidence);
    }
  }

  lemma {:induction false} StepPastWeaker(s: seq<Detection>, z: seq<Detection>, i: nat)
    requires i < |s|
    requires forall e :: e in z ==> e.confidence <= s[MaxIndex(s, Confidence, i, |s|)].confidence
    ensures SelectFrom(s + z, i, Confidence)
         == SelectFrom(Swapped(s, i, MaxIndex(s, Confidence, i, |s|)) + z, i + 1, Confidence)
  {
    hide MaxIndex, SelectFrom;
    var k := MaxIndex(s, Confidence, i, |s|);
    MaxIndexOfPrefix(s, z, i, |s|);
    assert forall q :: |s| <= q < |s + z| ==> (s + z)[q] in z;
    MaxIndexPastWeaker(s + z, i, |s|, |s + z|);
    StepOfSelect(s + z, i);
    assert Swapped(s + z, i, k) == Swapped(s, i, k) + z;
  }

  lemma StepOfSelect(s: seq<Detection>, i: nat)
    requires i < |s|
    ensures SelectFrom(s, i, Confidence)
         == SelectFrom(Swapped(s, i, MaxIndex(s, Confidence, i, |s|)), i + 1, Confidence)
  {
    if i + 1 == |s| {
      SwappedSelf(s, i);
    }
  }

  function Rotated(r: seq<Detection>, k: nat): (t: seq<Detection>)
    requires r != []
    ensures |t| == |r|
    decreases k
  {
    if k == 0 then r else Rotated(r[1..] + [r[0]], k - 1)
  }

  lemma {:induction false} RotatedIs(r: seq<Detection>, k: nat)
    requires k < |r|
    ensures Rotated(r, k) == r[k..] + r[..k]
    decreases k
  {
    if k > 0 {
      var t := r[1..] + [r[0]];
      RotatedIs(t, k - 1);
      assert t[k - 1..] == r[k..] + [r[0]] && t[..k - 1] == r[1..k];
      assert r[..k] == [r[0]] + r[1..k];
    }
  }

  /** The candidates z all have confidence g, which is above everything in r. */
  ghost predicate Outrank(z: seq<Detection>, g: real, r: seq<Detection>)
  {
    (forall e :: e in z ==> e.confidence == g) && forall d :: d in r ==> d.confidence < g
  }

  /** Each bystander stronger than everything still unplaced takes the first free place
      and sends whoever held it to the back. */
  lemma {:induction false} BystandersTurn(p: seq<Detection>, r: seq<Detection>, z: seq<Detection>, g: real)
    requires r != [] && Outrank(z, g, r)
    ensures SelectFrom(p + r + z, |p|, Confidence) == SelectFrom(p + z + Rotated(r, |z|), |p| + |z|, Confidence)
    decreases |z|
  {
    hide SelectFrom, MaxIndex, Swapped, Outrank;
    if z == [] {
      assert p + r + z == p + z + r;
    } else {
      FirstBystander(p, r, z, g);
      StepOfSelect(p + r + z, |p|);
      OneTurn(p, r, z);
      TurnMembers(r, z, g);
      BystandersTurn(p + [z[0]], r[1..] + [r[0]], z[1..], g);
      assert p + [z[0]] + z[1..] == p + z;
    }
  }

  lemma TurnMembers(r: seq<Detection>, z: seq<Detection>, g: real)
    requires r != [] && z != [] && Outrank(z, g, r)
    ensures Outrank(z[1..], g, r[1..] + [r[0]])
  {
  }

  lemma OneTurn(p: seq<Detection>, r: seq<Detection>, z: seq<Detection>)
    requires r != [] && z != []
    ensures Swapped(p + r + z, |p|, |p| + |r|) == p + [z[0]] + (r[1..] + [r[0]]) + z[1..]
  {
  }

  lemma {:induction false} FirstBystander(p: seq<Detection>, r: seq<Detection>, z: seq<Detection>, g: real)
    requires r != [] && z != [] && Outrank(z, g, r)
    ensures MaxIndex(p + r + z, Confidence, |p|, |p + r + z|) == |p| + |r|
  {
    var s, k := p + r + z, |p| + |r|;
    assert s[k] == z[0];
    forall q | |p| <= q < |s| ensures q < k ==> s[q].confidence < s[k].confidence
                              ensures s[q].confidence <= s[k].confidence {
      assert s[q] == if q < k then r[q - |p|] else z[q - k];
      assert z[0] in z;
    }
    MaxIndexAt(s, |p|, k);
  }

  lemma {:induction false} MaxIndexAt(s: seq<Detection>, i: nat, k: nat)
    requires i <= k < |s|
    requires forall q :: i <= q < |s| ==> s[q].confidence <= s[k].confidence
    requires forall q :: i <= q < k ==> s[q].confidence < s[k].confidence
    ensures MaxIndex(s, Confidence, i, |s|) == k
  {
    assert Confidence(s[k]) <= Confidence(s[MaxIndex(s, Confidence, i, |s|)]);
    assert Confidence(s[MaxIndex(s, Confidence, i, |s|)]) <= Confidence(s[k]);
  }

  lemma {:induction false} SelectKeepsPlaced(s: seq<Detection>, i: nat)
    requires i <= |s|
    ensures SelectFrom(s, i, Confidence)[..i] == s[..i]
    decreases |s| - i
  {
    if i + 1 < |s| {
      var t := Swapped(s, i, MaxIndex(s, Confidence, i, |s|));
      SelectKeepsPlaced(t, i + 1);
      assert t[..i] == s[..i];
      assert SelectFrom(t, i + 1, Confidence)[..i + 1][..i] == SelectFrom(t, i + 1, Confidence)[..i];
    }
  }

  lemma {:induction false} SelectKeepsFirst(s: seq<Detection>, i: nat)
    requires i < |s| && forall q :: i <= q < |s| ==> s[q].confidence <= s[i].confidence
    ensures SelectFrom(s, i, Confidence)[..i + 1] == s[..i + 1]
  {
    MaxIndexAt(s, i, i);
    StepOfSelect(s, i);
    SwappedSelf(s, i);
    SelectKeepsPlaced(s, i + 1);
  }

  /** A confidence above f and below every confidence above f. */
  lemma Between(s: seq<Detection>, f: real) returns (g: real)
    ensures g > f && forall d :: d in s && d.confidence > f ==> g < d.confidence
  {
    if s == [] {
      g := f + 1.0;
    } else {
      g := Between(s[..|s| - 1], f);
      var last := s[|s| - 1].confidence;
      SplitLast(s);
      if f < last <= g {
        g := (f + last) / 2.0;
      }
    }
  }

  /** After k bystanders have turned the unplaced candidates, the next place goes to the
      one that stood k places on, if nothing unplaced is stronger. */
  lemma {:induction false} RotatedToFront(p: seq<Detection>, r: seq<Detection>, z: seq<Detection>, g: real)
    requires |z| < |r| && Outrank(z, g, r)
    requires forall d :: d in r ==> d.confidence <= r[|z|].confidence
    ensures p + z + [r[|z|]] <= SelectFrom(p + r + z, |p|, Confidence)
  {
    hide SelectFrom, MaxIndex, Rotated, Outrank;
    var k := |z|;
    var w := p + z + Rotated(r, k);
    BystandersTurn(p, r, z, g);
    RotatedIs(r, k);
    forall q | |p| + k <= q < |w| ensures w[q].confidence <= w[|p| + k].confidence {
      assert w[q] == Rotated(r, k)[q - |p| - k] && w[q] in r;
    }
    SelectKeepsFirst(w, |p| + k);
    assert w[..|p| + k + 1] == p + z + [r[k]];
  }

  /** Without the bystanders z of other classes, a sorted list starts with p and x. */
  lemma {:induction false} FilteredStart(whole: seq<Detection>, p: seq<Detection>, z: seq<Detection>, x: Detection,
      c: int)
    requires p + z + [x] <= whole && x.classId == c
    requires forall d :: d in p ==> d.classId == c
    requires forall d :: d in z ==> d.classId != c
    ensures p + [x] <= Filter(whole, OfClass(c))
  {
    var rest := whole[|p + z + [x]|..];
    assert whole == p + z + [x] + rest;
    FilterAll(p, OfClass(c));
    FilterNone(z, OfClass(c));
    FilterAll([x], OfClass(c));
    FilterConcat(p, z, OfClass(c));
    FilterConcat(p + z, [x], OfClass(c));
    FilterConcat(p + z + [x], rest, OfClass(c));
  }

  /** Enough bystanders just above the confidence of x make it the first of its class at
      that confidence. */
  lemma HeadsItsClass(s: seq<Detection>, x: Detection, c: int) returns (u: seq<Detection>, m: nat)
    requires x in s && forall d :: d in s ==> d.classId == c
    ensures Filter(u, OfClass(c)) == s && m <= |s|
    ensures SelectFrom(s, 0, Confidence)[..m] + [x] <= Filter(SelectFrom(u, 0, Confidence), OfClass(c))
    ensures forall p :: 0 <= p < m ==> SelectFrom(s, 0, Confidence)[p].confidence > x.confidence
  {
    hide MaxIndex, SelectFrom, Filter, Copies;
    var g := Between(s, x.confidence);
    var bystander := x.(classId := c + 1, confidence := g);
    var r: seq<Detection>;
    r, m := SortsAbove(s, bystander, x.confidence, 0);
    PermutationLength(s, r);
    var i :| 0 <= i < |r| && r[i] == x;
    var z := Copies(bystander, i - m);
    CopiesAre(bystander, i - m);
    u := s + z;
    BystandersLeft(s, z, c);
    HeadsAmongCopies(s, r, m, i, z, g, c);
    assert forall p :: 0 <= p < m ==> SelectFrom(s, 0, Confidence)[p] == r[..m][p];
  }

  lemma {:induction false} HeadsAmongCopies(s: seq<Detection>, r: seq<Detection>, m: nat, i: nat, z: seq<Detection>,
      g: real, c: int)
    requires m <= i < |r| && |z| == i - m && |r| == |s|
    requires SelectFrom(s, 0, Confidence) == SelectFrom(r, m, Confidence)
    requires SelectFrom(s + z, 0, Confidence) == SelectFrom(r + z, m, Confidence)
    requires forall q :: m <= q < |r| ==> r[q].confidence <= r[i].confidence
    requires Outrank(z, g, r[m..]) && forall e :: e in z ==> e.classId != c
    requires forall d :: d in r ==> d.classId == c
    ensures SelectFrom(s, 0, Confidence)[..m] == r[..m]
    ensures r[..m] + [r[i]] <= Filter(SelectFrom(s + z, 0, Confidence), OfClass(c))
  {
    hide MaxIndex, SelectFrom, Filter, Outrank;
    RivalInFront(r, m, i, z, g);
    SelectKeepsPlaced(r, m);
    assert forall d :: d in r[..m] ==> d in r;
    FilteredStart(SelectFrom(s + z, 0, Confidence), r[..m], z, r[i], c);
  }

  lemma CopiesAre(d: Detection, k: nat)
    ensures |Copies(d, k)| == k && forall e :: e in Copies(d, k) ==> e == d
  {
  }

  /** Bystanders can decide for either of two competing rivals. */
  lemma BystandersFavour(s: seq<Detection>, x: Detection, y: Detection, c: int, thr: real)
    returns (u: seq<Detection>)
    requires forall d :: d in s ==> d.classId == c
    requires Compete(s, x, y, thr)
    ensures Filter(u, OfClass(c)) == s
    ensures x in Filter(Run(u, thr), OfClass(c)) && y !in Filter(Run(u, thr), OfClass(c))
  {
    hide Beaten, Conflict, SelectFrom, Kernel, Filter;
    var m: nat;
    u, m := HeadsItsClass(s, x, c);
    FrontSurvives(s, u, m, x, y, c, thr);
  }

  lemma {:induction false} BystandersLeft(s: seq<Detection>, z: seq<Detection>, c: int)
    requires forall d :: d in s ==> d.classId == c
    requires forall d :: d in z ==> d.classId != c
    ensures Filter(s + z, OfClass(c)) == s
  {
    FilterAll(s, OfClass(c));
    FilterNone(z, OfClass(c));
    FilterConcat(s, z, OfClass(c));
  }

  /** The rival that heads its confidence among its class survives there, and the other
      does not. */
  lemma {:induction false} FrontSurvives(s: seq<Detection>, u: seq<Detection>, m: nat, x: Detection, y: Detection,
      c: int, thr: real)
    requires Compete(s, x, y, thr) && m <= |s|
    requires SelectFrom(s, 0, Confidence)[..m] + [x] <= Filter(SelectFrom(u, 0, Confidence), OfClass(c))
    requires forall p :: 0 <= p < m ==> SelectFrom(s, 0, Confidence)[p].confidence > x.confidence
    ensures x in Filter(Run(u, thr), OfClass(c)) && y !in Filter(Run(u, thr), OfClass(c))
  {
    hide Beaten, Conflict, SelectFrom, Kernel, Filter, Descending;
    var alone, whole := SelectFrom(s, 0, Confidence), SelectFrom(u, 0, Confidence);
    var ofClass := Filter(whole, OfClass(c));
    SelectionSorts(u, 0, Confidence);
    FilterDescending(whole, OfClass(c));
    KernelByClass(whole, thr, c);
    assert ofClass[..m] == alone[..m] && ofClass[m] == x;
    FirstOfLevel(alone, ofClass, m, x, thr);
    RivalLoses(ofClass, x, y, thr);
  }

  lemma {:induction false} RivalInFront(r: seq<Detection>, m: nat, i: nat, z: seq<Detection>, g: real)
    requires m <= i < |r| && |z| == i - m && Outrank(z, g, r[m..])
    requires forall q :: m <= q < |r| ==> r[q].confidence <= r[i].confidence
    ensures r[..m] + z + [r[i]] <= SelectFrom(r + z, m, Confidence)
  {
    hide SelectFrom;
    var p, tail := r[..m], r[m..];
    assert r + z == p + tail + z && tail[|z|] == r[i];
    RotatedToFront(p, tail, z, g);
  }

  // ----- pools of candidates -----

  /** The same for the lists of one class and their bystanders. */
  lemma AloneSufficesIffNoRivals(pool: set<Detection>, c: int, thr: real)
    requires forall d :: d in pool ==> d.classId == c
    ensures (forall s :: Drawn(s, pool) ==> AloneSuffices(s, c, thr)) <==> NoRivals(pool, thr)
  {
    if NoRivals(pool, thr) {
      forall s | Drawn(s, pool) ensures AloneSuffices(s, c, thr) {
        NoRivalsQuiet(s, pool, thr);
        AloneSufficesIffQuiet(s, c, thr);
      }
    }
    if !NoRivals(pool, thr) {
      var x, y :| x in pool && y in pool && x.confidence == y.confidence && Conflict(x, y, thr) && x != y;
      var z := x.(classId := c + 1, confidence := x.confidence + 1.0);
      IouSymmetric(x.bbox, y.bbox);
      BystanderSwaps(x, y, z, thr);
      assert multiset([x])[x] == 1 && multiset([y])[x] == 0;
      FilterThree(x, y, z);
      assert Drawn([x, y], pool) && !AloneSuffices([x, y], c, thr);
    }
  }

  /** A more confident bystander of another class makes the sort swap two rivals, and
      with them the survivor. */
  lemma BystanderSwaps(x: Detection, y: Detection, z: Detection, thr: real)
    requires x.confidence == y.confidence < z.confidence
    requires x.classId == y.classId != z.classId && Conflict(x, y, thr) && Conflict(y, x, thr)
    ensures Filter(Run([x, y, z], thr), OfClass(x.classId)) == [y]
    ensures Run(Filter([x, y, z], OfClass(x.classId)), thr) == [x]
  {
    hide SelectFrom, Kernel, Filter, Conflict;
    BystanderFirst(x, y, z);
    KernelByClass([z, y, x], thr, x.classId);
    FilterThree(x, y, z);
    SelectionKeepsSorted([y, x], 0, Confidence);
    RivalsRun(y, x, thr);
    RivalsRun(x, y, thr);
  }

  lemma BystanderFirst(x: Detection, y: Detection, z: Detection)
    requires x.confidence == y.confidence < z.confidence
    ensures SelectFrom([x, y, z], 0, Confidence) == [z, y, x]
  {
    var s, t := [x, y, z], [z, y, x];
    assert MaxIndex(s, Confidence, 0, 1) == 0;
    assert MaxIndex(s, Confidence, 0, 2) == 0;
    assert MaxIndex(s, Confidence, 0, 3) == 2;
    assert Swapped(s, 0, 2) == t;
    SelectionKeepsSorted(t, 1, Confidence);
  }

  lemma FilterThree(x: Detection, y: Detection, z: Detection)
    requires x.classId == y.classId != z.classId
    ensures Filter([x, y, z], OfClass(x.classId)) == [x, y]
    ensures Filter([z, y, x], OfClass(x.classId)) == [y, x]
  {
    var p := OfClass(x.classId);
    assert [x, y, z][..2] == [x, y] && [x, y][..1] == [x] && [x][..0] == [];
    assert Filter([x], p) == [x] && Filter([x, y], p) == [x, y];
    assert [z, y, x][..2] == [z, y] && [z, y][..1] == [z] && [z][..0] == [];
    assert Filter([z], p) == [] && Filter([z, y], p) == [y];
  }

  /** One such input: two boxes shifted by a pixel, tied at 0.9, and a bystander at 0.95. */
  lemma TiedBoxes()
    ensures var x := Detection(0, 0.0, 2, 0.9, BBox(0.0, 0.0, 10.0, 10.0), -1);
      var y := Detection(0, 0.0, 2, 0.9, BBox(1.0, 0.0, 10.0, 10.0), -1);
      var z := Detection(0, 0.0, 7, 0.95, BBox(0.0, 0.0, 10.0, 10.0), -1);
      && Filter(Run([x, y, z], 0.5), OfClass(2)) == [y]
      && Run(Filter([x, y, z], OfClass(2)), 0.5) == [x]
  {
    var x := Detection(0, 0.0, 2, 0.9, BBox(0.0, 0.0, 10.0, 10.0), -1);
    var y := Detection(0, 0.0, 2, 0.9, BBox(1.0, 0.0, 10.0, 10.0), -1);
    var z := Detection(0, 0.0, 7, 0.95, BBox(0.0, 0.0, 10.0, 10.0), -1);
    assert Overlap(x.bbox, y.bbox) == 90.0;
    assert Iou(x.bbox, y.bbox) == 90.0 / 110.0;
    IouSymmetric(x.bbox, y.bbox);
    BystanderSwaps(x, y, z, 0.5);
  }
}
