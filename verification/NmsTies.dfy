/** When does the outcome of suppression depend on the order of its input? The sort
    is not stable, so ties in confidence can matter; they do exactly when two different
    tied candidates conflict and nobody more confident has beaten either. */
module NmsTies {
  import opened Types
  import opened Geometry
  import opened Sequences
  import opened Sorting
  import opened Nms

  /** Some strictly more confident survivor conflicts with d. */
  ghost predicate Beaten(kept: seq<Detection>, d: Detection, thr: real)
  {
    exists e :: e in kept && e.confidence > d.confidence && Conflict(e, d, thr)
  }

  /** Two different candidates tie at confidence c and conflict. */
  ghost predicate Rivals(x: Detection, y: Detection, c: real, thr: real)
  {
    x.confidence == c && y.confidence == c && Conflict(x, y, thr) && x != y
  }

  /** Of any two rivals at confidence c one is beaten, so they do not get to compete. */
  ghost predicate SettledAt(s: seq<Detection>, kept: seq<Detection>, c: real, thr: real)
  {
    forall x, y :: x in s && y in s && Rivals(x, y, c, thr) ==> Beaten(kept, x, thr) || Beaten(kept, y, thr)
  }

  function Exceeds(c: real): Detection -> bool { (d: Detection) => d.confidence > c }

  /** The candidates strictly more confident than c, in the order given. */
  function Stronger(s: seq<Detection>, c: real): seq<Detection> { Filter(s, Exceeds(c)) }

  /** Of any two rivals one is beaten by a survivor of the candidates more confident than
      they are, taken alone: a condition to be read level by level from the top. */
  ghost predicate Quiet(s: seq<Detection>, thr: real)
  {
    forall c :: SettledAt(s, Run(Stronger(s, c), thr), c, thr)
  }

  /** The same, told by the survivors of the whole list. */
  ghost predicate SettledByAll(s: seq<Detection>, thr: real)
  {
    forall c :: SettledAt(s, Run(s, thr), c, thr)
  }

  /** How often a value survives, told without reference to positions. */
  ghost function Survivors(s: seq<Detection>, kept: seq<Detection>, d: Detection, thr: real): nat
  {
    if d !in s || Beaten(kept, d, thr) then 0
    else if Conflict(d, d, thr) then 1
    else multiset(s)[d]
  }

  // ----- counting the survivors -----

  lemma LastIsLeast(s: seq<Detection>)
    requires Descending(s, Confidence) && s != []
    ensures forall e :: e in s ==> e.confidence >= s[|s| - 1].confidence
  {
    forall e | e in s ensures e.confidence >= s[|s| - 1].confidence {
      var q :| 0 <= q < |s| && s[q] == e;
      assert q < |s| - 1 ==> Confidence(s[q]) >= Confidence(s[|s| - 1]);
    }
  }

  /** A survivor added at the end beats nobody at its own confidence or above. */
  lemma BeatenByLast(kept: seq<Detection>, x: Detection, d: Detection, thr: real)
    requires x.confidence <= d.confidence
    ensures Beaten(kept + [x], d, thr) == Beaten(kept, d, thr)
  {
    if Beaten(kept, d, thr) {
      var e :| e in kept && e.confidence > d.confidence && Conflict(e, d, thr);
      assert e in kept + [x];
    }
  }

  lemma {:induction false} BeatenBefore(s: seq<Detection>, d: Detection, thr: real)
    requires s != [] && s[|s| - 1].confidence <= d.confidence
    ensures Beaten(Kernel(s, thr), d, thr) == Beaten(Kernel(s[..|s| - 1], thr), d, thr)
  {
    BeatenByLast(Kernel(s[..|s| - 1], thr), s[|s| - 1], d, thr);
  }

  lemma {:induction false} SettledBefore(s: seq<Detection>, c: real, thr: real)
    requires s != [] && s[|s| - 1].confidence <= c && SettledAt(s, Kernel(s, thr), c, thr)
    ensures SettledAt(s[..|s| - 1], Kernel(s[..|s| - 1], thr), c, thr)
  {
    hide Beaten, Conflict;
    var s' := s[..|s| - 1];
    forall x, y | x in s' && y in s' && Rivals(x, y, c, thr)
      ensures Beaten(Kernel(s', thr), x, thr) || Beaten(Kernel(s', thr), y, thr)
    {
      BeatenBefore(s, x, thr);
      BeatenBefore(s, y, thr);
    }
  }

  lemma {:induction false} SurvivorUnbeaten(s: seq<Detection>, k: Detection, thr: real)
    requires Descending(s, Confidence) && k in Kernel(s, thr)
    ensures !Beaten(Kernel(s, thr), k, thr)
  {
    KernelConflictFree(s, thr);
    if Beaten(Kernel(s, thr), k, thr) {
      var e :| e in Kernel(s, thr) && e.confidence > k.confidence && Conflict(e, k, thr);
      StrongerSpares(Kernel(s, thr), e, k, thr);
    }
  }

  lemma StrongerSpares(kept: seq<Detection>, e: Detection, k: Detection, thr: real)
    requires Descending(kept, Confidence) && ConflictFree(kept, thr)
    requires e in kept && k in kept && e.confidence > k.confidence
    ensures !Conflict(e, k, thr)
  {
    hide Conflict;
    var a :| 0 <= a < |kept| && kept[a] == e;
    var b :| 0 <= b < |kept| && kept[b] == k;
    assert Confidence(kept[a]) > Confidence(kept[b]);
  }

  /** Where rivals do not compete, the last entry falls only to a stronger survivor or to
      a copy of itself. */
  lemma {:induction false} LastSuppressed(s: seq<Detection>, thr: real)
    requires s != [] && Descending(s, Confidence)
    requires SettledAt(s, Kernel(s, thr), s[|s| - 1].confidence, thr)
    ensures var kept, x := Kernel(s[..|s| - 1], thr), s[|s| - 1];
      Suppressed(kept, x, thr) == (Beaten(kept, x, thr) || (x in kept && Conflict(x, x, thr)))
  {
    var s', x := s[..|s| - 1], s[|s| - 1];
    var kept := Kernel(s', thr);
    LastIsLeast(s);
    KernelMembers(s', thr);
    if Suppressed(kept, x, thr) {
      var i :| 0 <= i < |kept| && Conflict(kept[i], x, thr);
      var k := kept[i];
      assert k in s' && k in s;
      if k.confidence == x.confidence && k != x {
        assert Rivals(k, x, x.confidence, thr);
        SurvivorUnbeaten(s', k, thr);
        BeatenBefore(s, k, thr);
        BeatenBefore(s, x, thr);
      }
    }
  }

  lemma CountStep(s: seq<Detection>, x: Detection, kept: seq<Detection>, d: Detection, thr: real)
    requires x.confidence <= d.confidence
    requires d == x ==> Suppressed(kept, x, thr) == (Beaten(kept, x, thr) || (x in kept && Conflict(x, x, thr)))
    requires multiset(kept)[d] == Survivors(s, kept, d, thr)
    ensures var after := if Suppressed(kept, x, thr) then kept else kept + [x];
      multiset(after)[d] == Survivors(s + [x], after, d, thr)
  {
    BeatenByLast(kept, x, d, thr);
    hide Beaten, Conflict, Suppressed;
    assert d in kept <==> multiset(kept)[d] > 0;
    assert multiset(s + [x])[d] == multiset(s)[d] + if d == x then 1 else 0;
    assert d in s <==> multiset(s)[d] > 0;
    assert d in s + [x] <==> d in s || d == x;
  }

  lemma {:induction false} KernelCount(s: seq<Detection>, thr: real, d: Detection)
    requires Descending(s, Confidence) && SettledAt(s, Kernel(s, thr), d.confidence, thr)
    ensures multiset(Kernel(s, thr))[d] == Survivors(s, Kernel(s, thr), d, thr)
  {
    if s != [] {
      hide SettledAt, Beaten, Conflict, Suppressed;
      var s', x := s[..|s| - 1], s[|s| - 1];
      SplitLast(s);
      KernelMembers(s, thr);
      LastIsLeast(s);
      if x.confidence <= d.confidence {
        SettledBefore(s, d.confidence, thr);
        KernelCount(s', thr, d);
        if d == x {
          LastSuppressed(s, thr);
        }
        CountStep(s', x, Kernel(s', thr), d, thr);
      } else {
        assert d !in Kernel(s, thr);
      }
    }
  }

  // ----- sorted rearrangements -----

  /** Whether a candidate is beaten is settled by the more confident ones alone. */
  lemma {:induction false} SameBeaten(s: seq<Detection>, t: seq<Detection>, thr: real, k: nat)
    requires Descending(s, Confidence) && Descending(t, Confidence) && Permutation(s, t)
    requires forall c :: SettledAt(s, Kernel(s, thr), c, thr)
    requires k < |s|
    ensures forall x: Detection :: x.confidence == s[k].confidence ==>
      Beaten(Kernel(s, thr), x, thr) == Beaten(Kernel(t, thr), x, thr)
    decreases k
  {
    PermutationLength(s, t);
    KernelMembers(s, thr);
    KernelMembers(t, thr);
    forall e | e in s && e.confidence > s[k].confidence ensures e in Kernel(s, thr) <==> e in Kernel(t, thr) {
      var i :| 0 <= i < |s| && s[i] == e;
      assert i < k by {
        assert Confidence(s[i]) > Confidence(s[k]);
      }
      SameBeaten(s, t, thr, i);
      SameCount(s, t, thr, e);
      assert e in Kernel(s, thr) <==> multiset(Kernel(s, thr))[e] > 0;
      assert e in Kernel(t, thr) <==> multiset(Kernel(t, thr))[e] > 0;
    }
  }

  lemma {:induction false} SameCount(s: seq<Detection>, t: seq<Detection>, thr: real, d: Detection)
    requires Descending(s, Confidence) && Descending(t, Confidence) && Permutation(s, t)
    requires SettledAt(s, Kernel(s, thr), d.confidence, thr)
    requires forall x: Detection :: x.confidence == d.confidence ==>
      Beaten(Kernel(s, thr), x, thr) == Beaten(Kernel(t, thr), x, thr)
    ensures multiset(Kernel(s, thr))[d] == multiset(Kernel(t, thr))[d]
  {
    hide Beaten, Conflict;
    PermutationLength(s, t);
    assert SettledAt(t, Kernel(t, thr), d.confidence, thr);
    KernelCount(s, thr, d);
    KernelCount(t, thr, d);
  }

  lemma {:induction false} SortedKernelsAgree(s: seq<Detection>, t: seq<Detection>, thr: real)
    requires Descending(s, Confidence) && Descending(t, Confidence) && Permutation(s, t)
    requires forall c :: SettledAt(s, Kernel(s, thr), c, thr)
    ensures Permutation(Kernel(s, thr), Kernel(t, thr))
  {
    hide SettledAt, Beaten;
    PermutationLength(s, t);
    KernelMembers(s, thr);
    KernelMembers(t, thr);
    forall d: Detection ensures multiset(Kernel(s, thr))[d] == multiset(Kernel(t, thr))[d] {
      if d in s {
        var k :| 0 <= k < |s| && s[k] == d;
        SameBeaten(s, t, thr, k);
        SameCount(s, t, thr, d);
      } else {
        assert d !in Kernel(s, thr) && d !in Kernel(t, thr);
      }
    }
    assert multiset(Kernel(s, thr)) == multiset(Kernel(t, thr));
  }

  lemma {:induction false} SettledSorted(s: seq<Detection>, thr: real)
    requires SettledByAll(s, thr)
    ensures Permutation(s, SelectFrom(s, 0, Confidence)) && Descending(SelectFrom(s, 0, Confidence), Confidence)
    ensures forall c :: SettledAt(SelectFrom(s, 0, Confidence), Kernel(SelectFrom(s, 0, Confidence), thr), c, thr)
  {
    hide Beaten, Conflict;
    var sorted := SelectFrom(s, 0, Confidence);
    SelectionSorts(s, 0, Confidence);
    PermutationLength(s, sorted);
    forall c ensures SettledAt(sorted, Kernel(sorted, thr), c, thr) {
      assert SettledAt(s, Run(s, thr), c, thr);
    }
  }

  // ----- rivals that do compete -----

  /** Where the sorted candidates above confidence c end. */
  lemma LevelStart(s: seq<Detection>, c: real) returns (m: nat)
    requires Descending(s, Confidence)
    ensures m <= |s|
    ensures forall p :: 0 <= p < m ==> s[p].confidence > c
    ensures forall q :: m <= q < |s| ==> s[q].confidence <= c
  {
    m := |s|;
    if s != [] && s[|s| - 1].confidence <= c {
      m := LevelStart(s[..|s| - 1], c);
    } else {
      forall p | 0 <= p < |s| ensures s[p].confidence > c {
        assert p < |s| - 1 ==> Confidence(s[p]) >= Confidence(s[|s| - 1]);
      }
    }
  }

  lemma {:induction false} KernelGrows(s: seq<Detection>, m: nat, thr: real)
    requires m <= |s|
    ensures forall d :: d in Kernel(s[..m], thr) ==> d in Kernel(s, thr)
  {
    if m < |s| {
      assert s[..|s| - 1][..m] == s[..m];
      KernelGrows(s[..|s| - 1], m, thr);
    } else {
      assert s[..m] == s;
    }
  }

  lemma {:induction false} SuppressedIsBeaten(s: seq<Detection>, m: nat, x: Detection, thr: real)
    requires m <= |s| && forall p :: 0 <= p < m ==> s[p].confidence > x.confidence
    requires Suppressed(Kernel(s[..m], thr), x, thr)
    ensures Beaten(Kernel(s, thr), x, thr)
  {
    hide Conflict;
    var above := Kernel(s[..m], thr);
    KernelGrows(s, m, thr);
    KernelMembers(s[..m], thr);
    var i :| 0 <= i < |above| && Conflict(above[i], x, thr);
    assert above[i] in above && above[i] in s[..m];
  }

  /** An unbeaten candidate survives in any order that puts it first at its confidence. */
  lemma {:induction false} FirstOfLevel(s: seq<Detection>, t: seq<Detection>, m: nat, x: Detection, thr: real)
    requires m <= |s| && m < |t| && t[..m] == s[..m] && t[m] == x
    requires forall p :: 0 <= p < m ==> s[p].confidence > x.confidence
    requires !Beaten(Kernel(s, thr), x, thr)
    ensures x in Kernel(t, thr)
  {
    hide Beaten, Suppressed;
    var above := Kernel(s[..m], thr);
    if Suppressed(above, x, thr) {
      SuppressedIsBeaten(s, m, x, thr);
    }
    assert t[..m + 1][..m] == s[..m] && t[..m + 1][m] == x;
    assert Kernel(t[..m + 1], thr) == above + [x];
    KernelGrows(t, m + 1, thr);
  }

  lemma {:induction false} RivalLoses(t: seq<Detection>, x: Detection, y: Detection, thr: real)
    requires Descending(t, Confidence) && x in Kernel(t, thr) && Conflict(x, y, thr) && x != y
    ensures y !in Kernel(t, thr)
  {
    KernelConflictFree(t, thr);
    ConflictSymmetric(x, y, thr);
    if y in Kernel(t, thr) {
      SurvivorsApart(Kernel(t, thr), x, y, thr);
    }
  }

  lemma ConflictSymmetric(x: Detection, y: Detection, thr: real)
    ensures Conflict(x, y, thr) == Conflict(y, x, thr)
  {
    hide Iou;
    IouSymmetric(x.bbox, y.bbox);
  }

  lemma SurvivorsApart(kept: seq<Detection>, x: Detection, y: Detection, thr: real)
    requires ConflictFree(kept, thr) && x in kept && y in kept && x != y
    ensures !Conflict(x, y, thr) || !Conflict(y, x, thr)
  {
    hide Conflict;
    var a :| 0 <= a < |kept| && kept[a] == x;
    var b :| 0 <= b < |kept| && kept[b] == y;
    if a < b {
      assert !Conflict(kept[a], kept[b], thr);
    } else {
      assert !Conflict(kept[b], kept[a], thr);
    }
  }

  /** A sorted list rearranged, still sorted, so that x comes first at its confidence. */
  lemma Lead(s: seq<Detection>, x: Detection, thr: real) returns (t: seq<Detection>)
    requires Descending(s, Confidence) && x in s && !Beaten(Kernel(s, thr), x, thr)
    ensures Permutation(s, t) && Descending(t, Confidence) && x in Kernel(t, thr)
  {
    hide Descending, Beaten, Kernel;
    var m := LevelStart(s, x.confidence);
    var i :| 0 <= i < |s| && s[i] == x;
    t := s[..m] + [s[i]] + s[m..i] + s[i + 1..];
    LeadPermutes(s, m, i);
    LeadSorted(s, m, i, t);
    FirstOfLevel(s, t, m, x, thr);
  }

  lemma LeadPermutes(s: seq<Detection>, m: nat, i: nat)
    requires m <= i < |s|
    ensures Permutation(s, s[..m] + [s[i]] + s[m..i] + s[i + 1..])
  {
    var above, level, below := s[..m], s[m..i], s[i + 1..];
    assert s == above + level + [s[i]] + below;
    assert multiset(above + level + [s[i]] + below) == multiset(above + [s[i]] + level + below);
  }

  lemma LeadSorted(s: seq<Detection>, m: nat, i: nat, t: seq<Detection>)
    requires Descending(s, Confidence) && m <= i < |s| && t == s[..m] + [s[i]] + s[m..i] + s[i + 1..]
    requires forall q :: m <= q < |s| ==> s[q].confidence <= s[i].confidence
    ensures Descending(t, Confidence)
  {
    forall p, q | 0 <= p < q < |t| ensures Confidence(t[p]) >= Confidence(t[q]) {
      var a := if p < m then p else if p == m then i else if p <= i then p - 1 else p;
      var b := if q < m then q else if q == m then i else if q <= i then q - 1 else q;
      assert t[p] == s[a] && t[q] == s[b];
      assert a < b ==> Confidence(s[a]) >= Confidence(s[b]);
    }
  }

  // ----- level by level -----

  /** Survivors above c do not need the candidates at c and below. */
  lemma {:induction false} KernelShrinks(s: seq<Detection>, m: nat, c: real, thr: real)
    requires m <= |s| && forall q :: m <= q < |s| ==> s[q].confidence <= c
    ensures forall d :: d in Kernel(s, thr) && d.confidence > c ==> d in Kernel(s[..m], thr)
  {
    if m < |s| {
      assert s[..|s| - 1][..m] == s[..m];
      KernelShrinks(s[..|s| - 1], m, c, thr);
    } else {
      assert s[..m] == s;
    }
  }

  /** Of a sorted list the candidates above c come first, and their survivors beat the same
      candidates at c and above as those of the whole list. */
  lemma {:induction false} StrongerBeat(s: seq<Detection>, c: real, thr: real)
    requires Descending(s, Confidence)
    ensures Descending(Stronger(s, c), Confidence)
    ensures forall x: Detection :: x.confidence >= c ==>
      Beaten(Kernel(Stronger(s, c), thr), x, thr) == Beaten(Kernel(s, thr), x, thr)
  {
    hide Conflict, Stronger;
    var m := StrongerLead(s, c);
    KernelGrows(s, m, thr);
    KernelShrinks(s, m, c, thr);
  }

  lemma StrongerLead(s: seq<Detection>, c: real) returns (m: nat)
    requires Descending(s, Confidence)
    ensures m <= |s| && Stronger(s, c) == s[..m] && forall q :: m <= q < |s| ==> s[q].confidence <= c
  {
    hide Descending;
    m := LevelStart(s, c);
    FilterAll(s[..m], Exceeds(c));
    FilterNone(s[m..], Exceeds(c));
    FilterConcat(s[..m], s[m..], Exceeds(c));
    assert s == s[..m] + s[m..];
  }

  ghost predicate AllSettled(s: seq<Detection>, thr: real)
  {
    forall f :: SettledAt(s, Kernel(s, thr), f, thr)
  }

  /** Where the stronger candidates of the sorted list are settled, they may be sorted on
      their own: the same survivors beat the same candidates. */
  lemma {:induction false} StrongerSorted(s: seq<Detection>, c: real, thr: real)
    requires AllSettled(Stronger(SelectFrom(s, 0, Confidence), c), thr) || SettledByAll(Stronger(s, c), thr)
    ensures forall x: Detection :: x.confidence == c ==>
      Beaten(Run(Stronger(s, c), thr), x, thr) == Beaten(Run(s, thr), x, thr)
  {
    hide Beaten, SettledAt, SettledByAll, Stronger;
    var sorted, t := SelectFrom(s, 0, Confidence), Stronger(s, c);
    var p, q := Stronger(sorted, c), SelectFrom(t, 0, Confidence);
    SelectionSorts(s, 0, Confidence);
    SelectionSorts(t, 0, Confidence);
    StrongerPermutes(s, sorted, c);
    StrongerBeat(sorted, c, thr);
    if SettledByAll(t, thr) {
      SettledSorted(t, thr);
      SortedKernelsAgree(q, p, thr);
    } else {
      assert forall f :: SettledAt(p, Kernel(p, thr), f, thr);
      SortedKernelsAgree(p, q, thr);
    }
    PermutationLength(Kernel(p, thr), Kernel(q, thr));
    SameBeaters(Kernel(p, thr), Kernel(q, thr), thr);
  }

  lemma StrongerPermutes(s: seq<Detection>, t: seq<Detection>, c: real)
    requires Permutation(s, t)
    ensures Permutation(Stronger(s, c), Stronger(t, c))
  {
    FilterPermutation(s, t, Exceeds(c));
  }

  lemma SameBeaters(a: seq<Detection>, b: seq<Detection>, thr: real)
    requires forall d :: d in a <==> d in b
    ensures forall x :: Beaten(a, x, thr) == Beaten(b, x, thr)
  {
    hide Conflict;
  }

  lemma SettledIsQuiet(s: seq<Detection>, thr: real)
    requires SettledByAll(s, thr)
    ensures Quiet(s, thr)
  {
    hide Beaten, Conflict, Stronger;
    SettledSorted(s, thr);
    var sorted := SelectFrom(s, 0, Confidence);
    forall c ensures SettledAt(s, Run(Stronger(s, c), thr), c, thr) {
      StrongerSettled(sorted, c, thr);
      StrongerSorted(s, c, thr);
      assert SettledAt(s, Run(s, thr), c, thr);
    }
  }

  lemma {:induction false} StrongerSettled(s: seq<Detection>, c: real, thr: real)
    requires Descending(s, Confidence) && forall f :: SettledAt(s, Kernel(s, thr), f, thr)
    ensures AllSettled(Stronger(s, c), thr)
  {
    hide Beaten, Conflict;
    var p := Stronger(s, c);
    FilterMember(s, Exceeds(c));
    StrongerBeat(s, c, thr);
    forall f ensures SettledAt(p, Kernel(p, thr), f, thr) {
      assert SettledAt(s, Kernel(s, thr), f, thr);
    }
  }

  lemma QuietIsSettled(s: seq<Detection>, thr: real)
    requires Quiet(s, thr)
    ensures SettledByAll(s, thr)
    decreases |s|
  {
    hide Beaten, Conflict, Stronger;
    forall c ensures SettledAt(s, Run(s, thr), c, thr) {
      if x, y :| x in s && y in s && Rivals(x, y, c, thr) {
        assert SettledAt(s, Run(Stronger(s, c), thr), c, thr);
        StrongerShorter(s, c, x);
        StrongerQuiet(s, c, thr);
        QuietIsSettled(Stronger(s, c), thr);
        StrongerSorted(s, c, thr);
      }
    }
  }

  lemma StrongerShorter(s: seq<Detection>, c: real, x: Detection)
    requires x in s && x.confidence <= c
    ensures |Stronger(s, c)| < |s|
  {
    FilterShorter(s, Exceeds(c), x);
  }

  lemma StrongerQuiet(s: seq<Detection>, c: real, thr: real)
    requires Quiet(s, thr)
    ensures Quiet(Stronger(s, c), thr)
  {
    hide Beaten, Conflict;
    var t := Stronger(s, c);
    FilterMember(s, Exceeds(c));
    forall f ensures SettledAt(t, Run(Stronger(t, f), thr), f, thr) {
      if f >= c {
        FilterTwice(s, Exceeds(c), Exceeds(f));
        assert SettledAt(s, Run(Stronger(s, f), thr), f, thr);
      }
    }
  }

  /** Reading the condition off the stronger candidates alone or off the survivors of the
      whole list comes to the same. */
  lemma QuietIffSettled(s: seq<Detection>, thr: real)
    ensures Quiet(s, thr) <==> SettledByAll(s, thr)
  {
    hide Quiet, SettledByAll;
    if SettledByAll(s, thr) {
      SettledIsQuiet(s, thr);
    }
    if Quiet(s, thr) {
      QuietIsSettled(s, thr);
    }
  }

  // ----- order independence -----

  ghost predicate OrderFree(s: seq<Detection>, thr: real)
  {
    forall t :: Permutation(s, t) ==> Permutation(Run(s, thr), Run(t, thr))
  }

  lemma SettledIsOrderFree(s: seq<Detection>, thr: real)
    requires SettledByAll(s, thr)
    ensures OrderFree(s, thr)
  {
    hide SettledByAll, SettledAt;
    SettledSorted(s, thr);
    forall t | Permutation(s, t) ensures Permutation(Run(s, thr), Run(t, thr)) {
      SelectionSorts(t, 0, Confidence);
      SortedKernelsAgree(SelectFrom(s, 0, Confidence), SelectFrom(t, 0, Confidence), thr);
    }
  }

  /** Two rivals of the list, neither of them beaten. */
  ghost predicate Compete(s: seq<Detection>, x: Detection, y: Detection, thr: real)
  {
    && x in s && y in s && Rivals(x, y, x.confidence, thr)
    && !Beaten(Run(s, thr), x, thr) && !Beaten(Run(s, thr), y, thr)
  }

  lemma CompetingRivals(s: seq<Detection>, thr: real) returns (x: Detection, y: Detection)
    requires !SettledByAll(s, thr)
    ensures Compete(s, x, y, thr) && Compete(s, y, x, thr)
  {
    hide Beaten, Conflict;
    var c :| !SettledAt(s, Run(s, thr), c, thr);
    x, y :| x in s && y in s && Rivals(x, y, c, thr) && !Beaten(Run(s, thr), x, thr) && !Beaten(Run(s, thr), y, thr);
    ConflictSymmetric(x, y, thr);
  }

  /** Every reordering of a list leaves the same survivors exactly when no two rivals in
      it are both unbeaten. */
  lemma OrderFreeIffQuiet(s: seq<Detection>, thr: real)
    ensures OrderFree(s, thr) <==> Quiet(s, thr)
  {
    hide OrderFree, SettledByAll, Quiet, Compete;
    QuietIffSettled(s, thr);
    if SettledByAll(s, thr) {
      SettledIsOrderFree(s, thr);
    } else {
      var x, y := CompetingRivals(s, thr);
      RivalsMatter(s, x, y, thr);
    }
  }

  lemma RivalsMatter(s: seq<Detection>, x: Detection, y: Detection, thr: real)
    requires Compete(s, x, y, thr) && Compete(s, y, x, thr)
    ensures !OrderFree(s, thr)
  {
    var t := Favoured(s, x, y, thr);
    var u := Favoured(s, y, x, thr);
    if OrderFree(s, thr) {
      PermutationLength(Run(s, thr), Run(t, thr));
      PermutationLength(Run(s, thr), Run(u, thr));
    }
  }

  /** A reordering in which x survives and its rival does not. */
  lemma Favoured(s: seq<Detection>, x: Detection, y: Detection, thr: real) returns (t: seq<Detection>)
    requires Compete(s, x, y, thr)
    ensures Permutation(s, t) && x in Run(t, thr) && y !in Run(t, thr)
  {
    hide Beaten, Conflict;
    var sorted := SelectFrom(s, 0, Confidence);
    SelectionSorts(s, 0, Confidence);
    PermutationLength(s, sorted);
    t := Lead(sorted, x, thr);
    SelectionKeepsSorted(t, 0, Confidence);
    RivalLoses(t, x, y, thr);
  }

  // ----- pools of candidates -----

  /** No two different candidates of a pool tie in confidence and conflict. */
  ghost predicate NoRivals(pool: set<Detection>, thr: real)
  {
    forall x, y :: x in pool && y in pool && x.confidence == y.confidence && Conflict(x, y, thr) ==> x == y
  }

  ghost predicate Drawn(s: seq<Detection>, pool: set<Detection>)
  {
    forall d :: d in s ==> d in pool
  }

  /** Of two rivals the one listed first survives alone. */
  lemma RivalsRun(x: Detection, y: Detection, thr: real)
    requires x.confidence == y.confidence && Conflict(x, y, thr)
    ensures Run([x, y], thr) == [x]
  {
    SelectionKeepsSorted([x, y], 0, Confidence);
    assert [x, y][..1] == [x] && [x][..0] == [];
    assert Kernel([x], thr) == [x];
    assert Suppressed([x], y, thr) by {
      assert Conflict([x][0], y, thr);
    }
  }

  lemma NoRivalsQuiet(s: seq<Detection>, pool: set<Detection>, thr: real)
    requires Drawn(s, pool) && NoRivals(pool, thr)
    ensures Quiet(s, thr)
  {
    hide Beaten, Conflict;
  }

  /** Every list drawn from a pool is free of order exactly when the pool holds no rivals. */
  lemma OrderFreeIffNoRivals(pool: set<Detection>, thr: real)
    ensures (forall s :: Drawn(s, pool) ==> OrderFree(s, thr)) <==> NoRivals(pool, thr)
  {
    if NoRivals(pool, thr) {
      forall s | Drawn(s, pool) ensures OrderFree(s, thr) {
        NoRivalsQuiet(s, pool, thr);
        OrderFreeIffQuiet(s, thr);
      }
    }
    if !NoRivals(pool, thr) {
      var x, y :| x in pool && y in pool && x.confidence == y.confidence && Conflict(x, y, thr) && x != y;
      IouSymmetric(x.bbox, y.bbox);
      RivalsRun(x, y, thr);
      RivalsRun(y, x, thr);
      assert Permutation([x, y], [y, x]);
      assert multiset([x])[x] == 1 && multiset([y])[x] == 0;
      assert Drawn([x, y], pool) && !OrderFree([x, y], thr);
    }
  }
}
