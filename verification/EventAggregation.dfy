/** What one event says about its group. */
module EventAggregation {
  import opened Types
  import opened Geometry
  import opened Sequences
  import opened Events

  function ScoreOf(c: Candidate): real { c.score }
  function OverlapOf(c: Candidate): real { c.overlap }
  function SpeedOf(c: Candidate): real { c.speedDelta }
  function DirectionOf(c: Candidate): real { c.directionDelta }
  function ProximityOf(c: Candidate): real { c.proximity }
  function Left(c: Candidate): real { c.region.x }
  function Top(c: Candidate): real { c.region.y }
  function Right(c: Candidate): real { c.region.x + c.region.w }
  function Bottom(c: Candidate): real { c.region.y + c.region.h }

  ghost predicate Largest(v: real, ms: seq<Candidate>, f: Candidate -> real)
  {
    && (exists c :: c in ms && f(c) == v)
    && (forall c :: c in ms ==> f(c) <= v)
  }

  ghost predicate Smallest(v: real, ms: seq<Candidate>, f: Candidate -> real)
  {
    && (exists c :: c in ms && f(c) == v)
    && (forall c :: c in ms ==> f(c) >= v)
  }

  /** The group state, told without reference to the order of collection, except that
      the last candidate gives the end. */
  ghost predicate Summarises(g: Group, ms: seq<Candidate>)
    requires ms != []
  {
    && g.endFrame == ms[|ms| - 1].frame && g.endMs == ms[|ms| - 1].timestamp
    && g.count == |ms|
    && Largest(g.maxScore, ms, ScoreOf)
    && g.sumOverlap == Sum(ms, OverlapOf) && g.sumSpeed == Sum(ms, SpeedOf)
    && g.sumDirection == Sum(ms, DirectionOf) && g.sumProximity == Sum(ms, ProximityOf)
    && Smallest(g.x, ms, Left) && Smallest(g.y, ms, Top)
    && Largest(g.x2, ms, Right) && Largest(g.y2, ms, Bottom)
  }

  lemma LargestStep(v: real, ms: seq<Candidate>, c: Candidate, f: Candidate -> real)
    requires Largest(v, ms, f)
    ensures Largest(if f(c) > v then f(c) else v, ms + [c], f)
  {
    var d :| d in ms && f(d) == v;
    assert c in ms + [c] && d in ms + [c];
  }

  lemma SmallestStep(v: real, ms: seq<Candidate>, c: Candidate, f: Candidate -> real)
    requires Smallest(v, ms, f)
    ensures Smallest(if f(c) < v then f(c) else v, ms + [c], f)
  {
    var d :| d in ms && f(d) == v;
    assert c in ms + [c] && d in ms + [c];
  }

  lemma SeedSummarises(c: Candidate)
    ensures Summarises(Seed(c), [c])
  {
    hide Largest, Smallest;
    SingleExtremes(c, ScoreOf);
    SingleExtremes(c, Left);
    SingleExtremes(c, Top);
    SingleExtremes(c, Right);
    SingleExtremes(c, Bottom);
    SingleSum(c, OverlapOf);
    SingleSum(c, SpeedOf);
    SingleSum(c, DirectionOf);
    SingleSum(c, ProximityOf);
  }

  lemma SingleExtremes(c: Candidate, f: Candidate -> real)
    ensures Largest(f(c), [c], f) && Smallest(f(c), [c], f)
  {
    assert c in [c];
  }

  lemma SingleSum(c: Candidate, f: Candidate -> real)
    ensures Sum([c], f) == f(c)
  {
    assert [c][..0] == [];
  }

  lemma ExtendSummarises(g: Group, ms: seq<Candidate>, c: Candidate)
    requires ms != [] && Summarises(g, ms)
    ensures Summarises(Extend(g, c), ms + [c])
  {
    hide Largest, Smallest, Sum;
    LargestStep(g.maxScore, ms, c, ScoreOf);
    SmallestStep(g.x, ms, c, Left);
    SmallestStep(g.y, ms, c, Top);
    LargestStep(g.x2, ms, c, Right);
    LargestStep(g.y2, ms, c, Bottom);
    SumSnoc(ms, c, OverlapOf);
    SumSnoc(ms, c, SpeedOf);
    SumSnoc(ms, c, DirectionOf);
    SumSnoc(ms, c, ProximityOf);
  }

  lemma {:induction false} GatherSummarises(ms: seq<Candidate>)
    requires ms != []
    ensures Summarises(Gather(ms), ms)
  {
    hide Summarises, Extend, Seed;
    if |ms| == 1 {
      SeedSummarises(ms[0]);
      assert ms == [ms[0]];
    } else {
      var before, c := ms[..|ms| - 1], ms[|ms| - 1];
      GatherSummarises(before);
      ExtendSummarises(Gather(before), before, c);
      assert before + [c] == ms;
    }
  }

  // ----- means -----

  lemma {:induction false} SumBetween(ms: seq<Candidate>, f: Candidate -> real, lo: real, hi: real)
    requires forall c :: c in ms ==> lo <= f(c) <= hi
    ensures lo * |ms| as real <= Sum(ms, f) <= hi * |ms| as real
  {
    if ms != [] {
      SumBetween(ms[..|ms| - 1], f, lo, hi);
      assert |ms| as real == |ms[..|ms| - 1]| as real + 1.0;
    }
  }

  lemma QuotientBetween(x: real, n: real, lo: real, hi: real)
    requires n > 0.0 && lo * n <= x <= hi * n
    ensures lo <= x / n <= hi
  {
  }

  /** A mean lies between any bounds on what it averages. */
  lemma {:induction false} MeanBetween(ms: seq<Candidate>, f: Candidate -> real, lo: real, hi: real)
    requires ms != [] && forall c :: c in ms ==> lo <= f(c) <= hi
    ensures lo <= Sum(ms, f) / |ms| as real <= hi
  {
    SumBetween(ms, f, lo, hi);
    QuotientBetween(Sum(ms, f), |ms| as real, lo, hi);
  }

  // ----- one event -----

  ghost predicate SmallestBox(box: BBox, ms: seq<Candidate>)
  {
    && (forall c :: c in ms ==> Inside(c.region, box))
    && (forall outer :: (forall c :: c in ms ==> Inside(c.region, outer)) ==> Inside(box, outer))
  }

  lemma HullIsSmallestBox(g: Group, ms: seq<Candidate>)
    requires ms != [] && Summarises(g, ms)
    ensures SmallestBox(BBox(g.x, g.y, g.x2 - g.x, g.y2 - g.y), ms)
  {
    var box := BBox(g.x, g.y, g.x2 - g.x, g.y2 - g.y);
    forall c | c in ms ensures Inside(c.region, box) {
      assert Left(c) >= g.x && Top(c) >= g.y && Right(c) <= g.x2 && Bottom(c) <= g.y2;
    }
    forall outer | forall c :: c in ms ==> Inside(c.region, outer) ensures Inside(box, outer) {
      var l :| l in ms && Left(l) == g.x;
      var t :| t in ms && Top(t) == g.y;
      var r :| r in ms && Right(r) == g.x2;
      var b :| b in ms && Bottom(b) == g.y2;
    }
  }

  /** The event of a confirmed group: its frames are the group's first and last, its
      confidence the largest score, its region the smallest box around all regions,
      and its component scores the means over the group. */
  lemma {:induction false} EventIsExact(s: seq<Candidate>, window: int, i: nat, e: AccidentEvent)
    requires FrameSorted(s) && EventFor(s, window, i, e)
    ensures var ms := Members(s, window, i, |s|);
      && ms != []
      && (forall c :: c in ms ==> SameKey(c, s[i]) && e.startFrame <= c.frame <= e.endFrame)
      && (exists c :: c in ms && c.frame == e.startFrame && c.timestamp == e.startMs)
      && (exists c :: c in ms && c.frame == e.endFrame && c.timestamp == e.endMs)
      && Largest(e.confidence, ms, ScoreOf)
      && SmallestBox(e.region, ms)
      && e.overlap == Sum(ms, OverlapOf) / |ms| as real
      && e.speedChange == Sum(ms, SpeedOf) / |ms| as real
      && e.directionChange == Sum(ms, DirectionOf) / |ms| as real
      && e.proximity == Sum(ms, ProximityOf) / |ms| as real
  {
    hide SmallestBox, Largest, Smallest, Sum, Gather, EventOf, Summarises;
    var ms := Members(s, window, i, |s|);
    SeedIsFirst(s, window, i, |s|);
    GatherSummarises(ms);
    GatherCounts(ms);
    assert e == EventOf(s[i], Gather(ms));
    EventTold(s[i], Gather(ms), ms);
    GroupSpan(s, window, i);
    assert ms[0] in ms && ms[|ms| - 1] in ms;
  }

  lemma {:induction false} EventTold(c: Candidate, g: Group, ms: seq<Candidate>)
    requires ms != [] && Summarises(g, ms) && g.count == |ms|
    ensures var e := EventOf(c, g);
      && e.startFrame == c.frame && e.startMs == c.timestamp
      && e.endFrame == ms[|ms| - 1].frame && e.endMs == ms[|ms| - 1].timestamp
      && Largest(e.confidence, ms, ScoreOf)
      && SmallestBox(e.region, ms)
      && e.overlap == Sum(ms, OverlapOf) / |ms| as real
      && e.speedChange == Sum(ms, SpeedOf) / |ms| as real
      && e.directionChange == Sum(ms, DirectionOf) / |ms| as real
      && e.proximity == Sum(ms, ProximityOf) / |ms| as real
  {
    hide SmallestBox, Largest, Smallest, Sum;
    HullIsSmallestBox(g, ms);
  }

  lemma {:induction false} GroupSpan(s: seq<Candidate>, window: int, i: nat)
    requires FrameSorted(s) && i < |s| && Root(s, window, i) == i
    ensures var ms := Members(s, window, i, |s|);
      ms != [] && forall c :: c in ms ==> SameKey(c, s[i]) && s[i].frame <= c.frame <= ms[|ms| - 1].frame
  {
    hide Root, Members, SameKey, InGroup;
    var ms := Members(s, window, i, |s|);
    SeedIsFirst(s, window, i, |s|);
    MembersSorted(s, window, i, |s|);
    MembersAre(s, window, i, |s|);
    forall c | c in ms ensures SameKey(c, s[i]) && s[i].frame <= c.frame <= ms[|ms| - 1].frame {
      MemberKey(s, window, i, c);
      var k :| 0 <= k < |ms| && ms[k] == c;
    }
  }

  lemma MemberKey(s: seq<Candidate>, window: int, i: nat, c: Candidate)
    requires i < |s| && InGroup(s, window, i, |s|, c)
    ensures SameKey(c, s[i])
  {
  }

  /** Every second id is a track or the mark for none, so the ids involved tell the key. */
  ghost predicate Keyed(s: seq<Candidate>)
  {
    forall c :: c in s ==> c.trackB > 0 || c.trackB == -1
  }

  lemma EventStart(s: seq<Candidate>, window: int, i: nat, e: AccidentEvent)
    requires EventFor(s, window, i, e)
    ensures e.etype == s[i].etype && e.startFrame == s[i].frame
    ensures e.involved == if s[i].trackB > 0 then [s[i].trackA, s[i].trackB] else [s[i].trackA]
  {
    hide Gather;
    SeedIsFirst(s, window, i, |s|);
    GatherCounts(Members(s, window, i, |s|));
  }

  lemma EventEnd(s: seq<Candidate>, window: int, i: nat, e: AccidentEvent) returns (k: nat)
    requires FrameSorted(s) && EventFor(s, window, i, e)
    ensures k < |s| && Root(s, window, k) == i && s[k].frame == e.endFrame
  {
    EventIsExact(s, window, i, e);
    hide EventFor, Largest, SmallestBox, Members;
    var ms := Members(s, window, i, |s|);
    MembersAre(s, window, i, |s|);
    var c :| c in ms && c.frame == e.endFrame && c.timestamp == e.endMs;
    k :| 0 <= k < |s| && Root(s, window, k) == i && s[k] == c;
  }

  /** A candidate of the event's key between its first and its last frame belongs to it. */
  lemma {:induction false} WithinEvent(s: seq<Candidate>, window: int, i: nat, e: AccidentEvent, c: Candidate)
    requires FrameSorted(s) && window >= 0 && EventFor(s, window, i, e)
    requires c in s && SameKey(c, s[i]) && e.startFrame <= c.frame <= e.endFrame
    ensures c in Members(s, window, i, |s|)
  {
    EventStart(s, window, i, e);
    var m := EventEnd(s, window, i, e);
    hide EventFor, Members, SameKey;
    var k :| 0 <= k < |s| && s[k] == c;
    KeyOfRoot(s, window, k);
    KeyOfRoot(s, window, m);
    KeysChain(s[k], s[i], s[m]);
    if Root(s, window, k) < i {
      GroupsApart(s, window, k, i);
    } else if i < Root(s, window, k) {
      GroupsApart(s, window, m, k);
    }
    assert InGroup(s, window, i, |s|, c);
    MembersAre(s, window, i, |s|);
  }

  lemma {:induction false} KeyOfRoot(s: seq<Candidate>, window: int, k: nat)
    requires k < |s|
    ensures SameKey(s[Root(s, window, k)], s[k])
  {
  }

  lemma KeysChain(a: Candidate, b: Candidate, c: Candidate)
    requires SameKey(a, b) && SameKey(b, c)
    ensures SameKey(a, c) && SameKey(c, a)
  {
  }

  /** Of two events of one type and the same objects the later one starts more than the
      window after the earlier one ended. */
  lemma EventsApart(s: seq<Candidate>, window: int, p: nat, q: nat)
    requires FrameSorted(s) && Keyed(s) && p < q < |Consolidated(s, window)|
    requires var e, f := Consolidated(s, window)[p], Consolidated(s, window)[q];
      e.etype == f.etype && e.involved == f.involved
    ensures Consolidated(s, window)[q].startFrame - Consolidated(s, window)[p].endFrame > window
  {
    var e, f := Consolidated(s, window)[p], Consolidated(s, window)[q];
    var i, j := SeedsInOrder(s, window, |s|, p, q);
    hide Consolidated;
    EventStart(s, window, i, e);
    EventStart(s, window, j, f);
    var k := EventEnd(s, window, i, e);
    assert s[i] in s && s[j] in s && SameKey(s[i], s[j]);
    assert SameKey(s[k], s[i]);
    GroupsApart(s, window, k, j);
  }

  /** Each component score of an event lies between the extremes of its group. */
  lemma {:induction false} ScoresBetweenExtremes(s: seq<Candidate>, window: int, i: nat, e: AccidentEvent, lo: real,
      hi: real)
    requires FrameSorted(s) && EventFor(s, window, i, e)
    ensures var ms := Members(s, window, i, |s|);
      && ((forall c :: c in ms ==> lo <= OverlapOf(c) <= hi) ==> lo <= e.overlap <= hi)
      && ((forall c :: c in ms ==> lo <= SpeedOf(c) <= hi) ==> lo <= e.speedChange <= hi)
      && ((forall c :: c in ms ==> lo <= DirectionOf(c) <= hi) ==> lo <= e.directionChange <= hi)
      && ((forall c :: c in ms ==> lo <= ProximityOf(c) <= hi) ==> lo <= e.proximity <= hi)
  {
    EventIsExact(s, window, i, e);
    hide EventFor, Largest, SmallestBox, Sum, Members, OverlapOf, SpeedOf, DirectionOf, ProximityOf;
    var ms := Members(s, window, i, |s|);
    if forall c :: c in ms ==> lo <= OverlapOf(c) <= hi {
      MeanBetween(ms, OverlapOf, lo, hi);
    }
    if forall c :: c in ms ==> lo <= SpeedOf(c) <= hi {
      MeanBetween(ms, SpeedOf, lo, hi);
    }
    if forall c :: c in ms ==> lo <= DirectionOf(c) <= hi {
      MeanBetween(ms, DirectionOf, lo, hi);
    }
    if forall c :: c in ms ==> lo <= ProximityOf(c) <= hi {
      MeanBetween(ms, ProximityOf, lo, hi);
    }
  }
}
