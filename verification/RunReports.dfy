/** When a run reports a collision or a near miss, told from the boxes and the motion of the
    two vehicles. */
module RunReports {
  import opened Types
  import opened Geometry
  import opened Tracking
  import opened Trajectories
  import opened Events
  import opened EventAnalysis
  import EventCriteria
  import opened ConfirmedCollisions
  import opened RunAccounts
  import opened Runs
  import opened RunTheorems
  import opened RunConfidence

  /** What makes a collision of two vehicles in one frame: they overlap, or their centres
      are closer than two and a half smallest sides; one of them goes at no more than 70
      per cent of its average speed; one of them has travelled more than 30 pixels; and
      overlap, loss of speed, change of heading and nearness, weighed 45, 25, 10 and 20, with
      20 more if one of them came to rest, make at least 55 out of 100. */
  ghost predicate Crash(a: BBox, b: BBox, ta: Trajectory, tb: Trajectory, dist: real)
    requires ta.points != [] && tb.points != []
  {
    && (Iou(a, b) >= 0.01 || EventCriteria.Within(2.5, dist, EventCriteria.SmallestSide(a, b)))
    && (EventCriteria.SlowedBy(ta, 0.3) || EventCriteria.SlowedBy(tb, 0.3))
    && (ta.totalDistance > 30.0 || tb.totalDistance > 30.0)
    && var overlap, turn := Min(5.0 * Iou(a, b), 1.0), DirectionGap(Last(ta).direction, Last(tb).direction);
       var loss := Min(Max(EventCriteria.Lost(ta), EventCriteria.Lost(tb)), 1.0);
       45.0 * overlap + 25.0 * loss + 10.0 * Min(turn / PI, 1.0)
       + 20.0 * EventCriteria.Nearness(dist, EventCriteria.SmallestSide(a, b))
       + (if EventCriteria.CameToRest(ta) || EventCriteria.CameToRest(tb) then 20.0 else 0.0) >= 55.0
  }

  lemma CrashByDefault(a: BBox, b: BBox, ta: Trajectory, tb: Trajectory, dist: real)
    requires ta.points != [] && tb.points != []
    ensures EventCriteria.Collides(DefaultConfig(), a, b, ta, tb, dist) <==> Crash(a, b, ta, tb, dist)
  {
    hide Iou, EventCriteria.Within, EventCriteria.SmallestSide, EventCriteria.SlowedBy, EventCriteria.Lost,
      DirectionGap, EventCriteria.Nearness, EventCriteria.CameToRest;
  }

  ghost predicate CrashAt(store: seq<Trajectory>, dets: seq<Detection>, p: nat, q: nat, a: int, b: int)
  {
    && p < q < |dets| && dets[p].trackId == a && dets[q].trackId == b
    && exists ta, tb, dist ::
      && EventCriteria.SeenThrice(store, dets[p], ta) && EventCriteria.SeenThrice(store, dets[q], tb)
      && EventCriteria.IsDistance(dets[p].bbox, dets[q].bbox, dist)
      && Crash(dets[p].bbox, dets[q].bbox, ta, tb, dist)
  }

  /** Two detections named a and b, in this order, are vehicles seen three times that crash. */
  ghost predicate CrashAmong(store: seq<Trajectory>, dets: seq<Detection>, a: int, b: int)
  {
    exists p, q :: CrashAt(store, dets, p, q, a, b)
  }

  /** They do so in frame n. */
  ghost predicate CrashIn(job: Job, arrivals: seq<Arrival>, n: nat, a: int, b: int)
    requires WellPosed(job) && Arrived(arrivals)
  {
    Judged(job, arrivals, n) && CrashAmong(RunOf(job, arrivals, n + 1).store, NamedAt(job, arrivals, n), a, b)
  }

  lemma CrashAtIff(s: Scene, dets: seq<Detection>, p: nat, q: nat, a: int, b: int, dist: real)
    requires Sound(s.math) && s.config == DefaultConfig() && p < q < |dets|
    requires dets[p].trackId == a && dets[q].trackId == b
    requires EventCriteria.IsDistance(dets[p].bbox, dets[q].bbox, dist)
    ensures CrashAt(s.store, dets, p, q, a, b) <==> EventCriteria.PairCollides(s, dets[p], dets[q], dist)
  {
    hide Sound, DefaultConfig, EventCriteria.SeenThrice, EventCriteria.IsDistance, EventCriteria.Collides, Crash;
    forall other | EventCriteria.IsDistance(dets[p].bbox, dets[q].bbox, other) ensures other == dist {
      EventCriteria.DistanceIs(s.math, dets[p].bbox, dets[q].bbox, other);
      EventCriteria.DistanceIs(s.math, dets[p].bbox, dets[q].bbox, dist);
    }
    forall ta, tb | EventCriteria.SeenThrice(s.store, dets[p], ta) && EventCriteria.SeenThrice(s.store, dets[q], tb)
      ensures ta.points != [] && tb.points != []
      ensures EventCriteria.Collides(s.config, dets[p].bbox, dets[q].bbox, ta, tb, dist) <==>
        Crash(dets[p].bbox, dets[q].bbox, ta, tb, dist)
    {
      SeenHasPoints(s.store, dets[p], ta);
      SeenHasPoints(s.store, dets[q], tb);
      CrashByDefault(dets[p].bbox, dets[q].bbox, ta, tb, dist);
    }
  }

  lemma SeenHasPoints(store: seq<Trajectory>, d: Detection, t: Trajectory)
    requires EventCriteria.SeenThrice(store, d, t)
    ensures t.points != [] && t in store
  {
  }

  lemma FrameReportsIff(s: Scene, dets: seq<Detection>, a: int, b: int)
    requires Ready(s) && s.config == DefaultConfig() && Named(dets) && a > 0 && b > 0
    ensures EventCriteria.HasReport(FrameCandidates(s, dets), Collision, a, b) <==>
      CrashAmong(s.store, dets, a, b)
  {
    hide FrameCandidates, Sound, HasLastPoints, Eligible, CollisionOf, PairOf, EventCriteria.IsDistance,
      EventCriteria.PairCollides, Crash, EventCriteria.SeenThrice, Named;
    var cs := FrameCandidates(s, dets);
    if EventCriteria.HasReport(cs, Collision, a, b) {
      var c :| c in cs && c.etype == Collision && c.trackA == a && c.trackB == b;
      var p, q := FrameCollisions(s, dets, c);
      CollisionNames(s, dets, p, q, c);
      PositionCrashes(s, dets, p, q, a, b);
      assert CrashAt(s.store, dets, p, q, a, b);
    }
    if CrashAmong(s.store, dets, a, b) {
      var p: nat, q: nat :| CrashAt(s.store, dets, p, q, a, b);
      PositionCrashes(s, dets, p, q, a, b);
    }
  }

  lemma PositionCrashes(s: Scene, dets: seq<Detection>, p: nat, q: nat, a: int, b: int)
    requires Ready(s) && s.config == DefaultConfig() && Named(dets) && a > 0 && b > 0
    requires p < q < |dets| && dets[p].trackId == a && dets[q].trackId == b
    ensures EventCriteria.HasReport(FrameCandidates(s, dets), Collision, a, b) <==> CrashAt(s.store, dets, p, q, a, b)
  {
    hide FrameCandidates, Sound, HasLastPoints, CrashAt, EventCriteria.IsDistance, EventCriteria.PairCollides,
      EventCriteria.HasReport, Named;
    var dist := CenterDistance(s.math, dets[p].bbox, dets[q].bbox);
    EventCriteria.DistanceIs(s.math, dets[p].bbox, dets[q].bbox, dist);
    EventCriteria.CollisionIff(s, dets, p, q, dist);
    CrashAtIff(s, dets, p, q, a, b, dist);
  }

  /** Frame n of a run reports a collision of a and b exactly when they crash in it. */
  lemma {:induction false} ReportedIffCrash(job: Job, arrivals: seq<Arrival>, n: nat, a: int, b: int)
    requires WellPosed(job) && Arrived(arrivals) && n < |arrivals| && a > 0 && b > 0
    ensures CrashIn(job, arrivals, n, a, b) <==>
      exists c :: c in RunOf(job, arrivals, |arrivals|).candidates && Reports(c, a, b) && c.frame == n
  {
    hide WellPosed, RunOf, Judged, NamedAt, FrameCandidates, CrashAt, Sound, DefaultConfig;
    var log := RunOf(job, arrivals, |arrivals|).candidates;
    if CrashIn(job, arrivals, n, a, b) {
      var s, dets := SceneAt(job, arrivals, n), NamedAt(job, arrivals, n);
      NamesDiffer(job, arrivals, n);
      FrameReportsIff(s, dets, a, b);
      var c :| c in FrameCandidates(s, dets) && c.etype == Collision && c.trackA == a && c.trackB == b;
      FrameOf(s, dets, c);
      StaysIn(job, arrivals, n, |arrivals|, c);
    }
    if c :| c in log && Reports(c, a, b) && c.frame == n {
      var m := CameFrom(job, arrivals, |arrivals|, c);
      var s, dets := SceneAt(job, arrivals, m), NamedAt(job, arrivals, m);
      NamesDiffer(job, arrivals, m);
      FrameOf(s, dets, c);
      assert EventCriteria.HasReport(FrameCandidates(s, dets), Collision, a, b);
      FrameReportsIff(s, dets, a, b);
    }
  }

  lemma FrameOf(s: Scene, dets: seq<Detection>, c: Candidate)
    requires Ready(s) && Named(dets) && c in FrameCandidates(s, dets)
    ensures c.frame == s.frame && c.timestamp == s.timestamp
  {
    hide FrameCandidates, Sound, HasLastPoints;
    FrameSane(s, dets);
  }

  /** A run has a collision event of a and b, in this order, exactly when they crash in two
      different frames at most 10 apart. */
  lemma {:induction false} CollisionIffTwoCrashes(job: Job, arrivals: seq<Arrival>, a: int, b: int)
    requires WellPosed(job) && Arrived(arrivals) && a > 0 && b > 0
    ensures HasCollision(ResultOf(job, RunOf(job, arrivals, |arrivals|)).events, a, b) <==>
      exists m, n :: 0 <= m < n <= m + 10 && CrashIn(job, arrivals, m, a, b) && CrashIn(job, arrivals, n, a, b)
  {
    hide WellPosed, RunOf, CrashIn, HasCollision, ResultOf;
    CollisionOfRunIff(job, arrivals, a, b);
    var log := RunOf(job, arrivals, |arrivals|).candidates;
    if ReportedNear(log, 10, a, b) {
      var c, d :| c in log && d in log && Reports(c, a, b) && Reports(d, a, b) && c.frame < d.frame <= c.frame + 10;
      FramesOfRun(job, arrivals, c);
      FramesOfRun(job, arrivals, d);
      ReportedIffCrash(job, arrivals, c.frame, a, b);
      ReportedIffCrash(job, arrivals, d.frame, a, b);
    }
    if m, n :| 0 <= m < n <= m + 10 && CrashIn(job, arrivals, m, a, b) && CrashIn(job, arrivals, n, a, b) {
      CrashesInRun(job, arrivals, m, a, b);
      CrashesInRun(job, arrivals, n, a, b);
      ReportedIffCrash(job, arrivals, m, a, b);
      ReportedIffCrash(job, arrivals, n, a, b);
    }
  }

  lemma CrashesInRun(job: Job, arrivals: seq<Arrival>, n: nat, a: int, b: int)
    requires WellPosed(job) && Arrived(arrivals) && CrashIn(job, arrivals, n, a, b)
    ensures n < |arrivals|
  {
    hide WellPosed, RunOf;
  }

  /** Every candidate of a run carries the number and the time of one of its frames. */
  lemma {:induction false} FramesOfRun(job: Job, arrivals: seq<Arrival>, c: Candidate)
    requires WellPosed(job) && Arrived(arrivals) && c in RunOf(job, arrivals, |arrivals|).candidates
    ensures 0 <= c.frame < |arrivals| && c.timestamp == arrivals[c.frame].frame.timestamp
  {
    hide WellPosed, RunOf, NamedAt, FrameCandidates, Sound;
    var n := CameFrom(job, arrivals, |arrivals|, c);
    NamesDiffer(job, arrivals, n);
    FrameOf(SceneAt(job, arrivals, n), NamedAt(job, arrivals, n), c);
  }

  // ----- near misses -----

  /** Detections p and q, named a and b, are vehicles seen three times whose centres coincide
      although they hardly overlap, one of them going at 200 pixels a second or more, in
      opposite directions. */
  ghost predicate CrossAt(store: seq<Trajectory>, dets: seq<Detection>, p: nat, q: nat, a: int, b: int)
  {
    && p < q < |dets| && dets[p].trackId == a && dets[q].trackId == b
    && SameCentre(dets[p].bbox, dets[q].bbox) && Iou(dets[p].bbox, dets[q].bbox) < 0.01
    && exists ta, tb ::
      && EventCriteria.SeenThrice(store, dets[p], ta) && EventCriteria.SeenThrice(store, dets[q], tb)
      && (Last(ta).speed >= 200.0 || Last(tb).speed >= 200.0)
      && DirectionGap(Last(ta).direction, Last(tb).direction) == PI
  }

  predicate SameCentre(a: BBox, b: BBox)
  {
    a.x + a.w / 2.0 == b.x + b.w / 2.0 && a.y + a.h / 2.0 == b.y + b.h / 2.0
  }

  lemma SameCentreIff(a: BBox, b: BBox, dist: real)
    requires EventCriteria.IsDistance(a, b, dist)
    ensures dist >= 0.0 && (dist == 0.0 <==> SameCentre(a, b))
  {
    hide Square;
    SquarePositive((a.x + a.w / 2.0) - (b.x + b.w / 2.0));
    SquarePositive((a.y + a.h / 2.0) - (b.y + b.h / 2.0));
    SquarePositive(dist);
  }

  ghost predicate Headed(t: Trajectory)
  {
    t.points != [] ==> -PI <= Last(t).direction <= PI
  }

  lemma MotionIsHeaded(math: Maths, t: Trajectory)
    requires Sound(math) && Kinematic(math, t.points)
    ensures Headed(t)
  {
    hide Norm, SpeedFrom;
    var n := |t.points|;
    if n > 1 {
      assert Carried(math, t.points[n - 2], t.points[n - 1]);
    }
  }

  lemma CrossAtIff(s: Scene, dets: seq<Detection>, p: nat, q: nat, a: int, b: int, dist: real)
    requires Sound(s.math) && s.config == DefaultConfig() && p < q < |dets|
    requires forall t :: t in s.store ==> Headed(t)
    requires dets[p].trackId == a && dets[q].trackId == b
    requires EventCriteria.IsDistance(dets[p].bbox, dets[q].bbox, dist)
    ensures CrossAt(s.store, dets, p, q, a, b) <==> EventCriteria.PairNearlyCollides(s, dets[p], dets[q], dist)
  {
    hide Sound, DefaultConfig, EventCriteria.SeenThrice, EventCriteria.IsDistance, EventCriteria.NearlyCollides,
      SameCentre, Iou, DirectionGap;
    SameCentreIff(dets[p].bbox, dets[q].bbox, dist);
    forall ta, tb | EventCriteria.SeenThrice(s.store, dets[p], ta) && EventCriteria.SeenThrice(s.store, dets[q], tb)
      ensures ta.points != [] && tb.points != []
      ensures EventCriteria.NearlyCollides(s.config, dets[p].bbox, dets[q].bbox, ta, tb, dist) <==>
        && dist == 0.0 && Iou(dets[p].bbox, dets[q].bbox) < 0.01
        && (Last(ta).speed >= 200.0 || Last(tb).speed >= 200.0)
        && DirectionGap(Last(ta).direction, Last(tb).direction) == PI
    {
      SeenHasPoints(s.store, dets[p], ta);
      SeenHasPoints(s.store, dets[q], tb);
      EventCriteria.NearMissByDefault(dets[p].bbox, dets[q].bbox, ta, tb, dist);
    }
  }

  ghost predicate CrossAmong(store: seq<Trajectory>, dets: seq<Detection>, a: int, b: int)
  {
    exists p, q :: CrossAt(store, dets, p, q, a, b)
  }

  lemma CrossReported(s: Scene, dets: seq<Detection>, p: nat, q: nat, a: int, b: int)
    requires Ready(s) && s.config == DefaultConfig() && Named(dets) && a > 0 && b > 0
    requires forall t :: t in s.store ==> Headed(t)
    requires p < q < |dets| && dets[p].trackId == a && dets[q].trackId == b
    ensures EventCriteria.HasReport(FrameCandidates(s, dets), NearMiss, a, b) <==> CrossAt(s.store, dets, p, q, a, b)
  {
    hide FrameCandidates, Sound, HasLastPoints, CrossAt, EventCriteria.IsDistance, EventCriteria.PairNearlyCollides,
      EventCriteria.HasReport, Named, Headed;
    var dist := CenterDistance(s.math, dets[p].bbox, dets[q].bbox);
    EventCriteria.DistanceIs(s.math, dets[p].bbox, dets[q].bbox, dist);
    EventCriteria.NearMissIff(s, dets, p, q, dist);
    CrossAtIff(s, dets, p, q, a, b, dist);
  }

  lemma FrameCrossesIff(s: Scene, dets: seq<Detection>, a: int, b: int)
    requires Ready(s) && s.config == DefaultConfig() && Named(dets) && a > 0 && b > 0
    requires forall t :: t in s.store ==> Headed(t)
    ensures EventCriteria.HasReport(FrameCandidates(s, dets), NearMiss, a, b) <==> CrossAmong(s.store, dets, a, b)
  {
    hide FrameCandidates, Sound, HasLastPoints, Eligible, PairCandidates, EventCriteria.IsDistance, SameCentre, Iou,
      EventCriteria.SeenThrice, Named, Headed, EventCriteria.OfOne, EventCriteria.OfStore;
    var cs := FrameCandidates(s, dets);
    if EventCriteria.HasReport(cs, NearMiss, a, b) {
      var c :| c in cs && c.etype == NearMiss && c.trackA == a && c.trackB == b;
      EventCriteria.FrameIs(s, dets, c);
      EventCriteria.PartsNamed(s, dets, c);
      var p: nat, q: nat :| EventCriteria.OfPair(s, dets, c, p, q);
      CrossReported(s, dets, p, q, a, b);
      assert CrossAt(s.store, dets, p, q, a, b);
    }
    if CrossAmong(s.store, dets, a, b) {
      var p: nat, q: nat :| CrossAt(s.store, dets, p, q, a, b);
      CrossReported(s, dets, p, q, a, b);
    }
  }

  /** Frame n of a run reports a near miss of a and b exactly when their centres coincide in it
      without much overlap while they go in opposite directions, one of them at 200 pixels
      a second: the weights leave no room for less. */
  lemma {:induction false} NearMissOfRunIff(job: Job, arrivals: seq<Arrival>, n: nat, a: int, b: int)
    requires WellPosed(job) && Arrived(arrivals) && Judged(job, arrivals, n) && a > 0 && b > 0
    ensures n < |arrivals|
    ensures var named := NamedAt(job, arrivals, n);
      EventCriteria.HasReport(FrameCandidates(SceneAt(job, arrivals, n), named), NearMiss, a, b) <==>
        CrossAmong(RunOf(job, arrivals, n + 1).store, named, a, b)
  {
    hide WellPosed, RunOf, NamedAt, FrameCandidates, CrossAmong, DefaultConfig, Agree, CandidatesSound, Measured,
      Kinematic, Stamped, Headed, Sound;
    NamesDiffer(job, arrivals, n);
    var s := SceneAt(job, arrivals, n);
    RunHolds(job, arrivals, n + 1);
    forall t | t in s.store ensures Headed(t) {
      MotionIsHeaded(job.math, t);
    }
    FrameCrossesIff(s, NamedAt(job, arrivals, n), a, b);
  }
}
