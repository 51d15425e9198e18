/** When a frame reports what, told from boxes and stored points. */
module EventCriteria {
  import opened Types
  import opened Geometry
  import opened Trajectories
  import opened Events
  import opened EventAnalysis

  // ----- who is judged -----

  ghost predicate FirstAt(store: seq<Trajectory>, id: int, k: nat)
  {
    k < |store| && store[k].trackId == id && forall j :: 0 <= j < k ==> store[j].trackId != id
  }

  /** The trajectory of a track is the first one with its id. */
  ghost predicate PathIs(store: seq<Trajectory>, id: int, t: Trajectory)
  {
    exists k: nat :: FirstAt(store, id, k) && store[k] == t
  }

  /** A tracked car, motorcycle, bus or truck with trajectory t, seen three times. */
  ghost predicate SeenThrice(store: seq<Trajectory>, d: Detection, t: Trajectory)
  {
    d.trackId > 0 && d.classId in {2, 3, 5, 7} && PathIs(store, d.trackId, t) && |t.points| >= 3
  }

  lemma PathFound(store: seq<Trajectory>, id: int)
    ensures forall t :: PathIs(store, id, t) <==> Find(store, id) < |store| && store[Find(store, id)] == t
  {
    forall t ensures PathIs(store, id, t) <==> Find(store, id) < |store| && store[Find(store, id)] == t {
      if PathIs(store, id, t) {
        var k: nat :| FirstAt(store, id, k) && store[k] == t;
        assert Find(store, id) == k;
      }
    }
  }

  lemma EligibleIff(store: seq<Trajectory>, d: Detection)
    ensures Eligible(store, d) <==> exists t :: SeenThrice(store, d, t)
    ensures Eligible(store, d) ==> forall t :: SeenThrice(store, d, t) <==> t == PathOf(store, d)
  {
    PathFound(store, d.trackId);
    hide PathIs;
    if Eligible(store, d) {
      assert SeenThrice(store, d, PathOf(store, d));
    }
  }

  // ----- distances, headings and speeds -----

  ghost predicate IsDistance(a: BBox, b: BBox, dist: real)
  {
    var dx, dy := (a.x + a.w / 2.0) - (b.x + b.w / 2.0), (a.y + a.h / 2.0) - (b.y + b.h / 2.0);
    dist >= 0.0 && Square(dist) == Square(dx) + Square(dy)
  }

  lemma DistanceIs(math: Maths, a: BBox, b: BBox, dist: real)
    requires Sound(math)
    ensures IsDistance(a, b, dist) <==> dist == CenterDistance(math, a, b)
  {
    hide Square, Norm, Sound;
    NormProperties(math, (a.x + a.w / 2.0) - (b.x + b.w / 2.0), (a.y + a.h / 2.0) - (b.y + b.h / 2.0));
    if IsDistance(a, b, dist) {
      SquaresDecide(dist, CenterDistance(math, a, b));
    }
  }

  ghost predicate IsLength(x: real, y: real, length: real)
  {
    length >= 0.0 && Square(length) == Square(x) + Square(y)
  }

  lemma LengthIs(math: Maths, x: real, y: real, length: real)
    requires Sound(math)
    ensures IsLength(x, y, length) <==> length == Norm(math, x, y)
  {
    hide Square, Norm, Sound;
    NormProperties(math, x, y);
    if IsLength(x, y, length) {
      SquaresDecide(length, Norm(math, x, y));
    }
  }

  /** The gap between two headings is the angle of at most half a turn between them. */
  lemma GapIsTurn(a: real, b: real, g: real)
    requires -PI <= a <= PI && -PI <= b <= PI
    ensures g == DirectionGap(a, b) <==>
      0.0 <= g <= PI && (g == a - b || g == b - a || g == 2.0 * PI - (a - b) || g == 2.0 * PI - (b - a))
    ensures 3.14159 < PI < 3.1416
  {
  }

  /** The vehicle now goes at no more than the share 1 - drop of its average speed. */
  ghost predicate SlowedBy(t: Trajectory, drop: real)
    requires t.points != []
  {
    if t.avgSpeed > 0.0 then Last(t).speed <= (1.0 - drop) * t.avgSpeed else drop <= 0.0
  }

  /** The share of its average speed that a vehicle has lost. */
  function Lost(t: Trajectory): real
    requires t.points != []
  {
    if t.avgSpeed > 0.0 then (t.avgSpeed - Last(t).speed) / t.avgSpeed else 0.0
  }

  lemma LostIsDrop(t: Trajectory, drop: real)
    requires t.points != []
    ensures Lost(t) == Drop(t)
    ensures Drop(t) >= drop <==> SlowedBy(t, drop)
  {
    if t.avgSpeed > 0.0 {
      ShareLost(Last(t).speed, t.avgSpeed, drop);
    }
  }

  lemma ShareLost(speed: real, avg: real, drop: real)
    requires avg > 0.0
    ensures (avg - speed) / avg == 1.0 - speed / avg
    ensures 1.0 - speed / avg >= drop <==> speed <= (1.0 - drop) * avg
  {
    ScaleBack(1.0, avg);
    ScaleBack(1.0 - drop, avg);
    QuotientSum(avg - speed, speed, avg);
    QuotientOrder(speed, (1.0 - drop) * avg, avg);
  }

  function SmallestSide(a: BBox, b: BBox): (side: real)
    ensures side <= a.w && side <= a.h && side <= b.w && side <= b.h
    ensures side == a.w || side == a.h || side == b.w || side == b.h
  {
    Min(Min(a.w, a.h), Min(b.w, b.h))
  }

  // ----- collisions -----

  /** The centres are less than n smallest sides apart; without a side, less than n pixels. */
  predicate Within(n: real, dist: real, side: real)
  {
    if side > 0.0 then dist < n * side else dist < n
  }

  /** How near the centres are: from one at distance zero to zero at five smallest sides. */
  function Nearness(dist: real, side: real): real
  {
    if !Within(5.0, dist, side) then 0.0 else if side > 0.0 then 1.0 - dist / (5.0 * side) else 1.0 - dist / 5.0
  }

  lemma WithinIs(dist: real, side: real)
    requires dist >= 0.0
    ensures var rel := if side > 0.0 then dist / side else dist;
      && (rel < 2.5 <==> Within(2.5, dist, side))
      && Max(0.0, 1.0 - rel / 5.0) == Nearness(dist, side)
  {
    if side > 0.0 {
      RelativeOrder(dist, side, 2.5);
      RelativeOrder(dist, side, 5.0);
      FiveSides(dist, side);
    }
  }

  lemma RelativeOrder(dist: real, side: real, n: real)
    requires side > 0.0
    ensures dist / side < n <==> dist < n * side
  {
    ScaleBack(n, side);
    QuotientOrder(n * side, dist, side);
  }

  lemma FiveSides(dist: real, side: real)
    requires side > 0.0
    ensures dist / (5.0 * side) == dist / side / 5.0
  {
    ScaleBack(dist, side);
    var part := dist / side / 5.0;
    assert part * (5.0 * side) == dist;
    ScaleBack(part, 5.0 * side);
  }

  /** Nearly at rest after having moved faster. */
  ghost predicate CameToRest(t: Trajectory)
    requires t.points != []
  {
    Last(t).speed < 5.0 && t.avgSpeed > 10.0
  }

  /** The score of a collision, written out. */
  ghost function CollisionTotal(config: EventConfig, a: BBox, b: BBox, ta: Trajectory, tb: Trajectory, dist: real): real
    requires ta.points != [] && tb.points != []
  {
    config.wOverlap * Min(5.0 * Iou(a, b), 1.0)
    + config.wSpeedChange * Min(Max(Lost(ta), Lost(tb)), 1.0)
    + config.wDirectionChange * Min(DirectionGap(Last(ta).direction, Last(tb).direction) / PI, 1.0)
    + config.wProximity * Nearness(dist, SmallestSide(a, b))
    + if CameToRest(ta) || CameToRest(tb) then 0.2 else 0.0
  }

  /** The boxes overlap or are close, one of the vehicles has slowed, one has moved, and the
      score reaches the threshold. */
  ghost predicate Collides(config: EventConfig, a: BBox, b: BBox, ta: Trajectory, tb: Trajectory, dist: real)
    requires ta.points != [] && tb.points != []
  {
    && (Iou(a, b) >= config.collisionIouThreshold || Within(2.5, dist, SmallestSide(a, b)))
    && (SlowedBy(ta, config.collisionSpeedDrop) || SlowedBy(tb, config.collisionSpeedDrop))
    && (ta.totalDistance > 30.0 || tb.totalDistance > 30.0)
    && CollisionTotal(config, a, b, ta, tb, dist) >= config.confidenceThreshold
  }

  ghost function CollisionReport(s: Scene, a: Detection, b: Detection, ta: Trajectory, tb: Trajectory,
      dist: real): Candidate
    requires ta.points != [] && tb.points != []
  {
    Candidate(Collision, s.frame, s.timestamp, a.trackId, b.trackId,
              CollisionTotal(s.config, a.bbox, b.bbox, ta, tb, dist), Iou(a.bbox, b.bbox), Max(Lost(ta), Lost(tb)),
              DirectionGap(Last(ta).direction, Last(tb).direction), dist, Hull(a.bbox, b.bbox))
  }

  lemma TotalIsScore(s: Scene, a: Detection, b: Detection, ta: Trajectory, tb: Trajectory)
    requires Sound(s.math) && ta.points != [] && tb.points != []
    ensures var p := PairOf(s.math, a, b, ta, tb);
      && CollisionScore(s.config, p)
         == CollisionTotal(s.config, a.bbox, b.bbox, ta, tb, CenterDistance(s.math, a.bbox, b.bbox))
      && (p.relDist < 2.5 <==> Within(2.5, CenterDistance(s.math, a.bbox, b.bbox), SmallestSide(a.bbox, b.bbox)))
  {
    hide Sound, Iou, CenterDistance, Drop, Lost, DirectionGap, Nearness, Within;
    var dist := CenterDistance(s.math, a.bbox, b.bbox);
    DistanceNonNegative(s.math, a.bbox, b.bbox);
    LostIsDrop(ta, 0.0);
    LostIsDrop(tb, 0.0);
    WithinIs(dist, SmallestSide(a.bbox, b.bbox));
  }

  lemma CollisionOfIs(s: Scene, a: Detection, b: Detection, ta: Trajectory, tb: Trajectory)
    requires Sound(s.math) && ta.points != [] && tb.points != []
    ensures var dist := CenterDistance(s.math, a.bbox, b.bbox);
      CollisionOf(s, PairOf(s.math, a, b, ta, tb), a, b)
      == if Collides(s.config, a.bbox, b.bbox, ta, tb, dist) then [CollisionReport(s, a, b, ta, tb, dist)] else []
  {
    hide Sound, Iou, CenterDistance, Drop, Lost, DirectionGap, Within, SlowedBy, CollisionScore, CollisionTotal;
    TotalIsScore(s, a, b, ta, tb);
    LostIsDrop(ta, s.config.collisionSpeedDrop);
    LostIsDrop(tb, s.config.collisionSpeedDrop);
  }

  // ----- near misses -----

  /** The score of a near miss, written out. */
  ghost function NearMissTotal(config: EventConfig, ta: Trajectory, tb: Trajectory, dist: real): real
    requires ta.points != [] && tb.points != [] && config.nearMissDistance != 0.0
  {
    config.wProximity * (1.0 - dist / config.nearMissDistance)
    + config.wSpeedChange * Min(Max(Last(ta).speed, Last(tb).speed) / 200.0, 1.0)
    + config.wDirectionChange * Min(DirectionGap(Last(ta).direction, Last(tb).direction) / PI, 1.0)
  }

  /** The centres are close, the boxes hardly overlap, one of the vehicles is fast, and the
      score reaches the threshold. */
  ghost predicate NearlyCollides(config: EventConfig, a: BBox, b: BBox, ta: Trajectory, tb: Trajectory, dist: real)
    requires ta.points != [] && tb.points != [] && dist >= 0.0
  {
    && dist < config.nearMissDistance && Iou(a, b) < config.collisionIouThreshold
    && (Last(ta).speed > 20.0 || Last(tb).speed > 20.0)
    && NearMissTotal(config, ta, tb, dist) >= config.confidenceThreshold
  }

  lemma NearMissOfIs(s: Scene, a: Detection, b: Detection, ta: Trajectory, tb: Trajectory)
    requires Sound(s.math) && ta.points != [] && tb.points != []
    ensures var dist := CenterDistance(s.math, a.bbox, b.bbox);
      && dist >= 0.0
      && NearMissOf(s, PairOf(s.math, a, b, ta, tb), a, b)
         == if NearlyCollides(s.config, a.bbox, b.bbox, ta, tb, dist) then
              [Candidate(NearMiss, s.frame, s.timestamp, a.trackId, b.trackId, NearMissTotal(s.config, ta, tb, dist),
                         0.0, 0.0, 0.0, dist, Hull(a.bbox, b.bbox))]
            else []
  {
    hide Sound, Iou, CenterDistance, Drop, DirectionGap, NearStopped, NearMissScore, NearMissTotal;
    var dist := CenterDistance(s.math, a.bbox, b.bbox);
    DistanceNonNegative(s.math, a.bbox, b.bbox);
    if dist < s.config.nearMissDistance {
      NearMissTotalIs(s.config, PairOf(s.math, a, b, ta, tb), ta, tb);
    }
  }

  lemma NearMissTotalIs(config: EventConfig, p: Pair, ta: Trajectory, tb: Trajectory)
    requires ta.points != [] && tb.points != [] && 0.0 <= p.dist < config.nearMissDistance
    requires p.speedA == Last(ta).speed && p.speedB == Last(tb).speed
    requires p.dirDiff == DirectionGap(Last(ta).direction, Last(tb).direction)
    ensures NearMissScore(config, p) == NearMissTotal(config, ta, tb, p.dist)
  {
    hide DirectionGap;
    BelowOne(p.dist, config.nearMissDistance);
  }

  lemma BelowOne(x: real, y: real)
    requires 0.0 <= x < y
    ensures 1.0 - x / y >= 0.0
  {
    QuotientInUnit(x, y);
  }

  // ----- braking and standing -----

  /** The acceleration is beyond the limit and against the motion, and its score, a third of
      its multiple of the limit and at most one, reaches the threshold. */
  ghost predicate Brakes(config: EventConfig, t: Trajectory, decel: real)
    requires t.points != []
  {
    && decel > config.suddenBrakeDecel
    && Last(t).vx * Last(t).ax + Last(t).vy * Last(t).ay < 0.0
    && BrakeScore(config, decel) >= config.confidenceThreshold
  }

  /** Under a positive limit the score is the share of three limits reached, at most one. */
  lemma BrakeScoreIs(config: EventConfig, decel: real)
    requires decel > config.suddenBrakeDecel
    ensures var top := 3.0 * config.suddenBrakeDecel;
      && (top > 0.0 ==> BrakeScore(config, decel) * top == Min(decel, top))
      && (top == 0.0 ==> BrakeScore(config, decel) == 1.0)
  {
    if config.suddenBrakeDecel > 0.0 {
      var top := config.suddenBrakeDecel * 3.0;
      ScaleBack(decel, top);
      RelativeOrder(decel, top, 1.0);
    }
  }

  lemma BrakeOfIs(s: Scene, a: Detection)
    requires Sound(s.math) && Eligible(s.store, a)
    ensures var t := PathOf(s.store, a);
      var decel := Norm(s.math, Last(t).ax, Last(t).ay);
      BrakeOf(s, a)
      == if Brakes(s.config, t, decel) then
           [Candidate(SuddenBrake, s.frame, s.timestamp, a.trackId, -1, BrakeScore(s.config, decel),
                      0.0, decel, 0.0, 0.0, a.bbox)]
         else []
  {
    hide Sound, Norm, BrakeScore;
  }

  /** A vehicle seen in this frame whose last points, as many as the window asks, are all
      slow. */
  ghost predicate StandsStill(s: Scene, t: Trajectory)
    requires s.config.stoppedMinFrames > 0 || t.points != []
  {
    && t.classId in {2, 3, 5, 7} && |t.points| >= s.config.stoppedMinFrames
    && (forall j :: |t.points| - s.config.stoppedMinFrames <= j < |t.points| ==>
          t.points[j].speed <= s.config.stoppedSpeedThreshold)
    && Last(t).frame == s.frame
  }

  lemma StoppedOfIs(s: Scene, t: Trajectory)
    requires s.config.stoppedMinFrames > 0 || t.points != []
    ensures StoppedOf(s, t) != [] <==> StandsStill(s, t)
    ensures StandsStill(s, t) ==>
      var p := Last(t);
      StoppedOf(s, t) == [Candidate(StoppedVehicle, s.frame, s.timestamp, t.trackId, -1,
                                    if s.config.stoppedMinFrames == 0 then 1.0 else 0.5, 0.0, 0.0, 0.0, 0.0,
                                    BBox(p.cx - p.w / 2.0, p.cy - p.h / 2.0, p.w, p.h))]
  {
    if s.config.stoppedMinFrames != 0 {
      HalfWindow(s.config.stoppedMinFrames);
    }
  }

  // ----- what a frame holds -----

  ghost predicate OfPair(s: Scene, dets: seq<Detection>, c: Candidate, i: nat, j: nat)
    requires Sound(s.math)
  {
    && i < j < |dets| && Eligible(s.store, dets[i]) && Eligible(s.store, dets[j])
    && c in PairCandidates(s, dets[i], dets[j])
  }

  ghost predicate OfOne(s: Scene, dets: seq<Detection>, c: Candidate, i: nat)
  {
    i < |dets| && Eligible(s.store, dets[i]) && c in BrakeOf(s, dets[i])
  }

  ghost predicate OfStore(s: Scene, c: Candidate, k: nat)
    requires HasLastPoints(s.config, s.store)
  {
    k < |s.store| && c in StoppedOf(s, s.store[k])
  }

  lemma {:induction false} RowIs(s: Scene, dets: seq<Detection>, i: nat, j: nat, c: Candidate)
    requires Sound(s.math) && i < j <= |dets| && Eligible(s.store, dets[i])
    ensures c in Row(s, dets, i, j) <==> exists k :: i < k < j && OfPair(s, dets, c, i, k)
  {
    hide Eligible, Sound, PairOf, CollisionOf, NearMissOf;
    if j > i + 1 {
      RowIs(s, dets, i, j - 1, c);
      if c in PairCandidates(s, dets[i], dets[j - 1]) {
        assert OfPair(s, dets, c, i, j - 1);
      }
    }
  }

  lemma {:induction false} FromDetectionsIs(s: Scene, dets: seq<Detection>, n: nat, c: Candidate)
    requires Ready(s) && n <= |dets|
    ensures c in FromDetections(s, dets, n) <==>
      (exists i, k :: 0 <= i < n && OfPair(s, dets, c, i, k)) || exists i :: 0 <= i < n && OfOne(s, dets, c, i)
  {
    hide Eligible, Sound, HasLastPoints, Row, BrakeOf, PairCandidates;
    if n > 0 {
      FromDetectionsIs(s, dets, n - 1, c);
      if Eligible(s.store, dets[n - 1]) {
        RowIs(s, dets, n - 1, |dets|, c);
        if c in Row(s, dets, n - 1, |dets|) {
          var k :| n - 1 < k < |dets| && OfPair(s, dets, c, n - 1, k);
        }
        if c in BrakeOf(s, dets[n - 1]) {
          assert OfOne(s, dets, c, n - 1);
        }
      }
    }
  }

  lemma {:induction false} FromStoreIs(s: Scene, n: nat, c: Candidate)
    requires Ready(s) && n <= |s.store|
    ensures c in FromStore(s, n) <==> exists k :: 0 <= k < n && OfStore(s, c, k)
  {
    hide Sound, StoppedOf;
    if n > 0 {
      FromStoreIs(s, n - 1, c);
      if c in StoppedOf(s, s.store[n - 1]) {
        assert OfStore(s, c, n - 1);
      }
    }
  }

  /** A frame holds exactly the candidates of its pairs, of its braking vehicles and of the
      vehicles that stand still. */
  lemma FrameIs(s: Scene, dets: seq<Detection>, c: Candidate)
    requires Ready(s) && s.config.enabled
    ensures c in FrameCandidates(s, dets) <==>
      || (exists i: nat, k: nat :: OfPair(s, dets, c, i, k))
      || (exists i: nat :: OfOne(s, dets, c, i))
      || exists k: nat :: OfStore(s, c, k)
  {
    hide Sound, FromDetections, FromStore, OfPair, OfOne, OfStore;
    FromDetectionsIs(s, dets, |dets|, c);
    FromStoreIs(s, |s.store|, c);
    PartsInRange(s, dets, c);
  }

  lemma PartsInRange(s: Scene, dets: seq<Detection>, c: Candidate)
    requires Ready(s)
    ensures forall i: nat, k: nat :: OfPair(s, dets, c, i, k) ==> 0 <= i < |dets|
    ensures forall i: nat :: OfOne(s, dets, c, i) ==> 0 <= i < |dets|
    ensures forall k: nat :: OfStore(s, c, k) ==> 0 <= k < |s.store|
  {
    hide Sound, Eligible, StoppedOf, BrakeOf, PairCandidates;
  }

  lemma NothingWhenDisabled(s: Scene, dets: seq<Detection>)
    requires Ready(s) && !s.config.enabled
    ensures FrameCandidates(s, dets) == []
  {
  }

  // ----- the criteria, for a whole frame -----

  ghost predicate HasReport(cs: seq<Candidate>, etype: EventType, a: int, b: int)
  {
    exists c :: c in cs && c.etype == etype && c.trackA == a && c.trackB == b
  }

  lemma PairIs(s: Scene, a: Detection, b: Detection, c: Candidate)
    requires Sound(s.math) && Eligible(s.store, a) && Eligible(s.store, b)
    ensures c in PairCandidates(s, a, b) <==>
      c in CollisionOf(s, PairFor(s, a, b), a, b)
      || (PairFor(s, a, b).dist >= 0.0 && c in NearMissOf(s, PairFor(s, a, b), a, b))
  {
    hide PairOf, CollisionOf, NearMissOf, Sound, Eligible;
    PairDistances(s.math, a, b, PathOf(s.store, a), PathOf(s.store, b));
  }

  /** Kinds and names of what each part can hold. */
  lemma PartsNamed(s: Scene, dets: seq<Detection>, c: Candidate)
    requires Ready(s)
    ensures forall i: nat, k: nat :: OfPair(s, dets, c, i, k) ==>
      c.etype in {Collision, NearMiss} && c.trackA == dets[i].trackId > 0 && c.trackB == dets[k].trackId > 0
    ensures forall i: nat :: OfOne(s, dets, c, i) ==>
      c.etype == SuddenBrake && c.trackA == dets[i].trackId > 0 && c.trackB == -1
    ensures forall k: nat :: OfStore(s, c, k) ==>
      c.etype == StoppedVehicle && c.trackA == s.store[k].trackId && c.trackB == -1
  {
    hide Sound, PairOf, CollisionScore, NearMissScore, Hull, BrakeScore, Norm, Find, StoppedScore, AllSlow;
    forall i: nat, k: nat | OfPair(s, dets, c, i, k)
      ensures c.etype in {Collision, NearMiss} && c.trackA == dets[i].trackId > 0 && c.trackB == dets[k].trackId > 0
    {
      PairIs(s, dets[i], dets[k], c);
    }
  }

  ghost predicate PairCollides(s: Scene, a: Detection, b: Detection, dist: real)
  {
    exists ta, tb :: SeenThrice(s.store, a, ta) && SeenThrice(s.store, b, tb)
      && Collides(s.config, a.bbox, b.bbox, ta, tb, dist)
  }

  lemma PairCollidesIff(s: Scene, a: Detection, b: Detection, dist: real)
    requires Sound(s.math) && IsDistance(a.bbox, b.bbox, dist)
    ensures PairCollides(s, a, b, dist) <==>
      Eligible(s.store, a) && Eligible(s.store, b) && CollisionOf(s, PairFor(s, a, b), a, b) != []
  {
    hide Sound, SeenThrice, Eligible, PathOf, Collides, IsDistance, CollisionReport, CollisionOf;
    EligibleIff(s.store, a);
    EligibleIff(s.store, b);
    DistanceIs(s.math, a.bbox, b.bbox, dist);
    if Eligible(s.store, a) && Eligible(s.store, b) {
      var ta, tb := PathOf(s.store, a), PathOf(s.store, b);
      CollisionOfIs(s, a, b, ta, tb);
      assert SeenThrice(s.store, a, ta) && SeenThrice(s.store, b, tb);
    }
  }

  /** A frame reports detections i and j as a collision exactly when both are vehicles seen
      three times that overlap or are close, one of which has slowed and one of which has
      moved, with a score that reaches the threshold. */
  lemma CollisionIff(s: Scene, dets: seq<Detection>, i: nat, j: nat, dist: real)
    requires Ready(s) && s.config.enabled && Named(dets) && i < j < |dets|
    requires dets[i].trackId > 0 && dets[j].trackId > 0 && IsDistance(dets[i].bbox, dets[j].bbox, dist)
    ensures HasReport(FrameCandidates(s, dets), Collision, dets[i].trackId, dets[j].trackId) <==>
      PairCollides(s, dets[i], dets[j], dist)
  {
    hide FrameCandidates, Sound, HasLastPoints, PairCollides, Eligible, CollisionOf, PairOf, IsDistance;
    PairCollidesIff(s, dets[i], dets[j], dist);
    if HasReport(FrameCandidates(s, dets), Collision, dets[i].trackId, dets[j].trackId) {
      var c :| c in FrameCandidates(s, dets) && c.etype == Collision && c.trackA == dets[i].trackId
        && c.trackB == dets[j].trackId;
      var p, q := FrameCollisions(s, dets, c);
      CollisionNames(s, dets, p, q, c);
      assert p == i && q == j;
    }
    if PairCollides(s, dets[i], dets[j], dist) {
      var c := CollisionOf(s, PairFor(s, dets[i], dets[j]), dets[i], dets[j])[0];
      CollisionNames(s, dets, i, j, c);
      CollisionReported(s, dets, i, j, c);
    }
  }

  /** The report of such a pair, figure by figure. */
  lemma CollisionFigures(s: Scene, dets: seq<Detection>, i: nat, j: nat, dist: real, ta: Trajectory, tb: Trajectory,
      c: Candidate)
    requires Ready(s) && Named(dets) && i < j < |dets| && IsDistance(dets[i].bbox, dets[j].bbox, dist)
    requires SeenThrice(s.store, dets[i], ta) && SeenThrice(s.store, dets[j], tb)
    requires c in FrameCandidates(s, dets) && c.etype == Collision
    requires c.trackA == dets[i].trackId && c.trackB == dets[j].trackId
    ensures c == CollisionReport(s, dets[i], dets[j], ta, tb, dist)
  {
    hide FrameCandidates, Sound, HasLastPoints, Eligible, CollisionOf, PairOf, PathOf, IsDistance, SeenThrice,
      Collides, CollisionReport;
    var p, q := FrameCollisions(s, dets, c);
    CollisionNames(s, dets, p, q, c);
    assert p == i && q == j;
    EligibleIff(s.store, dets[i]);
    EligibleIff(s.store, dets[j]);
    DistanceIs(s.math, dets[i].bbox, dets[j].bbox, dist);
    assert |ta.points| > 0 && |tb.points| > 0;
    CollisionOfIs(s, dets[i], dets[j], ta, tb);
  }

  /** Two vehicles neither of which has moved 30 pixels are never reported as a collision. */
  lemma NoMovementNoCollision(s: Scene, dets: seq<Detection>, i: nat, j: nat, dist: real)
    requires Ready(s) && s.config.enabled && Named(dets) && i < j < |dets|
    requires dets[i].trackId > 0 && dets[j].trackId > 0 && IsDistance(dets[i].bbox, dets[j].bbox, dist)
    requires forall t :: PathIs(s.store, dets[i].trackId, t) || PathIs(s.store, dets[j].trackId, t) ==>
      t.totalDistance <= 30.0
    ensures !HasReport(FrameCandidates(s, dets), Collision, dets[i].trackId, dets[j].trackId)
  {
    hide FrameCandidates, Sound, HasLastPoints, IsDistance, PathIs, HasReport;
    CollisionIff(s, dets, i, j, dist);
  }

  /** Nor are two vehicles neither of which has slowed by the configured share. */
  lemma NoSlowdownNoCollision(s: Scene, dets: seq<Detection>, i: nat, j: nat, dist: real)
    requires Ready(s) && s.config.enabled && Named(dets) && i < j < |dets|
    requires dets[i].trackId > 0 && dets[j].trackId > 0 && IsDistance(dets[i].bbox, dets[j].bbox, dist)
    requires forall t :: PathIs(s.store, dets[i].trackId, t) || PathIs(s.store, dets[j].trackId, t) ==>
      t.points == [] || !SlowedBy(t, s.config.collisionSpeedDrop)
    ensures !HasReport(FrameCandidates(s, dets), Collision, dets[i].trackId, dets[j].trackId)
  {
    hide FrameCandidates, Sound, HasLastPoints, IsDistance, PathIs, HasReport, SlowedBy;
    CollisionIff(s, dets, i, j, dist);
  }

  // ----- near misses, braking and standing vehicles of a frame -----

  /** What a frame reports of two vehicles comes from that pair, the earlier one first. */
  lemma PairReports(s: Scene, dets: seq<Detection>, i: nat, j: nat, etype: EventType)
    requires Ready(s) && s.config.enabled && Named(dets) && i < j < |dets|
    requires dets[i].trackId > 0 && dets[j].trackId > 0 && etype in {Collision, NearMiss}
    ensures HasReport(FrameCandidates(s, dets), etype, dets[i].trackId, dets[j].trackId) <==>
      && Eligible(s.store, dets[i]) && Eligible(s.store, dets[j])
      && exists c :: c in PairCandidates(s, dets[i], dets[j]) && c.etype == etype
    ensures !HasReport(FrameCandidates(s, dets), etype, dets[j].trackId, dets[i].trackId)
  {
    hide FrameCandidates, Sound, HasLastPoints, Eligible, PairCandidates, OfOne, OfStore;
    var cs, a, b := FrameCandidates(s, dets), dets[i].trackId, dets[j].trackId;
    forall c: Candidate | c in cs && c.etype == etype && {c.trackA, c.trackB} == {a, b}
      ensures c.trackA == a && OfPair(s, dets, c, i, j)
    {
      FrameIs(s, dets, c);
      PartsNamed(s, dets, c);
      var p: nat, q: nat :| OfPair(s, dets, c, p, q);
      assert c.trackA in {a, b} && c.trackB in {a, b};
      assert p == i && q == j;
    }
    if Eligible(s.store, dets[i]) && Eligible(s.store, dets[j]) {
      forall c: Candidate | c in PairCandidates(s, dets[i], dets[j]) && c.etype == etype
        ensures c in cs && c.trackA == a && c.trackB == b
      {
        assert OfPair(s, dets, c, i, j);
        FrameIs(s, dets, c);
        PartsNamed(s, dets, c);
      }
    }
  }

  ghost predicate PairNearlyCollides(s: Scene, a: Detection, b: Detection, dist: real)
    requires dist >= 0.0
  {
    exists ta, tb :: SeenThrice(s.store, a, ta) && SeenThrice(s.store, b, tb)
      && NearlyCollides(s.config, a.bbox, b.bbox, ta, tb, dist)
  }

  lemma PairNearMisses(s: Scene, a: Detection, b: Detection, dist: real)
    requires Sound(s.math) && IsDistance(a.bbox, b.bbox, dist)
    ensures PairNearlyCollides(s, a, b, dist) <==>
      && Eligible(s.store, a) && Eligible(s.store, b)
      && exists c :: c in PairCandidates(s, a, b) && c.etype == NearMiss
  {
    hide Sound, SeenThrice, Eligible, PathOf, Collides, CollisionReport, CollisionOf, NearMissOf, NearlyCollides,
         NearMissTotal, PairOf, PairCandidates;
    EligibleIff(s.store, a);
    EligibleIff(s.store, b);
    DistanceIs(s.math, a.bbox, b.bbox, dist);
    if Eligible(s.store, a) && Eligible(s.store, b) {
      var ta, tb := PathOf(s.store, a), PathOf(s.store, b);
      assert SeenThrice(s.store, a, ta) && SeenThrice(s.store, b, tb);
      NearMissOfIs(s, a, b, ta, tb);
      PairDistances(s.math, a, b, ta, tb);
      var ms := NearMissOf(s, PairFor(s, a, b), a, b);
      forall c ensures c in PairCandidates(s, a, b) && c.etype == NearMiss <==> c in ms {
        PairIs(s, a, b, c);
        KindsOfPair(s, a, b, c);
      }
      if NearlyCollides(s.config, a.bbox, b.bbox, ta, tb, dist) {
        assert ms[0] in ms;
      }
    }
  }

  lemma KindsOfPair(s: Scene, a: Detection, b: Detection, c: Candidate)
    requires Eligible(s.store, a) && Eligible(s.store, b) && PairFor(s, a, b).dist >= 0.0
    ensures c in CollisionOf(s, PairFor(s, a, b), a, b) ==> c.etype == Collision
    ensures c in NearMissOf(s, PairFor(s, a, b), a, b) ==> c.etype == NearMiss
  {
    hide PairOf, CollisionScore, NearMissScore, Hull, Eligible;
  }

  /** A frame reports detections i and j as a near miss exactly when both are vehicles seen
      three times, close but hardly overlapping, one of them fast, with a score that
      reaches the threshold. */
  lemma NearMissIff(s: Scene, dets: seq<Detection>, i: nat, j: nat, dist: real)
    requires Ready(s) && s.config.enabled && Named(dets) && i < j < |dets|
    requires dets[i].trackId > 0 && dets[j].trackId > 0 && IsDistance(dets[i].bbox, dets[j].bbox, dist)
    ensures HasReport(FrameCandidates(s, dets), NearMiss, dets[i].trackId, dets[j].trackId) <==>
      PairNearlyCollides(s, dets[i], dets[j], dist)
  {
    hide FrameCandidates, Sound, HasLastPoints, PairNearlyCollides, Eligible, PairCandidates, HasReport;
    PairReports(s, dets, i, j, NearMiss);
    PairNearMisses(s, dets[i], dets[j], dist);
  }

  ghost predicate VehicleBrakes(s: Scene, d: Detection)
  {
    exists t, decel :: SeenThrice(s.store, d, t) && IsLength(Last(t).ax, Last(t).ay, decel)
      && Brakes(s.config, t, decel)
  }

  lemma BrakeOfIff(s: Scene, d: Detection)
    requires Sound(s.math)
    ensures VehicleBrakes(s, d) <==> Eligible(s.store, d) && BrakeOf(s, d) != []
  {
    hide Sound, SeenThrice, Eligible, PathOf, Brakes, IsLength, BrakeOf, BrakeScore;
    EligibleIff(s.store, d);
    if VehicleBrakes(s, d) {
      var t, decel :| SeenThrice(s.store, d, t) && IsLength(Last(t).ax, Last(t).ay, decel)
        && Brakes(s.config, t, decel);
      LengthIs(s.math, Last(t).ax, Last(t).ay, decel);
      BrakeOfIs(s, d);
    }
    if Eligible(s.store, d) && BrakeOf(s, d) != [] {
      var t := PathOf(s.store, d);
      BrakeOfIs(s, d);
      LengthIs(s.math, Last(t).ax, Last(t).ay, Norm(s.math, Last(t).ax, Last(t).ay));
      assert SeenThrice(s.store, d, t);
    }
  }

  /** A frame reports a sudden braking of detection i exactly when it is a vehicle seen three
      times whose acceleration is beyond the limit and against its motion, with a score
      that reaches the threshold. */
  lemma BrakingIff(s: Scene, dets: seq<Detection>, i: nat)
    requires Ready(s) && s.config.enabled && Named(dets) && i < |dets| && dets[i].trackId > 0
    ensures HasReport(FrameCandidates(s, dets), SuddenBrake, dets[i].trackId, -1) <==> VehicleBrakes(s, dets[i])
  {
    hide FrameCandidates, Sound, HasLastPoints, Eligible, VehicleBrakes, BrakeOf, OfPair, OfStore;
    BrakeOfIff(s, dets[i]);
    var cs, id := FrameCandidates(s, dets), dets[i].trackId;
    forall c: Candidate | c in cs && c.etype == SuddenBrake && c.trackA == id
      ensures OfOne(s, dets, c, i)
    {
      FrameIs(s, dets, c);
      PartsNamed(s, dets, c);
      var p: nat :| OfOne(s, dets, c, p);
      assert p == i;
    }
    if Eligible(s.store, dets[i]) && BrakeOf(s, dets[i]) != [] {
      var c := BrakeOf(s, dets[i])[0];
      assert OfOne(s, dets, c, i);
      FrameIs(s, dets, c);
      PartsNamed(s, dets, c);
    }
  }

  /** A frame reports a track as a stopped vehicle exactly when a trajectory of that track
      stands still in it; the report has the score one half, whatever the configuration
      asks for, but one under a window of no points. */
  lemma StoppedIff(s: Scene, dets: seq<Detection>, id: int)
    requires Ready(s) && s.config.enabled
    ensures HasReport(FrameCandidates(s, dets), StoppedVehicle, id, -1) <==>
      exists k :: 0 <= k < |s.store| && s.store[k].trackId == id && StandsStill(s, s.store[k])
    ensures forall c :: c in FrameCandidates(s, dets) && c.etype == StoppedVehicle ==>
      c.score == if s.config.stoppedMinFrames == 0 then 1.0 else 0.5
  {
    hide FrameCandidates, Sound, StandsStill, StoppedOf, OfPair, OfOne;
    var cs := FrameCandidates(s, dets);
    forall c: Candidate | c in cs && c.etype == StoppedVehicle
      ensures exists k: nat :: OfStore(s, c, k) && c.trackA == s.store[k].trackId && StandsStill(s, s.store[k])
      ensures c.score == if s.config.stoppedMinFrames == 0 then 1.0 else 0.5
    {
      FrameIs(s, dets, c);
      PartsNamed(s, dets, c);
      var k: nat :| OfStore(s, c, k);
      StoppedOfIs(s, s.store[k]);
    }
    forall k | 0 <= k < |s.store| && s.store[k].trackId == id && StandsStill(s, s.store[k])
      ensures HasReport(cs, StoppedVehicle, id, -1)
    {
      StoppedOfIs(s, s.store[k]);
      var c := StoppedOf(s, s.store[k])[0];
      assert OfStore(s, c, k);
      FrameIs(s, dets, c);
      PartsNamed(s, dets, c);
    }
  }

  // ----- the default configuration -----

  lemma ShareAtMost(w: real, x: real)
    requires w > 0.0 && x <= 1.0
    ensures w * x <= w && (w * x == w <==> x == 1.0)
  {
  }

  /** The weights of a near miss add up to the default threshold, so only the full score
      will do: centres that coincide, 200 pixels a second, and opposite headings. */
  lemma NearMissByDefault(a: BBox, b: BBox, ta: Trajectory, tb: Trajectory, dist: real)
    requires ta.points != [] && tb.points != [] && dist >= 0.0
    requires -PI <= Last(ta).direction <= PI && -PI <= Last(tb).direction <= PI
    ensures NearlyCollides(DefaultConfig(), a, b, ta, tb, dist) <==>
      && dist == 0.0 && Iou(a, b) < 0.01 && (Last(ta).speed >= 200.0 || Last(tb).speed >= 200.0)
      && DirectionGap(Last(ta).direction, Last(tb).direction) == PI
  {
    hide Iou, DirectionGap;
    var gap := DirectionGap(Last(ta).direction, Last(tb).direction);
    GapIsTurn(Last(ta).direction, Last(tb).direction, gap);
    ShareAtMost(0.20, 1.0 - dist / 15.0);
    ShareAtMost(0.25, Min(Max(Last(ta).speed, Last(tb).speed) / 200.0, 1.0));
    ShareAtMost(0.10, Min(gap / PI, 1.0));
    FullTurn(gap);
  }

  lemma FullTurn(gap: real)
    requires 0.0 <= gap <= PI
    ensures gap / PI <= 1.0 && (gap / PI == 1.0 <==> gap == PI)
  {
  }

  /** Under the default configuration a braking vehicle is reported from an acceleration of
      164998.35 on. */
  lemma BrakingByDefault(t: Trajectory, decel: real)
    requires t.points != []
    ensures Brakes(DefaultConfig(), t, decel) <==>
      decel >= 164998.35 && Last(t).vx * Last(t).ax + Last(t).vy * Last(t).ay < 0.0
  {
    if decel > 99999.0 {
      BrakeScoreIs(DefaultConfig(), decel);
    }
  }

  /** A standing vehicle is reported after 120 points none of which is faster than one pixel a
      second. */
  lemma StandingByDefault(s: Scene, t: Trajectory)
    requires s.config == DefaultConfig()
    ensures StandsStill(s, t) <==>
      && t.classId in {2, 3, 5, 7} && |t.points| >= 120 && Last(t).frame == s.frame
      && forall j :: |t.points| - 120 <= j < |t.points| ==> t.points[j].speed <= 1.0
  {
  }
}
