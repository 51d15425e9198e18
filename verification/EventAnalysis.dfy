/** Which candidates one frame gives rise to. */
module EventAnalysis {
  import opened Types
  import opened Geometry
  import opened Trajectories
  import opened Events

  /** Everything a frame is judged against. */
  datatype Scene = Scene(
    config: EventConfig,
    math: Maths,
    store: seq<Trajectory>,
    frame: int,
    timestamp: real)

  /** The last point is read of every trajectory as long as the window asks for; only a
      window that asks for nothing can meet one without points. */
  ghost predicate HasLastPoints(config: EventConfig, store: seq<Trajectory>)
  {
    config.stoppedMinFrames > 0 || forall t :: t in store ==> t.points != []
  }

  lemma DefaultHasLastPoints(store: seq<Trajectory>)
    ensures HasLastPoints(DefaultConfig(), store)
  {
  }

  ghost predicate Ready(s: Scene) { Sound(s.math) && HasLastPoints(s.config, s.store) }

  function DefaultConfig(): EventConfig
  {
    EventConfig(true, 0.01, 0.30, 15.0, 1.0, 120, 99999.0, 0.55, 10, 0.45, 0.25, 0.10, 0.20)
  }

  function SafetyCriticalConfig(): EventConfig
  {
    EventConfig(true, 0.01, 0.25, 60.0, 5.0, 30, 100.0, 0.15, 20, 0.25, 0.30, 0.20, 0.25)
  }

  predicate IsVehicle(classId: int)
  {
    classId == 2 || classId == 3 || classId == 5 || classId == 7
  }

  /** A tracked vehicle with at least three sightings. */
  predicate Eligible(store: seq<Trajectory>, d: Detection)
  {
    && d.trackId > 0 && IsVehicle(d.classId)
    && Find(store, d.trackId) < |store|
    && |store[Find(store, d.trackId)].points| >= 3
  }

  function PathOf(store: seq<Trajectory>, d: Detection): (t: Trajectory)
    requires Eligible(store, d)
    ensures |t.points| >= 3
  {
    store[Find(store, d.trackId)]
  }

  function Last(t: Trajectory): Point
    requires t.points != []
  {
    t.points[|t.points| - 1]
  }

  function Abs(x: real): real { if x < 0.0 then -x else x }

  // ----- pairs of vehicles -----

  datatype Pair = Pair(
    iou: real,
    dist: real,
    speedA: real,
    speedB: real,
    maxDrop: real,
    dirDiff: real,
    maxDist: real,
    relDist: real,
    postStop: bool)

  function CenterDistance(math: Maths, a: BBox, b: BBox): real
  {
    Norm(math, (a.x + a.w / 2.0) - (b.x + b.w / 2.0), (a.y + a.h / 2.0) - (b.y + b.h / 2.0))
  }

  /** How far the current speed has fallen below the average. */
  function Drop(t: Trajectory): real
    requires t.points != []
  {
    if t.avgSpeed > 0.0 then 1.0 - Last(t).speed / t.avgSpeed else 0.0
  }

  function DirectionGap(a: real, b: real): real
  {
    var d := Abs(a - b);
    if d > PI then 2.0 * PI - d else d
  }

  predicate NearStopped(t: Trajectory)
    requires t.points != []
  {
    Last(t).speed < 5.0 && t.avgSpeed > 10.0
  }

  function PairOf(math: Maths, a: Detection, b: Detection, ta: Trajectory, tb: Trajectory): Pair
    requires ta.points != [] && tb.points != []
  {
    var dist := CenterDistance(math, a.bbox, b.bbox);
    var minDim := Min(Min(a.bbox.w, a.bbox.h), Min(b.bbox.w, b.bbox.h));
    Pair(
      Iou(a.bbox, b.bbox), dist, Last(ta).speed, Last(tb).speed,
      Max(Drop(ta), Drop(tb)),
      DirectionGap(Last(ta).direction, Last(tb).direction),
      Max(ta.totalDistance, tb.totalDistance),
      if minDim > 0.0 then dist / minDim else dist,
      NearStopped(ta) || NearStopped(tb))
  }

  function Weigh(config: EventConfig, overlap: real, drop: real, direction: real, proximity: real): real
  {
    config.wOverlap * overlap + config.wSpeedChange * drop
    + config.wDirectionChange * direction + config.wProximity * proximity
  }

  function WeightedPart(config: EventConfig, p: Pair): real
  {
    Weigh(config, Min(p.iou * 5.0, 1.0), Min(p.maxDrop, 1.0), Min(p.dirDiff / PI, 1.0),
          Max(0.0, 1.0 - p.relDist / 5.0))
  }

  function CollisionScore(config: EventConfig, p: Pair): real
  {
    WeightedPart(config, p) + if p.postStop then 0.20 else 0.0
  }

  function CollisionOf(s: Scene, p: Pair, a: Detection, b: Detection): seq<Candidate>
  {
    if (p.iou >= s.config.collisionIouThreshold || p.relDist < 2.5)
       && p.maxDrop >= s.config.collisionSpeedDrop
       && p.maxDist > 30.0
       && CollisionScore(s.config, p) >= s.config.confidenceThreshold
    then [Candidate(Collision, s.frame, s.timestamp, a.trackId, b.trackId, CollisionScore(s.config, p),
                    p.iou, p.maxDrop, p.dirDiff, p.dist, Hull(a.bbox, b.bbox))]
    else []
  }

  function NearMissScore(config: EventConfig, p: Pair): real
    requires config.nearMissDistance != 0.0
  {
    config.wProximity * Max(0.0, 1.0 - p.dist / config.nearMissDistance)
    + config.wSpeedChange * Min(Max(p.speedA, p.speedB) / 200.0, 1.0)
    + config.wDirectionChange * Min(p.dirDiff / PI, 1.0)
  }

  function NearMissOf(s: Scene, p: Pair, a: Detection, b: Detection): seq<Candidate>
    requires p.dist >= 0.0
  {
    if p.dist < s.config.nearMissDistance
       && p.iou < s.config.collisionIouThreshold
       && (p.speedA > 20.0 || p.speedB > 20.0)
       && NearMissScore(s.config, p) >= s.config.confidenceThreshold
    then [Candidate(NearMiss, s.frame, s.timestamp, a.trackId, b.trackId, NearMissScore(s.config, p),
                    0.0, 0.0, 0.0, p.dist, Hull(a.bbox, b.bbox))]
    else []
  }

  function PairFor(s: Scene, a: Detection, b: Detection): Pair
    requires Eligible(s.store, a) && Eligible(s.store, b)
  {
    PairOf(s.math, a, b, PathOf(s.store, a), PathOf(s.store, b))
  }

  function PairCandidates(s: Scene, a: Detection, b: Detection): seq<Candidate>
    requires Sound(s.math) && Eligible(s.store, a)
  {
    if Eligible(s.store, b) then
      var p := PairFor(s, a, b);
      assert p.dist >= 0.0 by {
        hide Iou;
        DistanceNonNegative(s.math, a.bbox, b.bbox);
      }
      CollisionOf(s, p, a, b) + NearMissOf(s, p, a, b)
    else []
  }

  lemma DistanceNonNegative(math: Maths, a: BBox, b: BBox)
    requires Sound(math)
    ensures CenterDistance(math, a, b) >= 0.0
  {
    NormProperties(math, (a.x + a.w / 2.0) - (b.x + b.w / 2.0), (a.y + a.h / 2.0) - (b.y + b.h / 2.0));
  }

  // ----- single vehicles -----

  /** A positive deceleration over a limit of zero is infinite in C, and capped. */
  function BrakeScore(config: EventConfig, decel: real): real
    requires decel > config.suddenBrakeDecel
  {
    if config.suddenBrakeDecel == 0.0 then 1.0 else Min(decel / (config.suddenBrakeDecel * 3.0), 1.0)
  }

  function BrakeOf(s: Scene, a: Detection): seq<Candidate>
    requires Eligible(s.store, a)
  {
    var last := Last(PathOf(s.store, a));
    var decel := Norm(s.math, last.ax, last.ay);
    if decel > s.config.suddenBrakeDecel
       && last.vx * last.ax + last.vy * last.ay < 0.0
       && BrakeScore(s.config, decel) >= s.config.confidenceThreshold
    then [Candidate(SuddenBrake, s.frame, s.timestamp, a.trackId, -1, BrakeScore(s.config, decel),
                    0.0, decel, 0.0, 0.0, a.bbox)]
    else []
  }

  /** Half the window over the window; zero over zero is no number, and fminf then gives 1. */
  function StoppedScore(window: int): real
  {
    if window == 0 then 1.0 else Min(window as real / (window * 2) as real, 1.0)
  }

  predicate AllSlow(points: seq<Point>, limit: real, start: nat)
  {
    forall j :: start <= j < |points| ==> points[j].speed <= limit
  }

  function StoppedOf(s: Scene, t: Trajectory): seq<Candidate>
    requires s.config.stoppedMinFrames > 0 || t.points != []
  {
    var window := s.config.stoppedMinFrames;
    if IsVehicle(t.classId) && |t.points| >= window
       && AllSlow(t.points, s.config.stoppedSpeedThreshold, |t.points| - window)
       && Last(t).frame == s.frame
    then
      var p := Last(t);
      [Candidate(StoppedVehicle, s.frame, s.timestamp, t.trackId, -1, StoppedScore(window),
                 0.0, 0.0, 0.0, 0.0, BBox(p.cx - p.w / 2.0, p.cy - p.h / 2.0, p.w, p.h))]
    else []
  }

  // ----- one frame -----

  /** Pairs of detection i with detections i + 1 .. j - 1. */
  function Row(s: Scene, dets: seq<Detection>, i: nat, j: nat): seq<Candidate>
    requires Sound(s.math) && i < j <= |dets| && Eligible(s.store, dets[i])
  {
    if j == i + 1 then [] else Row(s, dets, i, j - 1) + PairCandidates(s, dets[i], dets[j - 1])
  }

  function FromDetections(s: Scene, dets: seq<Detection>, n: nat): seq<Candidate>
    requires Ready(s) && n <= |dets|
  {
    if n == 0 then []
    else
      FromDetections(s, dets, n - 1)
      + if Eligible(s.store, dets[n - 1]) then Row(s, dets, n - 1, |dets|) + BrakeOf(s, dets[n - 1]) else []
  }

  function FromStore(s: Scene, n: nat): seq<Candidate>
    requires Ready(s) && n <= |s.store|
  {
    if n == 0 then [] else FromStore(s, n - 1) + StoppedOf(s, s.store[n - 1])
  }

  function FrameCandidates(s: Scene, dets: seq<Detection>): seq<Candidate>
    requires Ready(s)
  {
    if !s.config.enabled then [] else FromDetections(s, dets, |dets|) + FromStore(s, |s.store|)
  }

  // ----- how high a score can be -----

  lemma Weighted(w: real, x: real)
    requires w >= 0.0 && x <= 1.0
    ensures w * x <= w
  {
  }

  ghost predicate NonNegativeWeights(config: EventConfig)
  {
    && config.wOverlap >= 0.0 && config.wSpeedChange >= 0.0
    && config.wDirectionChange >= 0.0 && config.wProximity >= 0.0
  }

  function WeightTotal(config: EventConfig): real
  {
    config.wOverlap + config.wSpeedChange + config.wDirectionChange + config.wProximity
  }

  lemma WeighBound(config: EventConfig, overlap: real, drop: real, direction: real, proximity: real)
    requires NonNegativeWeights(config)
    requires overlap <= 1.0 && drop <= 1.0 && direction <= 1.0 && proximity <= 1.0
    ensures Weigh(config, overlap, drop, direction, proximity) <= WeightTotal(config)
  {
    Weighted(config.wOverlap, overlap);
    Weighted(config.wSpeedChange, drop);
    Weighted(config.wDirectionChange, direction);
    Weighted(config.wProximity, proximity);
  }

  lemma WeightedPartBound(config: EventConfig, p: Pair)
    requires NonNegativeWeights(config) && p.relDist >= 0.0
    ensures WeightedPart(config, p) <= WeightTotal(config)
  {
    hide Weigh, WeightTotal;
    WeighBound(config, Min(p.iou * 5.0, 1.0), Min(p.maxDrop, 1.0), Min(p.dirDiff / PI, 1.0),
               Max(0.0, 1.0 - p.relDist / 5.0));
  }

  /** A collision score is at most the sum of the weights plus the stop bonus. */
  lemma CollisionScoreBound(config: EventConfig, p: Pair)
    requires NonNegativeWeights(config) && p.relDist >= 0.0
    ensures CollisionScore(config, p) <= WeightTotal(config) + 0.20
  {
    hide WeightedPart;
    WeightedPartBound(config, p);
  }

  /** With weights that sum to one, a collision score exceeds one exactly when a vehicle
      has nearly stopped and the weighted part alone exceeds 0.8. */
  lemma CollisionAboveOneIff(config: EventConfig, p: Pair)
    requires NonNegativeWeights(config) && WeightTotal(config) == 1.0 && p.relDist >= 0.0
    ensures CollisionScore(config, p) > 1.0 <==> p.postStop && WeightedPart(config, p) > 0.8
  {
    hide WeightedPart;
    WeightedPartBound(config, p);
  }

  lemma NearMissScoreBound(config: EventConfig, p: Pair)
    requires NonNegativeWeights(config) && 0.0 <= p.dist < config.nearMissDistance
    ensures NearMissScore(config, p) <= WeightTotal(config)
  {
    var speed, direction := Min(Max(p.speedA, p.speedB) / 200.0, 1.0), Min(p.dirDiff / PI, 1.0);
    var proximity := Max(0.0, 1.0 - p.dist / config.nearMissDistance);
    NonNegativeQuotient(p.dist, config.nearMissDistance);
    WeighBound(config, 0.0, speed, direction, proximity);
    assert NearMissScore(config, p) == Weigh(config, 0.0, speed, direction, proximity);
  }

  lemma BrakeScoreBound(config: EventConfig, decel: real)
    requires decel > config.suddenBrakeDecel
    ensures BrakeScore(config, decel) <= 1.0
  {
  }

  lemma NonNegativeQuotient(x: real, y: real)
    requires x >= 0.0 && y > 0.0
    ensures x / y >= 0.0
  {
  }

  lemma PairDistances(math: Maths, a: Detection, b: Detection, ta: Trajectory, tb: Trajectory)
    requires Sound(math) && ta.points != [] && tb.points != []
    ensures PairOf(math, a, b, ta, tb).dist >= 0.0 && PairOf(math, a, b, ta, tb).relDist >= 0.0
  {
    hide Iou, Drop, DirectionGap, Sound, NearStopped, CenterDistance;
    DistanceNonNegative(math, a.bbox, b.bbox);
    var p, minDim := PairOf(math, a, b, ta, tb), Min(Min(a.bbox.w, a.bbox.h), Min(b.bbox.w, b.bbox.h));
    if minDim > 0.0 {
      NonNegativeQuotient(p.dist, minDim);
    }
  }

  /** No score of any kind exceeds this. */
  function TopScore(config: EventConfig): real
  {
    Max(1.0, WeightTotal(config) + 0.20)
  }

  // ----- what a candidate guarantees -----

  /** Two collision reports of one ordered pair in one frame. */
  predicate Clash(x: Candidate, y: Candidate)
  {
    x.etype == Collision && SameKey(x, y) && x.frame == y.frame
  }

  ghost predicate ClashFree(cs: seq<Candidate>)
  {
    forall p, q :: 0 <= p < q < |cs| ==> !Clash(cs[p], cs[q])
  }

  /** What every candidate of a frame satisfies by itself. */
  ghost predicate Sane(s: Scene, c: Candidate)
  {
    && c.frame == s.frame && c.timestamp == s.timestamp
    && c.etype in {Collision, NearMiss, SuddenBrake, StoppedVehicle}
    && (c.etype == StoppedVehicle ==> c.score == if s.config.stoppedMinFrames == 0 then 1.0 else 0.5)
    && (c.etype != StoppedVehicle ==> c.score >= s.config.confidenceThreshold)
    && (NonNegativeWeights(s.config) ==> c.score <= TopScore(s.config))
    && (NonNegativeWeights(s.config) && WeightTotal(s.config) <= 1.0 && c.etype != Collision ==> c.score <= 1.0)
    && (c.trackB > 0 || c.trackB == -1)
  }

  lemma HalfWindow(window: int)
    requires window != 0
    ensures StoppedScore(window) == 0.5
  {
    var w := window as real;
    assert (window * 2) as real == 2.0 * w;
    assert w / (2.0 * w) == 0.5 by {
      assert 0.5 * (2.0 * w) == w;
    }
  }

  /** A collision candidate comes from a pair: first the earlier detection, then the later. */
  ghost predicate CollisionAt(s: Scene, dets: seq<Detection>, i: nat, j: nat, c: Candidate)
  {
    && i < j < |dets| && Eligible(s.store, dets[i]) && Eligible(s.store, dets[j])
    && c in CollisionOf(s, PairFor(s, dets[i], dets[j]), dets[i], dets[j])
  }

  lemma CollisionNames(s: Scene, dets: seq<Detection>, i: nat, j: nat, c: Candidate)
    requires CollisionAt(s, dets, i, j, c)
    ensures c.etype == Collision && c.frame == s.frame
    ensures c.trackA == dets[i].trackId > 0 && c.trackB == dets[j].trackId > 0
    ensures c.score == CollisionScore(s.config, PairFor(s, dets[i], dets[j]))
  {
    hide PairOf, CollisionScore, Hull, Find;
  }

  lemma PairSane(s: Scene, a: Detection, b: Detection)
    requires Sound(s.math) && Eligible(s.store, a)
    ensures forall c :: c in PairCandidates(s, a, b) ==> Sane(s, c)
    ensures forall c :: c in PairCandidates(s, a, b) && c.etype == Collision ==>
      Eligible(s.store, b) && c in CollisionOf(s, PairFor(s, a, b), a, b)
    ensures ClashFree(PairCandidates(s, a, b))
  {
    hide PairOf, CollisionScore, NearMissScore, Hull, Find;
    if Eligible(s.store, b) {
      var p := PairFor(s, a, b);
      PairDistances(s.math, a, b, PathOf(s.store, a), PathOf(s.store, b));
      if NonNegativeWeights(s.config) {
        CollisionScoreBound(s.config, p);
        if p.dist < s.config.nearMissDistance {
          NearMissScoreBound(s.config, p);
        }
      }
    }
  }

  lemma {:induction false} RowSane(s: Scene, dets: seq<Detection>, i: nat, j: nat)
    requires Sound(s.math) && i < j <= |dets| && Eligible(s.store, dets[i])
    requires Named(dets)
    ensures forall c :: c in Row(s, dets, i, j) ==> Sane(s, c)
    ensures forall c :: c in Row(s, dets, i, j) && c.etype == Collision ==>
      exists k :: i < k < j && CollisionAt(s, dets, i, k, c)
    ensures ClashFree(Row(s, dets, i, j))
  {
    hide PairCandidates, Sane, Eligible, CollisionOf, PairOf;
    if j > i + 1 {
      RowSane(s, dets, i, j - 1);
      PairSane(s, dets[i], dets[j - 1]);
      var before, more := Row(s, dets, i, j - 1), PairCandidates(s, dets[i], dets[j - 1]);
      forall c: Candidate | c in before + more && c.etype == Collision
        ensures exists k :: i < k < j && CollisionAt(s, dets, i, k, c)
      {
        if c in more {
          assert CollisionAt(s, dets, i, j - 1, c);
        } else {
          var k :| i < k < j - 1 && CollisionAt(s, dets, i, k, c);
        }
      }
      RowApart(s, dets, i, j - 1);
      ClashFreeConcat(before, more);
    }
  }

  /** The collisions of a pair do not clash with those of earlier pairs of the row. */
  lemma {:induction false} RowApart(s: Scene, dets: seq<Detection>, i: nat, j: nat)
    requires Sound(s.math) && i < j < |dets| && Eligible(s.store, dets[i]) && Named(dets)
    requires forall c :: c in Row(s, dets, i, j) && c.etype == Collision ==>
      exists k :: i < k < j && CollisionAt(s, dets, i, k, c)
    ensures forall x, y :: x in Row(s, dets, i, j) && y in PairCandidates(s, dets[i], dets[j]) ==> !Clash(x, y)
  {
    hide PairCandidates, Row, Sane, Eligible, CollisionOf, PairOf, CollisionScore;
    PairSane(s, dets[i], dets[j]);
    forall x, y | x in Row(s, dets, i, j) && y in PairCandidates(s, dets[i], dets[j]) ensures !Clash(x, y) {
      if x.etype == Collision && y.etype == Collision {
        var k :| i < k < j && CollisionAt(s, dets, i, k, x);
        CollisionNames(s, dets, i, k, x);
        assert CollisionAt(s, dets, i, j, y);
        CollisionNames(s, dets, i, j, y);
      }
    }
  }

  /** Detections of a frame carry different ids, unless they carry none. */
  ghost predicate Named(dets: seq<Detection>)
  {
    forall p, q :: 0 <= p < q < |dets| && dets[p].trackId > 0 ==> dets[p].trackId != dets[q].trackId
  }

  lemma ClashFreeConcat(a: seq<Candidate>, b: seq<Candidate>)
    requires ClashFree(a) && ClashFree(b)
    requires forall x, y :: x in a && y in b ==> !Clash(x, y)
    ensures ClashFree(a + b)
  {
    forall p, q | 0 <= p < q < |a + b| ensures !Clash((a + b)[p], (a + b)[q]) {
      if p < |a| <= q {
        assert a[p] in a && b[q - |a|] in b;
      }
    }
  }

  lemma BrakeSane(s: Scene, a: Detection)
    requires Eligible(s.store, a)
    ensures |BrakeOf(s, a)| <= 1
    ensures forall c :: c in BrakeOf(s, a) ==> Sane(s, c) && c.etype == SuddenBrake
  {
    hide BrakeScore, Norm, Find;
    var last := Last(PathOf(s.store, a));
    if Norm(s.math, last.ax, last.ay) > s.config.suddenBrakeDecel {
      BrakeScoreBound(s.config, Norm(s.math, last.ax, last.ay));
    }
  }

  lemma {:induction false} VehiclesSane(s: Scene, dets: seq<Detection>, n: nat)
    requires Ready(s) && n <= |dets| && Named(dets)
    ensures forall c :: c in FromDetections(s, dets, n) ==> Sane(s, c)
    ensures forall c :: c in FromDetections(s, dets, n) && c.etype == Collision ==>
      exists i, k :: 0 <= i < n && CollisionAt(s, dets, i, k, c)
    ensures ClashFree(FromDetections(s, dets, n))
  {
    hide Row, BrakeOf, Sane, Eligible, Sound, HasLastPoints, CollisionAt;
    if n > 0 {
      VehiclesSane(s, dets, n - 1);
      if Eligible(s.store, dets[n - 1]) {
        RowSane(s, dets, n - 1, |dets|);
        BrakeSane(s, dets[n - 1]);
        var before := FromDetections(s, dets, n - 1);
        var row, brake := Row(s, dets, n - 1, |dets|), BrakeOf(s, dets[n - 1]);
        ClashFreeConcat(row, brake);
        forall c: Candidate | c in before + (row + brake) && c.etype == Collision
          ensures exists i, k :: 0 <= i < n && CollisionAt(s, dets, i, k, c)
        {
          if c in row {
            var k :| n - 1 < k < |dets| && CollisionAt(s, dets, n - 1, k, c);
          } else {
            assert c in before;
            var i, k :| 0 <= i < n - 1 && CollisionAt(s, dets, i, k, c);
          }
        }
        DetectionsApart(s, dets, n - 1, before, row + brake);
        ClashFreeConcat(before, row + brake);
      }
    }
  }

  /** Collisions led by different detections do not clash. */
  lemma DetectionsApart(s: Scene, dets: seq<Detection>, n: nat, before: seq<Candidate>, more: seq<Candidate>)
    requires n < |dets| && Named(dets)
    requires forall c :: c in before && c.etype == Collision ==>
      exists i, k :: 0 <= i < n && CollisionAt(s, dets, i, k, c)
    requires forall c :: c in more && c.etype == Collision ==>
      exists k :: n < k < |dets| && CollisionAt(s, dets, n, k, c)
    ensures forall x, y :: x in before && y in more ==> !Clash(x, y)
  {
    hide CollisionAt;
    forall x, y | x in before && y in more ensures !Clash(x, y) {
      if x.etype == Collision && y.etype == Collision {
        var i, k :| 0 <= i < n && CollisionAt(s, dets, i, k, x);
        var j :| n < j < |dets| && CollisionAt(s, dets, n, j, y);
        CollisionNames(s, dets, i, k, x);
        CollisionNames(s, dets, n, j, y);
      }
    }
  }

  lemma StoppedSane(s: Scene, t: Trajectory)
    requires s.config.stoppedMinFrames > 0 || t.points != []
    ensures |StoppedOf(s, t)| <= 1
    ensures forall c :: c in StoppedOf(s, t) ==> Sane(s, c) && c.etype == StoppedVehicle
  {
    if s.config.stoppedMinFrames != 0 {
      HalfWindow(s.config.stoppedMinFrames);
    }
  }

  lemma {:induction false} StoreSane(s: Scene, n: nat)
    requires Ready(s) && n <= |s.store|
    ensures forall c :: c in FromStore(s, n) ==> Sane(s, c) && c.etype == StoppedVehicle
  {
    hide StoppedOf, Sane, Sound;
    if n > 0 {
      StoreSane(s, n - 1);
      StoppedSane(s, s.store[n - 1]);
    }
  }

  /** Every collision of a frame is that of two of its detections. */
  lemma FrameCollisions(s: Scene, dets: seq<Detection>, c: Candidate) returns (i: nat, j: nat)
    requires Ready(s) && Named(dets) && c in FrameCandidates(s, dets) && c.etype == Collision
    ensures CollisionAt(s, dets, i, j, c)
  {
    hide FromDetections, FromStore, Sane, Sound, HasLastPoints, CollisionAt;
    VehiclesSane(s, dets, |dets|);
    StoreSane(s, |s.store|);
    assert c in FromDetections(s, dets, |dets|);
    i, j :| 0 <= i < |dets| && CollisionAt(s, dets, i, j, c);
  }

  /** One frame with distinct names reports each ordered pair of colliding vehicles at
      most once, always as two different named detections, and every candidate but
      those for stopped vehicles reaches the confidence threshold. */
  lemma FrameSane(s: Scene, dets: seq<Detection>)
    requires Ready(s) && Named(dets)
    ensures forall c :: c in FrameCandidates(s, dets) ==> Sane(s, c)
    ensures forall c :: c in FrameCandidates(s, dets) && c.etype == Collision ==>
      c.trackA > 0 && c.trackB > 0 && c.trackA != c.trackB
    ensures ClashFree(FrameCandidates(s, dets))
  {
    FrameClashFree(s, dets);
    hide FromDetections, FromStore, Sane, Sound, HasLastPoints, CollisionAt, ClashFree;
    VehiclesSane(s, dets, |dets|);
    StoreSane(s, |s.store|);
    forall c: Candidate | c in FrameCandidates(s, dets) && c.etype == Collision
      ensures c.trackA > 0 && c.trackB > 0 && c.trackA != c.trackB
    {
      var i, j := FrameCollisions(s, dets, c);
      CollisionNames(s, dets, i, j, c);
    }
  }

  lemma FrameClashFree(s: Scene, dets: seq<Detection>)
    requires Ready(s) && Named(dets)
    ensures ClashFree(FrameCandidates(s, dets))
  {
    hide FromDetections, FromStore, Sane, Sound, HasLastPoints, CollisionAt, ClashFree;
    VehiclesSane(s, dets, |dets|);
    StoreSane(s, |s.store|);
    var a, b := FromDetections(s, dets, |dets|), FromStore(s, |s.store|);
    StoppedClashFree(b);
    ClashFreeConcat(a, b);
    StoppedClashFree([]);
  }

  lemma StoppedClashFree(cs: seq<Candidate>)
    requires forall c :: c in cs ==> c.etype == StoppedVehicle
    ensures ClashFree(cs)
  {
  }

  // ----- every collision is reported -----

  lemma {:induction false} RowHas(s: Scene, dets: seq<Detection>, i: nat, k: nat, j: nat)
    requires Sound(s.math) && i < k < j <= |dets| && Eligible(s.store, dets[i])
    ensures forall c :: c in PairCandidates(s, dets[i], dets[k]) ==> c in Row(s, dets, i, j)
  {
    hide PairCandidates, Eligible;
    if k < j - 1 {
      RowHas(s, dets, i, k, j - 1);
    }
  }

  lemma {:induction false} DetectionsHave(s: Scene, dets: seq<Detection>, i: nat, n: nat)
    requires Ready(s) && i < n <= |dets| && Eligible(s.store, dets[i])
    ensures forall c :: c in Row(s, dets, i, |dets|) ==> c in FromDetections(s, dets, n)
  {
    hide Row, BrakeOf, Eligible, Sound, HasLastPoints;
    if i < n - 1 {
      DetectionsHave(s, dets, i, n - 1);
    }
  }

  lemma CollisionReported(s: Scene, dets: seq<Detection>, i: nat, j: nat, c: Candidate)
    requires Ready(s) && s.config.enabled && CollisionAt(s, dets, i, j, c)
    ensures c in FrameCandidates(s, dets)
  {
    hide Row, FromDetections, FromStore, Eligible, CollisionOf, PairOf, NearMissOf, Sound, HasLastPoints;
    RowHas(s, dets, i, j, |dets|);
    DetectionsHave(s, dets, i, |dets|);
  }

  // ----- what does not matter, and what does -----

  lemma NormOfOpposite(math: Maths, x: real, y: real)
    ensures Norm(math, -x, -y) == Norm(math, x, y)
  {
    assert Square(-x) == Square(x) && Square(-y) == Square(y);
  }

  lemma HullSymmetric(a: BBox, b: BBox)
    ensures Hull(a, b) == Hull(b, a)
  {
  }

  lemma DistanceSymmetric(math: Maths, a: BBox, b: BBox)
    ensures CenterDistance(math, a, b) == CenterDistance(math, b, a)
  {
    hide Norm;
    NormOfOpposite(math, (a.x + a.w / 2.0) - (b.x + b.w / 2.0), (a.y + a.h / 2.0) - (b.y + b.h / 2.0));
    assert -((a.x + a.w / 2.0) - (b.x + b.w / 2.0)) == (b.x + b.w / 2.0) - (a.x + a.w / 2.0);
    assert -((a.y + a.h / 2.0) - (b.y + b.h / 2.0)) == (b.y + b.h / 2.0) - (a.y + a.h / 2.0);
  }

  lemma PairSymmetric(math: Maths, a: Detection, b: Detection, ta: Trajectory, tb: Trajectory)
    requires ta.points != [] && tb.points != []
    ensures var p, q := PairOf(math, a, b, ta, tb), PairOf(math, b, a, tb, ta);
      q == OtherWay(p)
  {
    hide Iou, CenterDistance, Drop, NearStopped;
    IouSymmetric(a.bbox, b.bbox);
    DistanceSymmetric(math, a.bbox, b.bbox);
  }

  function Turned(c: Candidate): Candidate { c.(trackA := c.trackB, trackB := c.trackA) }

  /** Meeting the two vehicles in the other order gives the same verdicts with the same
      figures; only which of them is named first changes. */
  lemma VerdictSymmetric(s: Scene, a: Detection, b: Detection)
    requires Sound(s.math) && Eligible(s.store, a) && Eligible(s.store, b)
    ensures |PairCandidates(s, b, a)| == |PairCandidates(s, a, b)|
    ensures forall k :: 0 <= k < |PairCandidates(s, a, b)| ==>
      PairCandidates(s, b, a)[k] == Turned(PairCandidates(s, a, b)[k])
  {
    hide PairOf, Eligible, PathOf, CollisionOf, NearMissOf, Sound;
    var ta, tb := PathOf(s.store, a), PathOf(s.store, b);
    PairSymmetric(s.math, a, b, ta, tb);
    PairDistances(s.math, a, b, ta, tb);
    CollisionTurned(s, PairFor(s, a, b), a, b);
    NearMissTurned(s, PairFor(s, a, b), a, b);
  }

  function OtherWay(p: Pair): Pair { p.(speedA := p.speedB, speedB := p.speedA) }

  lemma CollisionTurned(s: Scene, p: Pair, a: Detection, b: Detection)
    ensures |CollisionOf(s, OtherWay(p), b, a)| == |CollisionOf(s, p, a, b)|
    ensures forall k :: 0 <= k < |CollisionOf(s, p, a, b)| ==>
      CollisionOf(s, OtherWay(p), b, a)[k] == Turned(CollisionOf(s, p, a, b)[k])
  {
    hide Hull, Weigh;
    HullSymmetric(a.bbox, b.bbox);
  }

  lemma NearMissTurned(s: Scene, p: Pair, a: Detection, b: Detection)
    requires p.dist >= 0.0
    ensures |NearMissOf(s, OtherWay(p), b, a)| == |NearMissOf(s, p, a, b)|
    ensures forall k :: 0 <= k < |NearMissOf(s, p, a, b)| ==>
      NearMissOf(s, OtherWay(p), b, a)[k] == Turned(NearMissOf(s, p, a, b)[k])
  {
    hide Hull, NearMissScore;
    HullSymmetric(a.bbox, b.bbox);
    if p.dist < s.config.nearMissDistance {
      NearMissScoreTurned(s.config, p);
    }
  }

  lemma NearMissScoreTurned(config: EventConfig, p: Pair)
    requires config.nearMissDistance != 0.0
    ensures NearMissScore(config, OtherWay(p)) == NearMissScore(config, p)
  {
    assert Max(p.speedB, p.speedA) == Max(p.speedA, p.speedB);
  }

  /** Both presets have non-negative weights that sum to one. */
  lemma PresetWeights()
    ensures NonNegativeWeights(DefaultConfig()) && WeightTotal(DefaultConfig()) == 1.0
    ensures NonNegativeWeights(SafetyCriticalConfig()) && WeightTotal(SafetyCriticalConfig()) == 1.0
  {
  }
}
