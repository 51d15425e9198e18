/** Trajectories: one point per sighting of a track, with velocity taken from the
    previous point, and summary figures recomputed from the stored points. */
module Trajectories {
  import opened Types
  import opened Geometry

  const PI: real := 3.14159265358979323846

  /** The square root and arctangent of the C library, as parameters. */
  datatype Maths = Maths(sqrt: real -> real, atan2: (real, real) -> real)

  ghost predicate Sound(math: Maths)
  {
    && (forall x :: x >= 0.0 ==> math.sqrt(x) >= 0.0 && math.sqrt(x) * math.sqrt(x) == x)
    && (forall y, x :: -PI <= math.atan2(y, x) <= PI)
  }

  datatype Point = Point(
    frame: int,
    timestamp: real,
    cx: real, cy: real,
    w: real, h: real,
    vx: real, vy: real,
    speed: real,
    ax: real, ay: real,
    direction: real)

  datatype Trajectory = Trajectory(
    trackId: int,
    classId: int,
    points: seq<Point>,
    avgSpeed: real,
    maxSpeed: real,
    totalDistance: real,
    isStationary: bool)

  function Square(x: real): real { x * x }

  function Norm(math: Maths, x: real, y: real): real { math.sqrt(Square(x) + Square(y)) }

  /** A sighting at rest: everything but the motion. */
  function Resting(det: Detection, frame: int, timestamp: real): Point
  {
    Point(frame, timestamp, det.bbox.x + det.bbox.w / 2.0, det.bbox.y + det.bbox.h / 2.0,
          det.bbox.w, det.bbox.h, 0.0, 0.0, 0.0, 0.0, 0.0, 0.0)
  }

  /** The motion of pt seen from prev; none when the clock has not advanced. */
  function Moving(math: Maths, prev: Point, pt: Point): Point
  {
    var dtMs := pt.timestamp - prev.timestamp;
    if dtMs > 0.0 then
      var dt := dtMs / 1000.0;
      var vx, vy := (pt.cx - prev.cx) / dt, (pt.cy - prev.cy) / dt;
      pt.(vx := vx, vy := vy, speed := Norm(math, vx, vy), direction := math.atan2(vy, vx),
          ax := (vx - prev.vx) / dt, ay := (vy - prev.vy) / dt)
    else pt
  }

  function Extended(math: Maths, points: seq<Point>, pt: Point): seq<Point>
  {
    points + [if points == [] then pt else Moving(math, points[|points| - 1], pt)]
  }

  /** Index of the first trajectory of a track, or the size of the store. */
  function Find(store: seq<Trajectory>, trackId: int): (i: nat)
    ensures i <= |store|
    ensures i < |store| ==> store[i].trackId == trackId
    ensures forall k :: 0 <= k < i ==> store[k].trackId != trackId
  {
    FindFrom(store, trackId, 0)
  }

  function FindFrom(store: seq<Trajectory>, trackId: int, from: nat): (i: nat)
    requires from <= |store|
    ensures from <= i <= |store|
    ensures i < |store| ==> store[i].trackId == trackId
    ensures forall k :: from <= k < i ==> store[k].trackId != trackId
    decreases |store| - from
  {
    if from == |store| || store[from].trackId == trackId then from else FindFrom(store, trackId, from + 1)
  }

  function WithTrack(store: seq<Trajectory>, det: Detection): seq<Trajectory>
  {
    if Find(store, det.trackId) < |store| then store
    else store + [Trajectory(det.trackId, det.classId, [], 0.0, 0.0, 0.0, false)]
  }

  lemma WithTrackHolds(store: seq<Trajectory>, det: Detection)
    ensures Find(store, det.trackId) < |WithTrack(store, det)|
    ensures WithTrack(store, det)[Find(store, det.trackId)].trackId == det.trackId
    ensures Find(WithTrack(store, det), det.trackId) == Find(store, det.trackId)
  {
  }

  /** One detection taken into the store; those without a track leave it as it is. */
  function Sighted(math: Maths, store: seq<Trajectory>, det: Detection, frame: int, timestamp: real): seq<Trajectory>
  {
    if det.trackId <= 0 then store
    else
      WithTrackHolds(store, det);
      var grown, i := WithTrack(store, det), Find(store, det.trackId);
      grown[i := grown[i].(points := Extended(math, grown[i].points, Resting(det, frame, timestamp)))]
  }

  function AllSighted(math: Maths, store: seq<Trajectory>, dets: seq<Detection>, frame: int, timestamp: real, n: nat)
    : seq<Trajectory>
    requires n <= |dets|
  {
    if n == 0 then store
    else Sighted(math, AllSighted(math, store, dets, frame, timestamp, n - 1), dets[n - 1], frame, timestamp)
  }

  // ----- summary figures -----

  /** Sum of the positive speeds among points 1 .. n - 1. */
  function SpeedSum(points: seq<Point>, n: nat): real
    requires n <= |points|
  {
    if n <= 1 then 0.0 else SpeedSum(points, n - 1) + if points[n - 1].speed > 0.0 then points[n - 1].speed else 0.0
  }

  function SpeedCount(points: seq<Point>, n: nat): nat
    requires n <= |points|
  {
    if n <= 1 then 0 else SpeedCount(points, n - 1) + if points[n - 1].speed > 0.0 then 1 else 0
  }

  function SpeedMax(points: seq<Point>, n: nat): real
    requires n <= |points|
  {
    if n <= 1 then 0.0 else Max(points[n - 1].speed, SpeedMax(points, n - 1))
  }

  function StepLength(math: Maths, points: seq<Point>, j: nat): real
    requires 0 < j < |points|
  {
    Norm(math, points[j].cx - points[j - 1].cx, points[j].cy - points[j - 1].cy)
  }

  function Distance(math: Maths, points: seq<Point>, n: nat): real
    requires n <= |points|
  {
    if n <= 1 then 0.0 else Distance(math, points, n - 1) + StepLength(math, points, n - 1)
  }

  function Average(sum: real, count: nat): real
  {
    if count > 0 then sum / count as real else 0.0
  }

  function Measured(math: Maths, t: Trajectory): Trajectory
  {
    var n := |t.points|;
    if n < 2 then t.(isStationary := true)
    else
      var avg := Average(SpeedSum(t.points, n), SpeedCount(t.points, n));
      var dist := Distance(math, t.points, n);
      t.(avgSpeed := avg, maxSpeed := SpeedMax(t.points, n), totalDistance := dist,
         isStationary := avg < 3.0 && dist < 20.0)
  }

  function AllMeasured(math: Maths, store: seq<Trajectory>): (r: seq<Trajectory>)
    ensures |r| == |store|
    ensures forall i :: 0 <= i < |r| ==> r[i] == Measured(math, store[i])
  {
    seq(|store|, i requires 0 <= i < |store| => Measured(math, store[i]))
  }

  /** One frame of the builder. */
  function Followed(math: Maths, store: seq<Trajectory>, dets: seq<Detection>, frame: int,
      timestamp: real): seq<Trajectory>
  {
    AllMeasured(math, AllSighted(math, store, dets, frame, timestamp, |dets|))
  }

  // ----- speed and distance -----

  /** Every point but the first carries the motion seen from the one before it. */
  ghost predicate Kinematic(math: Maths, points: seq<Point>)
  {
    && (points != [] ==> AtRest(points[0]))
    && forall j :: 0 < j < |points| ==>
         points[j].speed == SpeedFrom(math, points[j - 1], points[j]) && Carried(math, points[j - 1], points[j])
  }

  ghost predicate AtRest(p: Point)
  {
    p.speed == p.vx == p.vy == p.ax == p.ay == p.direction == 0.0
  }

  /** Velocity times time is the way gone, acceleration times time the change of velocity,
      and the heading is that of the velocity; without time there is no motion. */
  ghost predicate Carried(math: Maths, prev: Point, p: Point)
  {
    var dt := (p.timestamp - prev.timestamp) / 1000.0;
    if dt > 0.0 then
      && p.vx * dt == p.cx - prev.cx && p.vy * dt == p.cy - prev.cy
      && p.ax * dt == p.vx - prev.vx && p.ay * dt == p.vy - prev.vy
      && p.direction == math.atan2(p.vy, p.vx)
    else AtRest(p)
  }

  ghost function SpeedFrom(math: Maths, prev: Point, pt: Point): real
  {
    var dt := (pt.timestamp - prev.timestamp) / 1000.0;
    if dt > 0.0 then Norm(math, (pt.cx - prev.cx) / dt, (pt.cy - prev.cy) / dt) else 0.0
  }

  lemma MovingSpeed(math: Maths, prev: Point, pt: Point)
    requires AtRest(pt)
    ensures Moving(math, prev, pt).speed == SpeedFrom(math, prev, Moving(math, prev, pt))
    ensures Carried(math, prev, Moving(math, prev, pt))
  {
    hide Norm;
    var dt := (pt.timestamp - prev.timestamp) / 1000.0;
    if dt > 0.0 {
      var q := Moving(math, prev, pt);
      ScaleBack(pt.cx - prev.cx, dt);
      ScaleBack(pt.cy - prev.cy, dt);
      ScaleBack(q.vx - prev.vx, dt);
      ScaleBack(q.vy - prev.vy, dt);
    }
  }

  lemma ExtendedKinematic(math: Maths, points: seq<Point>, pt: Point)
    requires Kinematic(math, points) && AtRest(pt)
    ensures Kinematic(math, Extended(math, points, pt))
  {
    hide Moving, SpeedFrom, Carried;
    if points != [] {
      MovingSpeed(math, points[|points| - 1], pt);
    }
  }

  lemma {:induction false} StoreKinematic(math: Maths, store: seq<Trajectory>, dets: seq<Detection>, frame: int,
      timestamp: real, n: nat)
    requires n <= |dets| && forall t :: t in store ==> Kinematic(math, t.points)
    ensures forall t :: t in AllSighted(math, store, dets, frame, timestamp, n) ==> Kinematic(math, t.points)
  {
    hide Kinematic, Extended;
    if n > 0 {
      StoreKinematic(math, store, dets, frame, timestamp, n - 1);
      var before, det := AllSighted(math, store, dets, frame, timestamp, n - 1), dets[n - 1];
      if det.trackId > 0 {
        WithTrackHolds(before, det);
        EmptyKinematic(math);
        var i := Find(before, det.trackId);
        ExtendedKinematic(math, WithTrack(before, det)[i].points, Resting(det, frame, timestamp));
      }
    }
  }

  lemma EmptyKinematic(math: Maths)
    ensures Kinematic(math, [])
  {
  }

  lemma SquareGrows(a: real, b: real)
    requires 0.0 <= a < b
    ensures Square(a) < Square(b)
  {
    var k := ProductPositive(b - a, b + a);
    assert k == b * b - a * a;
  }

  lemma SquarePositive(x: real)
    ensures Square(x) >= 0.0
    ensures Square(x) == 0.0 <==> x == 0.0
  {
    if x > 0.0 {
      SquareGrows(0.0, x);
    } else if x < 0.0 {
      SquareGrows(0.0, -x);
      assert Square(-x) == Square(x);
    }
  }

  lemma SquaresDecide(a: real, b: real)
    requires a >= 0.0 && b >= 0.0 && Square(a) == Square(b)
    ensures a == b
  {
    hide Square;
    if a < b {
      SquareGrows(a, b);
    } else if b < a {
      SquareGrows(b, a);
    }
  }

  lemma SquareScales(x: real, dt: real)
    requires dt > 0.0
    ensures Square(x / dt) * Square(dt) == Square(x)
  {
    var v := x / dt;
    assert x == v * dt;
    assert v * v * (dt * dt) == (v * dt) * (v * dt);
  }

  lemma NormProperties(math: Maths, x: real, y: real)
    requires Sound(math)
    ensures Norm(math, x, y) >= 0.0
    ensures Square(Norm(math, x, y)) == Square(x) + Square(y)
  {
    assert Square(x) >= 0.0 && Square(y) >= 0.0;
    var n := Square(x) + Square(y);
    assert math.sqrt(n) >= 0.0 && math.sqrt(n) * math.sqrt(n) == n;
  }

  lemma ProductSquare(a: real, b: real)
    ensures Square(a * b) == Square(a) * Square(b)
  {
    assert (a * b) * (a * b) == (a * a) * (b * b);
  }

  /** Distance is speed times time. */
  lemma NormScales(math: Maths, x: real, y: real, dt: real)
    requires Sound(math) && dt > 0.0
    ensures Norm(math, x, y) == Norm(math, x / dt, y / dt) * dt
  {
    hide Norm, Square, Sound;
    var d, s := Norm(math, x, y), Norm(math, x / dt, y / dt);
    NormProperties(math, x, y);
    NormProperties(math, x / dt, y / dt);
    SquareScales(x, dt);
    SquareScales(y, dt);
    ProductSquare(s, dt);
    Distribute(Square(x / dt), Square(y / dt), Square(dt));
    assert Square(s * dt) == Square(d);
    NonNegativeProduct(s, dt);
    SquaresDecide(d, s * dt);
  }

  lemma Distribute(a: real, b: real, c: real)
    ensures (a + b) * c == a * c + b * c
  {
  }

  lemma NonNegativeProduct(a: real, b: real)
    requires a >= 0.0 && b >= 0.0
    ensures a * b >= 0.0
  {
  }

  function Seconds(points: seq<Point>, j: nat): real
    requires 0 < j < |points|
  {
    (points[j].timestamp - points[j - 1].timestamp) / 1000.0
  }

  /** Speed times elapsed time, summed along the stored speeds. */
  ghost function Travelled(points: seq<Point>, n: nat): real
    requires n <= |points|
  {
    if n <= 1 then 0.0 else Travelled(points, n - 1) + points[n - 1].speed * Seconds(points, n - 1)
  }

  ghost predicate StepAccounted(points: seq<Point>, j: nat)
    requires 0 < j < |points|
  {
    points[j].timestamp > points[j - 1].timestamp
    || (points[j].cx == points[j - 1].cx && points[j].cy == points[j - 1].cy)
  }

  lemma NormZero(math: Maths, x: real, y: real)
    requires Sound(math)
    ensures Norm(math, x, y) == 0.0 <==> x == 0.0 && y == 0.0
  {
    hide Square, Norm, Sound;
    NormProperties(math, x, y);
    SquarePositive(x);
    SquarePositive(y);
    SquarePositive(Norm(math, x, y));
  }

  /** One step: the recomputed length is never below speed times time, and equals it
      exactly when the clock advanced or the object did not move. */
  lemma StepAgrees(math: Maths, points: seq<Point>, j: nat)
    requires Sound(math) && Kinematic(math, points) && 0 < j < |points|
    ensures StepLength(math, points, j) >= points[j].speed * Seconds(points, j)
    ensures StepLength(math, points, j) == points[j].speed * Seconds(points, j) <==> StepAccounted(points, j)
  {
    hide Norm, Sound;
    var p, q := points[j - 1], points[j];
    var dt := Seconds(points, j);
    assert q.speed == SpeedFrom(math, p, q);
    NormProperties(math, q.cx - p.cx, q.cy - p.cy);
    if dt > 0.0 {
      NormScales(math, q.cx - p.cx, q.cy - p.cy, dt);
    } else {
      NormZero(math, q.cx - p.cx, q.cy - p.cy);
      assert q.speed * dt == 0.0;
    }
  }

  /** The distance recomputed from positions equals the sum of speed times time exactly
      when every step that moved the object also advanced its clock; it is never less. */
  lemma {:induction false} DistanceAgreesWithSpeed(math: Maths, points: seq<Point>, n: nat)
    requires Sound(math) && Kinematic(math, points) && n <= |points|
    ensures Distance(math, points, n) >= Travelled(points, n)
    ensures Distance(math, points, n) == Travelled(points, n) <==> forall j :: 0 < j < n ==> StepAccounted(points, j)
  {
    hide StepLength, Seconds, StepAccounted, Kinematic, Sound;
    if n > 1 {
      DistanceAgreesWithSpeed(math, points, n - 1);
      StepAgrees(math, points, n - 1);
    }
  }

  /** The steps in which the object moved. */
  ghost function MovingSteps(points: seq<Point>, n: nat): set<int>
    requires n <= |points|
  {
    set j | 0 < j < n && points[j].speed > 0.0
  }

  lemma {:induction false} CountIsSteps(points: seq<Point>, n: nat)
    requires n <= |points|
    ensures SpeedCount(points, n) == |MovingSteps(points, n)|
  {
    if n > 1 {
      CountIsSteps(points, n - 1);
      var was, now := MovingSteps(points, n - 1), MovingSteps(points, n);
      assert now == if points[n - 1].speed > 0.0 then was + {n - 1} else was;
    } else {
      assert MovingSteps(points, n) == {};
    }
  }

  lemma {:induction false} SteadySum(math: Maths, points: seq<Point>, n: nat, dt: real)
    requires Sound(math) && Kinematic(math, points) && n <= |points|
    requires forall j :: 0 < j < n ==> Seconds(points, j) == dt
    ensures Travelled(points, n) == SpeedSum(points, n) * dt
  {
    hide Kinematic, Seconds, Sound;
    if n > 1 {
      SteadySum(math, points, n - 1, dt);
      SpeedNonNegative(math, points, n - 1);
      Distribute(SpeedSum(points, n - 1), points[n - 1].speed, dt);
    }
  }

  lemma SpeedNonNegative(math: Maths, points: seq<Point>, j: nat)
    requires Sound(math) && Kinematic(math, points) && 0 < j < |points|
    ensures points[j].speed >= 0.0
  {
    hide Norm, Sound;
    var p, q := points[j - 1], points[j];
    var dt := (q.timestamp - p.timestamp) / 1000.0;
    assert q.speed == SpeedFrom(math, p, q);
    if dt > 0.0 {
      NormProperties(math, (q.cx - p.cx) / dt, (q.cy - p.cy) / dt);
    }
  }

  lemma AverageTimesCount(sum: real, count: nat, dt: real)
    requires count == 0 ==> sum == 0.0
    ensures Average(sum, count) * (count as real * dt) == sum * dt
  {
    if count > 0 {
      ScaleBack(sum, count as real);
    }
  }

  lemma {:induction false} NoStepNoSum(points: seq<Point>, n: nat)
    requires n <= |points| && SpeedCount(points, n) == 0
    ensures SpeedSum(points, n) == 0.0
  {
    if n > 1 {
      NoStepNoSum(points, n - 1);
    }
  }

  /** With a steady clock the average speed is that of the moving steps alone: times the
      time spent moving it gives the distance. */
  lemma AverageIsOfMoving(math: Maths, t: Trajectory, dt: real)
    requires Sound(math) && Kinematic(math, t.points) && |t.points| >= 2 && dt > 0.0
    requires forall j :: 0 < j < |t.points| ==> Seconds(t.points, j) == dt
    ensures var r := Measured(math, t);
      r.avgSpeed * (|MovingSteps(t.points, |t.points|)| as real * dt) == r.totalDistance
  {
    hide Travelled, Distance, SpeedMax, SpeedSum, SpeedCount, Average, Kinematic, Sound, StepAccounted, MovingSteps;
    var n := |t.points|;
    forall j | 0 < j < n ensures StepAccounted(t.points, j) {
      assert Seconds(t.points, j) == dt;
      AdvancingAccounted(t.points, j);
    }
    DistanceAgreesWithSpeed(math, t.points, n);
    SteadySum(math, t.points, n, dt);
    CountIsSteps(t.points, n);
    if SpeedCount(t.points, n) == 0 {
      NoStepNoSum(t.points, n);
    }
    AverageTimesCount(SpeedSum(t.points, n), SpeedCount(t.points, n), dt);
  }

  /** The top speed is that of some step and no step is faster; an object is stationary when
      it was seen once, or when it moved less than 20 pixels at less than 3 a second. */
  lemma TopAndRest(math: Maths, t: Trajectory)
    requires Sound(math) && Kinematic(math, t.points)
    ensures var r, n := Measured(math, t), |t.points|;
      && (n >= 2 ==> forall j :: 0 < j < n ==> t.points[j].speed <= r.maxSpeed)
      && (n >= 2 ==> exists j :: 0 <= j < n && t.points[j].speed == r.maxSpeed)
      && (r.isStationary <==> n < 2 || (r.avgSpeed < 3.0 && r.totalDistance < 20.0))
  {
    hide Distance, SpeedMax, SpeedSum, SpeedCount, Average, Kinematic, Sound;
    var n := |t.points|;
    if n >= 2 {
      forall j | 0 < j < n ensures t.points[j].speed <= SpeedMax(t.points, n) {
        SpeedsBelowMax(t.points, n, j);
      }
      StartsAtRest(math, t.points);
      var j := MaxAttained(t.points, n);
    }
  }

  lemma StartsAtRest(math: Maths, points: seq<Point>)
    requires Kinematic(math, points) && points != []
    ensures points[0].speed == 0.0
  {
  }

  lemma MaxAttained(points: seq<Point>, n: nat) returns (j: nat)
    requires 0 < n <= |points| && points[0].speed == 0.0
    ensures j < n && points[j].speed == SpeedMax(points, n)
  {
    j := 0;
    if n > 1 {
      j := MaxAttained(points, n - 1);
      if points[n - 1].speed > SpeedMax(points, n - 1) {
        j := n - 1;
      }
    }
  }

  /** A sighting 100 pixels further on with the clock standing still: the distance counts
      the step and the speeds do not. */
  lemma {:induction false} MovesWithoutTime(math: Maths, a: Detection, b: Detection, frame: int, timestamp: real)
    requires Sound(math) && a.bbox.w == b.bbox.w && a.bbox.h == b.bbox.h
    requires b.bbox.x == a.bbox.x + 100.0 && b.bbox.y == a.bbox.y
    ensures var points :=
        Extended(math, Extended(math, [], Resting(a, frame, timestamp)), Resting(b, frame + 1, timestamp));
      |points| == 2 && Distance(math, points, 2) == 100.0 && Travelled(points, 2) == 0.0
  {
    hide Norm, Sound;
    var points := Extended(math, Extended(math, [], Resting(a, frame, timestamp)), Resting(b, frame + 1, timestamp));
    assert points == [Resting(a, frame, timestamp), Resting(b, frame + 1, timestamp)];
    NormProperties(math, 100.0, 0.0);
    assert Square(100.0) == 10000.0 && Square(0.0) == 0.0;
    SquaresDecide(Norm(math, 100.0, 0.0), 100.0);
    assert Distance(math, points, 1) == 0.0 && Travelled(points, 1) == 0.0;
  }

  lemma {:induction false} SpeedsBelowMax(points: seq<Point>, n: nat, j: nat)
    requires 0 < j < n <= |points|
    ensures points[j].speed <= SpeedMax(points, n)
  {
    if j < n - 1 {
      SpeedsBelowMax(points, n - 1, j);
    }
  }

  lemma {:induction false} MaxNonNegative(points: seq<Point>, n: nat)
    requires n <= |points|
    ensures SpeedMax(points, n) >= 0.0
  {
    if n > 1 {
      MaxNonNegative(points, n - 1);
    }
  }

  lemma ScaledBound(s: real, m: real, dt: real)
    requires s <= m && dt >= 0.0
    ensures s * dt <= m * dt
  {
  }

  lemma {:induction false} TravelledBound(points: seq<Point>, n: nat, top: real)
    requires 0 < n <= |points|
    requires forall j :: 0 < j < n ==> points[j].speed <= top
    requires forall j :: 0 < j < n ==> points[j].timestamp > points[j - 1].timestamp
    ensures Travelled(points, n) <= top * ((points[n - 1].timestamp - points[0].timestamp) / 1000.0)
  {
    if n > 1 {
      TravelledBound(points, n - 1, top);
      ScaledBound(points[n - 1].speed, top, Seconds(points, n - 1));
      ElapsedAdds(points[0].timestamp, points[n - 2].timestamp, points[n - 1].timestamp, top);
    }
  }

  lemma ElapsedAdds(start: real, mid: real, end: real, top: real)
    ensures top * ((mid - start) / 1000.0) + top * ((end - mid) / 1000.0) == top * ((end - start) / 1000.0)
  {
    var a, b := (mid - start) / 1000.0, (end - mid) / 1000.0;
    assert a + b == (end - start) / 1000.0;
    Distribute(a, b, top);
  }

  lemma {:induction false} SumBelowMax(points: seq<Point>, n: nat, top: real)
    requires n <= |points|
    requires forall j :: 0 < j < n ==> points[j].speed <= top
    ensures SpeedSum(points, n) <= top * SpeedCount(points, n) as real
  {
    if n > 1 {
      SumBelowMax(points, n - 1, top);
      var c := SpeedCount(points, n - 1) as real;
      assert top * (c + 1.0) == top * c + top;
    }
  }

  lemma AverageBelow(sum: real, count: nat, top: real)
    requires sum <= top * count as real && top >= 0.0
    ensures Average(sum, count) <= top
  {
    if count > 0 {
      var n := count as real;
      assert sum / n * n == sum;
      if sum / n > top {
        assert sum / n * n > top * n;
      }
    }
  }

  /** With clocks that advance at every step, the summary figures agree with one another:
      distance is the integral of the stored speed, is at most the top speed times the
      elapsed time, and the average never exceeds the top speed. */
  lemma SummaryConsistent(math: Maths, t: Trajectory)
    requires Sound(math) && Kinematic(math, t.points) && |t.points| >= 2
    requires forall j :: 0 < j < |t.points| ==> t.points[j].timestamp > t.points[j - 1].timestamp
    ensures var r, n := Measured(math, t), |t.points|;
      && r.totalDistance == Travelled(t.points, n)
      && r.totalDistance <= r.maxSpeed * ((t.points[n - 1].timestamp - t.points[0].timestamp) / 1000.0)
      && r.avgSpeed <= r.maxSpeed
  {
    hide Travelled, Distance, SpeedMax, SpeedSum, SpeedCount, Average, Kinematic, Sound, StepAccounted;
    var n, top := |t.points|, SpeedMax(t.points, |t.points|);
    forall j | 0 < j < n ensures t.points[j].speed <= top && StepAccounted(t.points, j) {
      SpeedsBelowMax(t.points, n, j);
      AdvancingAccounted(t.points, j);
    }
    DistanceAgreesWithSpeed(math, t.points, n);
    TravelledBound(t.points, n, top);
    SumBelowMax(t.points, n, top);
    MaxNonNegative(t.points, n);
    AverageBelow(SpeedSum(t.points, n), SpeedCount(t.points, n), top);
  }

  lemma AdvancingAccounted(points: seq<Point>, j: nat)
    requires 0 < j < |points| && points[j].timestamp > points[j - 1].timestamp
    ensures StepAccounted(points, j)
  {
  }
}
