/** Concrete runs: a car and a truck on one road, from the raw output of the model for each
    frame to the state of every stage. */
module Drives {
  import opened Types
  import opened Geometry
  import opened Sorting
  import opened Letterbox
  import opened Preprocessor
  import opened Nms
  import opened Decoding
  import opened Sampling
  import opened Tracking
  import opened TrackerRuns
  import opened Trajectories
  import opened EventAnalysis
  import opened Runs
  import opened RunAccounts
  import opened RunTheorems
  import opened Pipeline

  // ----- the road -----

  /** Where the two vehicles are in each frame, and which of them the model lists first. */
  datatype Drive = Drive(car: int -> real, truck: int -> real, truckFirst: int -> bool)

  /** Neither vehicle moves further than a tenth of its length within a frame. */
  predicate NearBy(d: Drive, n: int)
  {
    -100.0 <= d.car(n + 1) - d.car(n) <= 100.0 && -100.0 <= d.truck(n + 1) - d.truck(n) <= 100.0
  }

  ghost predicate Gentle(d: Drive)
  {
    !d.truckFirst(0) && forall n :: n >= 0 ==> NearBy(d, n)
  }

  function Box(x: real): BBox { BBox(x, 0.0, 1000.0, 1000.0) }

  function Vehicle(classId: int, x: real, n: int): Detection
  {
    Detection(n, 1000.0 * n as real, classId, 0.9, Box(x), -1)
  }

  function InOrder(d: Drive, n: int, car: Detection, truck: Detection): seq<Detection>
  {
    if d.truckFirst(n) then [truck, car] else [car, truck]
  }

  /** The detections of frame n. */
  function SeenIn(d: Drive, n: int): seq<Detection>
  {
    InOrder(d, n, Vehicle(2, d.car(n), n), Vehicle(7, d.truck(n), n))
  }

  function NamedCar(d: Drive, n: int): Detection { Vehicle(2, d.car(n), n).(trackId := 1) }

  function NamedTruck(d: Drive, n: int): Detection { Vehicle(7, d.truck(n), n).(trackId := 2) }

  /** The same with the names the tracker gives them. */
  function NamedIn(d: Drive, n: int): seq<Detection> { InOrder(d, n, NamedCar(d, n), NamedTruck(d, n)) }

  // ----- the tracker -----

  lemma NearBoxesOverlap(x: real, y: real)
    requires -100.0 <= x - y <= 100.0
    ensures Iou(Box(x), Box(y)) > 0.5
  {
    var inter := Overlap(Box(x), Box(y));
    assert inter >= 900000.0;
    MoreThanHalf(inter, 2000000.0 - inter);
    assert Area(Box(x)) == 1000000.0 && Area(Box(y)) == 1000000.0;
  }

  lemma MoreThanHalf(x: real, u: real)
    requires u > 0.0 && 2.0 * x > u
    ensures x / u > 0.5
  {
  }

  ghost predicate Tracked(t: Track, id: int, classId: int, x: real)
  {
    t.trackId == id && t.classId == classId && t.bbox == Box(x) && t.active
  }

  ghost predicate TwoTracks(tracks: seq<Track>, car: real, truck: real)
  {
    |tracks| == 2 && Tracked(tracks[0], 1, 2, car) && Tracked(tracks[1], 2, 7, truck)
  }

  lemma {:induction false} CountTwo(m: seq<int>)
    requires |m| == 2
    ensures Tracking.Unmatched(m, 0) == 0
    ensures Tracking.Unmatched(m, 1) == if m[0] < 0 then 1 else 0
    ensures Tracking.Unmatched(m, 2) == Tracking.Unmatched(m, 1) + if m[1] < 0 then 1 else 0
  {
  }

  lemma TracksStart(d: Drive, config: TrackerConfig)
    requires !d.truckFirst(0)
    ensures Labelled([], config, SeenIn(d, 0)) == NamedIn(d, 0)
    ensures TwoTracks(Advance([], config, SeenIn(d, 0)), d.car(0), d.truck(0))
  {
    hide MatchAll, Advance, Unmatched;
    var m, dets := MatchAll([], config, SeenIn(d, 0)), SeenIn(d, 0);
    assert m == [-1, -1];
    CountTwo(m);
    NewTrackAfter([], config, dets, 0);
    NewTrackAfter([], config, dets, 1);
    IdsOfFrame([], config, dets, 0);
    IdsOfFrame([], config, dets, 1);
    TableGrows([], config, dets);
    assert Labelled([], config, dets) == [Labelled([], config, dets)[0], Labelled([], config, dets)[1]];
  }

  lemma BothMatched(d: Drive, tracks: seq<Track>, config: TrackerConfig, n: int)
    requires NearBy(d, n) && config.iouThreshold <= 0.5 && TwoTracks(tracks, d.car(n), d.truck(n))
    ensures MatchAll(tracks, config, SeenIn(d, n + 1)) == if d.truckFirst(n + 1) then [1, 0] else [0, 1]
  {
    hide Iou;
    var dets := SeenIn(d, n + 1);
    GreedyMatching(tracks, dets, config.iouThreshold);
    NearBoxesOverlap(d.car(n), d.car(n + 1));
    NearBoxesOverlap(d.truck(n), d.truck(n + 1));
    var m := MatchAll(tracks, config, dets);
    assert Tracking.MatchScore(tracks, Vehicle(2, d.car(n + 1), n + 1), 0) > config.iouThreshold;
    assert Tracking.MatchScore(tracks, Vehicle(7, d.truck(n + 1), n + 1), 1) > config.iouThreshold;
    assert m == [m[0], m[1]];
  }

  lemma TracksFollow(d: Drive, tracks: seq<Track>, config: TrackerConfig, n: int)
    requires NearBy(d, n) && config.iouThreshold <= 0.5 && TwoTracks(tracks, d.car(n), d.truck(n))
    ensures Labelled(tracks, config, SeenIn(d, n + 1)) == NamedIn(d, n + 1)
    ensures TwoTracks(Advance(tracks, config, SeenIn(d, n + 1)), d.car(n + 1), d.truck(n + 1))
  {
    BothMatched(d, tracks, config, n);
    hide MatchAll, Advance, Unmatched;
    var dets := SeenIn(d, n + 1);
    var m := MatchAll(tracks, config, dets);
    CountTwo(m);
    OldTrackAfter(tracks, config, dets, 0);
    OldTrackAfter(tracks, config, dets, 1);
    IdsOfFrame(tracks, config, dets, 0);
    IdsOfFrame(tracks, config, dets, 1);
    assert Labelled(tracks, config, dets) == [Labelled(tracks, config, dets)[0], Labelled(tracks, config, dets)[1]];
  }

  // ----- the trajectories -----

  /** The figures of a path along the road after its last point. */
  datatype Figures = Figures(x: real, speed: real, heading: real, sum: real, count: nat, dist: real, top: real)

  ghost predicate Path(t: Trajectory, id: int, classId: int, n: nat, f: Figures)
  {
    && t.trackId == id && t.classId == classId && |t.points| == n + 1
    && SpeedSum(t.points, n + 1) == f.sum && SpeedCount(t.points, n + 1) == f.count
    && (forall j :: 0 <= j <= n ==> t.points[j].speed <= f.top)
    && var p := t.points[n];
       && p.frame == n && p.timestamp == 1000.0 * n as real && p.cx == f.x + 500.0 && p.cy == 500.0
       && p.speed == f.speed && p.direction == f.heading
  }

  ghost predicate Summed(math: Maths, t: Trajectory, n: nat, f: Figures)
  {
    && |t.points| == n + 1 && Distance(math, t.points, n + 1) == f.dist
    && (n > 0 ==> t.avgSpeed == Average(f.sum, f.count) && t.totalDistance == f.dist)
  }

  lemma {:induction false} PrefixFigures(math: Maths, points: seq<Point>, pt: Point, n: nat)
    requires n <= |points|
    ensures SpeedSum(points + [pt], n) == SpeedSum(points, n)
    ensures SpeedCount(points + [pt], n) == SpeedCount(points, n)
    ensures Distance(math, points + [pt], n) == Distance(math, points, n)
  {
    hide Norm;
    if n > 1 {
      PrefixFigures(math, points, pt, n - 1);
    }
  }

  lemma NormFlat(math: Maths, d: real)
    requires Sound(math)
    ensures Norm(math, d, 0.0) == Abs(d)
  {
    hide Norm, Sound;
    NormProperties(math, d, 0.0);
    assert Square(Abs(d)) == Square(d) && Square(0.0) == 0.0;
    SquaresDecide(Norm(math, d, 0.0), Abs(d));
  }

  /** The figures after a move by d within one second. */
  function Moved(math: Maths, f: Figures, d: real): Figures
  {
    Figures(f.x + d, Abs(d), math.atan2(0.0, d), f.sum + Abs(d), f.count + (if d != 0.0 then 1 else 0),
            f.dist + Abs(d), Max(f.top, Abs(d)))
  }

  lemma MovedPoint(math: Maths, prev: Point, pt: Point, d: real)
    requires Sound(math) && pt.timestamp - prev.timestamp == 1000.0 && pt.cx - prev.cx == d && pt.cy == prev.cy
    ensures var q := Moving(math, prev, pt);
      && q.speed == Abs(d) && q.direction == math.atan2(0.0, d)
      && q.frame == pt.frame && q.timestamp == pt.timestamp && q.cx == pt.cx && q.cy == pt.cy
    ensures Norm(math, pt.cx - prev.cx, pt.cy - prev.cy) == Abs(d)
  {
    hide Norm, Sound, Abs;
    NormFlat(math, d);
    var dt := (pt.timestamp - prev.timestamp) / 1000.0;
    assert dt == 1.0 && d / dt == d && 0.0 / dt == 0.0;
  }

  lemma PathGrows(math: Maths, t: Trajectory, id: int, classId: int, n: nat, f: Figures, det: Detection, d: real)
    returns (r: Trajectory)
    requires Sound(math) && Path(t, id, classId, n, f) && Summed(math, t, n, f)
    requires det.bbox == Box(f.x + d)
    ensures r == Measured(math, t.(points := Extended(math, t.points, Resting(det, n + 1, 1000.0 * (n + 1) as real))))
    ensures Path(r, id, classId, n + 1, Moved(math, f, d)) && Summed(math, r, n + 1, Moved(math, f, d))
  {
    hide Sound, Norm, SpeedMax, Average;
    var pt := Resting(det, n + 1, 1000.0 * (n + 1) as real);
    MovedPoint(math, t.points[n], pt, d);
    var q := Moving(math, t.points[n], pt);
    assert Extended(math, t.points, pt) == t.points + [q];
    PrefixFigures(math, t.points, q, n + 1);
    r := Measured(math, t.(points := Extended(math, t.points, pt)));
  }

  function Start(x: real): Figures { Figures(x, 0.0, 0.0, 0.0, 0, 0.0, 0.0) }

  lemma PathStarts(math: Maths, id: int, classId: int, det: Detection, x: real) returns (r: Trajectory)
    requires det.bbox == Box(x)
    ensures r == Measured(math, Trajectory(id, classId, Extended(math, [], Resting(det, 0, 0.0)), 0.0, 0.0, 0.0, false))
    ensures Path(r, id, classId, 0, Start(x)) && Summed(math, r, 0, Start(x))
  {
    r := Measured(math, Trajectory(id, classId, Extended(math, [], Resting(det, 0, 0.0)), 0.0, 0.0, 0.0, false));
  }

  /** Two named detections go to the two trajectories, whichever comes first. */
  lemma StoreFollows(math: Maths, store: seq<Trajectory>, a: Detection, b: Detection, n: int, ts: real)
    requires |store| == 2 && store[0].trackId == 1 && store[1].trackId == 2 && a.trackId == 1 && b.trackId == 2
    ensures var after := [Measured(math, store[0].(points := Extended(math, store[0].points, Resting(a, n, ts)))),
                          Measured(math, store[1].(points := Extended(math, store[1].points, Resting(b, n, ts))))];
      Followed(math, store, [a, b], n, ts) == after && Followed(math, store, [b, a], n, ts) == after
  {
    hide Measured, Extended;
    var first := store[0].(points := Extended(math, store[0].points, Resting(a, n, ts)));
    var second := store[1].(points := Extended(math, store[1].points, Resting(b, n, ts)));
    assert Find(store, 1) == 0 && Find(store, 2) == 1;
    assert AllSighted(math, store, [a, b], n, ts, 0) == AllSighted(math, store, [b, a], n, ts, 0) == store;
    var one := AllSighted(math, store, [a, b], n, ts, 1);
    assert one == [first, store[1]] && one[1].trackId == 2 && Find(one, 2) == 1;
    var two := AllSighted(math, store, [b, a], n, ts, 1);
    assert two == [store[0], second] && two[0].trackId == 1 && Find(two, 1) == 0;
  }

  lemma StoreOpens(math: Maths, a: Detection, b: Detection, ts: real)
    requires a.trackId == 1 && b.trackId == 2
    ensures Followed(math, [], [a, b], 0, ts)
         == [Measured(math, Trajectory(1, a.classId, Extended(math, [], Resting(a, 0, ts)), 0.0, 0.0, 0.0, false)),
             Measured(math, Trajectory(2, b.classId, Extended(math, [], Resting(b, 0, ts)), 0.0, 0.0, 0.0, false))]
  {
    hide Measured, Extended;
    assert AllSighted(math, [], [a, b], 0, ts, 0) == [];
    var one := AllSighted(math, [], [a, b], 0, ts, 1);
    assert one == [Trajectory(1, a.classId, Extended(math, [], Resting(a, 0, ts)), 0.0, 0.0, 0.0, false)];
    assert one[0].trackId == 1 && Find(one, 2) == 1;
  }

  // ----- frame by frame -----

  function CarFigures(math: Maths, d: Drive, n: nat): Figures
  {
    if n == 0 then Start(d.car(0)) else Moved(math, CarFigures(math, d, n - 1), d.car(n) - d.car(n - 1))
  }

  function TruckFigures(math: Maths, d: Drive, n: nat): Figures
  {
    if n == 0 then Start(d.truck(0)) else Moved(math, TruckFigures(math, d, n - 1), d.truck(n) - d.truck(n - 1))
  }

  lemma {:induction false} FiguresPlace(math: Maths, d: Drive, n: nat)
    ensures CarFigures(math, d, n).x == d.car(n) && TruckFigures(math, d, n).x == d.truck(n)
  {
    if n > 0 {
      FiguresPlace(math, d, n - 1);
    }
  }

  ghost predicate Suits(job: Job)
  {
    Sound(job.math) && job.profile.trackingEnabled && job.profile.iouThreshold <= 0.5
  }

  ghost predicate OnPaths(math: Maths, d: Drive, store: seq<Trajectory>, n: nat)
  {
    && |store| == 2
    && Path(store[0], 1, 2, n, CarFigures(math, d, n)) && Summed(math, store[0], n, CarFigures(math, d, n))
    && Path(store[1], 2, 7, n, TruckFigures(math, d, n)) && Summed(math, store[1], n, TruckFigures(math, d, n))
  }

  ghost predicate Going(job: Job, d: Drive, st: RunState, n: nat)
  {
    TwoTracks(st.tracks, d.car(n), d.truck(n)) && OnPaths(job.math, d, st.store, n)
  }

  /** The later stages after frames 0 .. n - 1. */
  function StateAfter(job: Job, d: Drive, n: nat): RunState
    requires Sound(job.math)
  {
    if n == 0 then Initial(job)
    else Runs.Absorb(job, StateAfter(job, d, n - 1), SeenIn(d, n - 1), n - 1, 1000.0 * (n - 1) as real)
  }

  function SceneIn(job: Job, d: Drive, n: nat): Scene
    requires Sound(job.math)
  {
    SceneOf(job, StateAfter(job, d, n + 1).store, n, 1000.0 * n as real)
  }

  lemma {:induction false} FirstFrame(job: Job, d: Drive)
    requires Suits(job) && Gentle(d)
    ensures Going(job, d, StateAfter(job, d, 1), 0)
  {
    hide Sound, Advance, Labelled, Followed, FrameCandidates, DefaultConfig, Path, Summed, Measured;
    assert StateAfter(job, d, 0) == Initial(job);
    TracksStart(d, TrackerOf(job));
    StoreOpens(job.math, NamedCar(d, 0), NamedTruck(d, 0), 0.0);
    var car := PathStarts(job.math, 1, 2, NamedCar(d, 0), d.car(0));
    var truck := PathStarts(job.math, 2, 7, NamedTruck(d, 0), d.truck(0));
  }

  lemma NextFrame(job: Job, d: Drive, n: nat)
    requires Suits(job) && Gentle(d) && Going(job, d, StateAfter(job, d, n + 1), n)
    ensures Going(job, d, StateAfter(job, d, n + 2), n + 1)
  {
    hide Sound, Advance, Labelled, Followed, FrameCandidates, DefaultConfig, TwoTracks, OnPaths, NearBy;
    var st := StateAfter(job, d, n + 1);
    TracksFollow(d, st.tracks, TrackerOf(job), n);
    PathsGrow(job.math, d, st.store, n);
  }

  lemma PathsGrow(math: Maths, d: Drive, store: seq<Trajectory>, n: nat)
    requires Sound(math) && OnPaths(math, d, store, n)
    ensures OnPaths(math, d, Followed(math, store, NamedIn(d, n + 1), n + 1, 1000.0 * (n + 1) as real), n + 1)
  {
    hide Sound, Followed, Measured, Path, Summed, Moved;
    PathIds(store[0], 1, 2, n, CarFigures(math, d, n));
    PathIds(store[1], 2, 7, n, TruckFigures(math, d, n));
    StoreFollows(math, store, NamedCar(d, n + 1), NamedTruck(d, n + 1), n + 1, 1000.0 * (n + 1) as real);
    FiguresPlace(math, d, n);
    FiguresPlace(math, d, n + 1);
    var car := PathGrows(math, store[0], 1, 2, n, CarFigures(math, d, n), NamedCar(d, n + 1), d.car(n + 1) - d.car(n));
    var truck := PathGrows(math, store[1], 2, 7, n, TruckFigures(math, d, n), NamedTruck(d, n + 1),
                           d.truck(n + 1) - d.truck(n));
  }

  lemma PathIds(t: Trajectory, id: int, classId: int, n: nat, f: Figures)
    requires Path(t, id, classId, n, f)
    ensures t.trackId == id
  {
  }

  lemma AllGoing(job: Job, d: Drive, n: nat)
    requires Suits(job) && Gentle(d)
    ensures Going(job, d, StateAfter(job, d, n + 1), n)
  {
    hide Going, StateAfter, Sound, Gentle;
    if n == 0 {
      FirstFrame(job, d);
    } else {
      AllGoing(job, d, n - 1);
      NextFrame(job, d, n - 1);
    }
  }

  /** What frame n adds to the candidates. */
  lemma FrameReports(job: Job, d: Drive, n: nat)
    requires Suits(job) && Gentle(d)
    ensures StateAfter(job, d, n + 1).candidates
         == StateAfter(job, d, n).candidates + FrameCandidates(SceneIn(job, d, n), NamedIn(d, n))
  {
    hide Sound, Advance, Labelled, Followed, FrameCandidates, DefaultConfig, Path, Summed;
    if n == 0 {
      TracksStart(d, TrackerOf(job));
    } else {
      AllGoing(job, d, n - 1);
      assert NearBy(d, n - 1);
      TracksFollow(d, StateAfter(job, d, n).tracks, TrackerOf(job), n - 1);
    }
  }

  // ----- the raw output -----

  function VehicleCell(det: Detection, c: int): real
  {
    if c == 0 then (det.bbox.x + 500.0) / 2.0
    else if c == 1 then 350.0
    else if c == 2 || c == 3 then 500.0
    else if c == 4 + det.classId then 0.9
    else 0.0
  }

  function RowCell(d: Drive, n: int, i: int, c: int): real
  {
    if 0 <= i < 2 then VehicleCell(SeenIn(d, n)[i], c) else 0.0
  }

  /** Thirteen predictions of twelve columns, the first two of them vehicles. */
  function RawOf(d: Drive, n: int): (raw: seq<real>)
    ensures |raw| == 156
  {
    seq(156, k requires 0 <= k < 156 => RowCell(d, n, k / 12, k % 12))
  }

  function DriveJob(math: Maths, d: Drive): Job
  {
    Job(Profile(All, 1, 1400, 800, 0.5, 0.5, true, 30), 8, 13, 12, (n, t) => Some(RawOf(d, n)), math)
  }

  /** Twice as wide as the canvas, so that the model sees it at half its size between
      margins of 100 above and below. */
  function Picture(n: int): Letterbox.Frame
  {
    Letterbox.Frame(2800, 1200, seq(2800 * 1200 * 3, _ => 0), 1000.0 * n as real)
  }

  const VIEW: Fit := Fit(0.5, 0.0, 100.0)

  function Footage(n: nat): (r: seq<Arrival>)
    ensures |r| == n
  {
    seq(n, k requires 0 <= k < n => Arrival(Picture(k), true))
  }

  const TABLE: Layout := Layout(13, 12, false)

  lemma DriveReadable(math: Maths, d: Drive, n: int)
    ensures LayoutOf(13, 12) == TABLE
    ensures Readable(RawOf(d, n), TABLE, PostOf(DriveJob(math, d)))
    ensures ClassOffset(PostOf(DriveJob(math, d)), TABLE) == 4
  {
  }

  lemma DriveWellPosed(math: Maths, d: Drive, n: nat)
    requires Sound(math)
    ensures WellPosed(DriveJob(math, d)) && Arrived(Footage(n)) && Suits(DriveJob(math, d))
  {
    hide Sound, Readable, RawOf;
    var job := DriveJob(math, d);
    forall k, t | job.infer(k, t).Some?
      ensures Readable(job.infer(k, t).value, LayoutOf(job.dim1, job.dim2), PostOf(job))
    {
      DriveReadable(math, d, k);
    }
  }

  lemma RawValue(d: Drive, n: int, config: PostConfig, i: int, c: int)
    requires Readable(RawOf(d, n), TABLE, config) && 0 <= i < 13 && 0 <= c < 12
    ensures Value(RawOf(d, n), TABLE, config, i, c) == RowCell(d, n, i, c)
  {
    var k := i * 12 + c;
    assert k / 12 == i && k % 12 == c;
  }

  lemma {:induction false} BestOf(math: Maths, d: Drive, n: int, i: int)
    requires 0 <= i < 13
    ensures var config := PostOf(DriveJob(math, d));
      && Readable(RawOf(d, n), TABLE, config)
      && var b := BestClass(RawOf(d, n), TABLE, config, i, 8);
         if i < 2 then b == Choice(SeenIn(d, n)[i].classId, 0.9) else b.score == 0.0
  {
    hide RawOf, Value, BestClass;
    var config := PostOf(DriveJob(math, d));
    DriveReadable(math, d, n);
    BestClassIsArgmax(RawOf(d, n), TABLE, config, i, 8);
    var b := BestClass(RawOf(d, n), TABLE, config, i, 8);
    forall c | 0 <= c < 8
      ensures ClassScore(RawOf(d, n), TABLE, config, i, c)
           == if i < 2 && c == SeenIn(d, n)[i].classId then 0.9 else 0.0
    {
      RawValue(d, n, config, i, 4 + c);
    }
    if i < 2 {
      assert ClassScore(RawOf(d, n), TABLE, config, i, SeenIn(d, n)[i].classId) <= b.score;
    } else {
      assert ClassScore(RawOf(d, n), TABLE, config, i, 0) <= b.score;
    }
  }

  lemma DecodedVehicle(math: Maths, d: Drive, n: int, i: int)
    requires 0 <= i < 13
    ensures var config := PostOf(DriveJob(math, d));
      && Readable(RawOf(d, n), TABLE, config)
      && DecodeOne(RawOf(d, n), TABLE, config, Some(VIEW), Stamp(n, 1000.0 * n as real), i)
         == if i < 2 then Some(SeenIn(d, n)[i]) else None
  {
    hide RawOf, Value, BestClass;
    var config := PostOf(DriveJob(math, d));
    BestOf(math, d, n, i);
    if i < 2 {
      RawValue(d, n, config, i, 0);
      RawValue(d, n, config, i, 1);
      RawValue(d, n, config, i, 2);
      RawValue(d, n, config, i, 3);
      var x := SeenIn(d, n)[i].bbox.x;
      assert ((x + 500.0) / 2.0 - 250.0) / 0.5 == x && 500.0 / 0.5 == 1000.0 && 0.0 / 0.5 == 0.0;
    }
  }

  lemma CollectedVehicles(math: Maths, d: Drive, n: int, k: int)
    requires 0 <= k <= 13
    ensures var config := PostOf(DriveJob(math, d));
      && Readable(RawOf(d, n), TABLE, config)
      && Collected(RawOf(d, n), TABLE, config, Some(VIEW), Stamp(n, 1000.0 * n as real), k)
         == SeenIn(d, n)[..if k < 2 then k else 2]
    decreases k
  {
    hide RawOf, DecodeOne, SeenIn, Vehicle;
    DriveReadable(math, d, n);
    TwoSeen(d, n);
    if k > 0 {
      CollectedVehicles(math, d, n, k - 1);
      DecodedVehicle(math, d, n, k - 1);
    }
  }

  /** Two detections of different classes both survive, in the order listed. */
  lemma BothSurvive(a: Detection, b: Detection, thr: real)
    requires a.classId != b.classId && a.confidence == b.confidence
    ensures Run([a, b], thr) == [a, b]
  {
    SelectionKeepsSorted([a, b], 0, Confidence);
    assert [a, b][..1] == [a] && [a][..0] == [];
    assert Kernel([a], thr) == [a];
    assert !Suppressed([a], b, thr);
  }

  lemma Detected(math: Maths, d: Drive, n: int)
    requires Sound(math)
    ensures WellPosed(DriveJob(math, d)) && WellFormed(Picture(n))
    ensures Detect(DriveJob(math, d), Arrival(Picture(n), true), n) == Some(SeenIn(d, n))
  {
    hide RawOf, Collected, SeenIn, Vehicle, TensorOf, Sound, Readable;
    var job := DriveJob(math, d);
    DriveWellPosed(math, d, 0);
    PictureFits(n);
    DriveReadable(math, d, n);
    CollectedVehicles(math, d, n, 13);
    TwoSeen(d, n);
    BothSurvive(SeenIn(d, n)[0], SeenIn(d, n)[1], 0.5);
    assert SeenIn(d, n) == [SeenIn(d, n)[0], SeenIn(d, n)[1]] == SeenIn(d, n)[..2];
  }

  lemma TwoSeen(d: Drive, n: int)
    ensures |SeenIn(d, n)| == 2
    ensures SeenIn(d, n)[0].classId != SeenIn(d, n)[1].classId
      && SeenIn(d, n)[0].confidence == SeenIn(d, n)[1].confidence
  {
  }

  lemma PictureFits(n: int)
    ensures WellFormed(Picture(n)) && FitOf(DefaultOptions(1400, 800), Picture(n)) == VIEW
  {
    assert 1400.0 / 2800.0 == 0.5 < 800.0 / 1200.0;
    assert 2800.0 * 0.5 == 1400.0 && 1200.0 * 0.5 == 600.0;
  }

  // ----- the run -----

  /** Two run states that differ in counters and sampler only. */
  predicate SameLater(a: RunState, b: RunState)
  {
    a.tracks == b.tracks && a.store == b.store && a.candidates == b.candidates && a.log == b.log
  }

  lemma AbsorbSame(job: Job, a: RunState, b: RunState, dets: seq<Detection>, n: int, ts: real)
    requires Sound(job.math) && SameLater(a, b)
    ensures SameLater(Runs.Absorb(job, a, dets, n, ts), Runs.Absorb(job, b, dets, n, ts))
  {
    hide Sound, FrameCandidates, Followed, Advance, Labelled, DefaultConfig;
  }

  lemma {:induction false} AlwaysAccepted(math: Maths, d: Drive, m: nat, n: nat)
    requires Sound(math) && n <= m
    ensures WellPosed(DriveJob(math, d)) && Arrived(Footage(m))
    ensures Accepts(RunOf(DriveJob(math, d), Footage(m), n).sampler, n)
  {
    hide WellPosed, WellFormed, RunOf, Sound;
    DriveWellPosed(math, d, m);
    SamplerOfRun(DriveJob(math, d), Footage(m), n);
  }

  /** The run over the footage takes the later stages where the detections take them. */
  lemma {:induction false} RunIsFed(math: Maths, d: Drive, m: nat, n: nat)
    requires Sound(math) && n <= m
    ensures WellPosed(DriveJob(math, d)) && Arrived(Footage(m))
    ensures SameLater(RunOf(DriveJob(math, d), Footage(m), n), StateAfter(DriveJob(math, d), d, n))
  {
    hide WellPosed, WellFormed, Sound, Detect, StepRun, Runs.Absorb, SeenIn, DriveJob, Picture, Asked, Noted, Accepts;
    var job, footage := DriveJob(math, d), Footage(m);
    DriveWellPosed(math, d, m);
    if n > 0 {
      RunIsFed(math, d, m, n - 1);
      AlwaysAccepted(math, d, m, n - 1);
      Detected(math, d, n - 1);
      StepDone(job, RunOf(job, footage, n - 1), footage[n - 1]);
      AbsorbSame(job, RunOf(job, footage, n - 1), StateAfter(job, d, n - 1), SeenIn(d, n - 1), n - 1,
        1000.0 * (n - 1) as real);
      PictureTime(n - 1);
      assert RunOf(job, footage, n) == StepRun(job, RunOf(job, footage, n - 1), footage[n - 1]);
    }
  }

  lemma PictureTime(n: int)
    ensures Picture(n).timestamp == 1000.0 * n as real
  {
  }
}
