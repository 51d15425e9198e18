/** A car is passed by a truck while standing still: runs of four frames that report a
    collision with a confidence of 1.2, or none at all if the model lists the two vehicles
    the other way round once. */
module StoppedCollision {
  import opened Geometry
  import opened Sequences
  import opened Trajectories
  import opened Events
  import opened EventAnalysis
  import opened EventAggregation
  import opened ConfirmedCollisions
  import opened Runs
  import opened RunTheorems
  import opened Drives

  /** The car moves once and then stands; the truck comes the other way without stopping.
      With turned, the model lists the truck first in frame 3. */
  function Passing(turned: bool): Drive
  {
    Drive(n => if n <= 0 then 0.0 else 100.0, n => 300.0 - 100.0 * n as real, n => turned && n == 3)
  }

  /** What atan2 of the C library gives on the axes met here. */
  ghost predicate Compass(math: Maths)
  {
    math.atan2(0.0, 0.0) == 0.0 && math.atan2(0.0, -100.0) == PI
  }

  lemma PassingIsGentle(turned: bool)
    ensures Gentle(Passing(turned))
  {
  }

  // ----- the pair in frames 2 and 3 -----

  /** Car and truck as a pair, told by their figures. */
  lemma PairTold(s: Scene, d: Drive, n: nat, car: Figures, truck: Figures)
    requires Sound(s.math) && 2 <= n && |s.store| == 2
    requires Path(s.store[0], 1, 2, n, car) && Summed(s.math, s.store[0], n, car) && car.x == d.car(n)
    requires Path(s.store[1], 2, 7, n, truck) && Summed(s.math, s.store[1], n, truck) && truck.x == d.truck(n)
    requires car.speed == 0.0 && car.sum == 100.0 && car.count == 1
    requires -100.0 <= d.car(n) - d.truck(n) <= 100.0
    ensures Eligible(s.store, NamedCar(d, n)) && Eligible(s.store, NamedTruck(d, n))
    ensures var p := PairFor(s, NamedCar(d, n), NamedTruck(d, n));
      && p.iou > 0.5 && p.maxDrop >= 1.0 && p.maxDist >= car.dist && p.postStop
      && p.dirDiff == DirectionGap(car.heading, truck.heading)
      && p.relDist == Abs(d.car(n) - d.truck(n)) / 1000.0
  {
    hide Sound, SpeedSum, SpeedCount, Distance, Norm, Iou;
    assert Find(s.store, 1) == 0 && Find(s.store, 2) == 1;
    NearBoxesOverlap(d.car(n), d.truck(n));
    NormFlat(s.math, d.car(n) - d.truck(n));
    assert Average(100.0, 1) == 100.0;
    assert CenterDistance(s.math, Box(d.car(n)), Box(d.truck(n))) == Norm(s.math, d.car(n) - d.truck(n), 0.0);
    assert Drop(s.store[0]) == 1.0 by {
      assert 0.0 / 100.0 == 0.0;
    }
  }

  lemma {:induction false} FiguresNow(math: Maths, turned: bool)
    requires Compass(math)
    ensures var d := Passing(turned);
      && CarFigures(math, d, 2) == CarFigures(math, d, 3) == Figures(100.0, 0.0, 0.0, 100.0, 1, 100.0, 100.0)
      && TruckFigures(math, d, 2).heading == TruckFigures(math, d, 3).heading == PI
  {
    var d := Passing(turned);
    var one := CarFigures(math, d, 1);
    assert CarFigures(math, d, 0) == Start(0.0);
    assert one.x == 100.0 && one.sum == 100.0 && one.count == 1 && one.dist == 100.0 && one.top == 100.0;
    assert CarFigures(math, d, 2) == Moved(math, one, 0.0);
    assert CarFigures(math, d, 3) == Moved(math, CarFigures(math, d, 2), 0.0);
  }

  ghost predicate Struck(p: Pair, n: nat)
  {
    && p.iou > 0.5 && p.maxDrop >= 1.0 && p.maxDist >= 100.0 && p.postStop && p.dirDiff == PI
    && p.relDist == if n == 2 then 0.0 else 0.1
  }

  lemma PairNow(job: Job, turned: bool, n: nat)
    requires Suits(job) && Compass(job.math) && 2 <= n <= 3
    ensures var s, a, b := SceneIn(job, Passing(turned), n), NamedCar(Passing(turned), n),
      NamedTruck(Passing(turned), n);
      && Eligible(s.store, a) && Eligible(s.store, b)
      && Struck(PairFor(s, a, b), n) && Struck(PairFor(s, b, a), n)
  {
    hide Sound, Path, Summed, Eligible, PairOf, StateAfter, CarFigures, TruckFigures;
    var d := Passing(turned);
    var s, a, b := SceneIn(job, d, n), NamedCar(d, n), NamedTruck(d, n);
    PassingIsGentle(turned);
    AllGoing(job, d, n);
    FiguresNow(job.math, turned);
    FiguresPlace(job.math, d, n);
    PairTold(s, d, n, CarFigures(job.math, d, n), TruckFigures(job.math, d, n));
    PairSymmetric(s.math, a, b, PathOf(s.store, a), PathOf(s.store, b));
    assert 100.0 / 1000.0 == 0.1 && 0.0 / 1000.0 == 0.0;
  }

  lemma ScoreNow(p: Pair, n: nat)
    requires 2 <= n <= 3 && Struck(p, n)
    ensures CollisionScore(DefaultConfig(), p) >= 1.19
    ensures n == 2 ==> CollisionScore(DefaultConfig(), p) == 1.2
  {
    assert PI / PI == 1.0;
    assert Min(p.iou * 5.0, 1.0) == 1.0 && Min(p.maxDrop, 1.0) == 1.0 && Min(p.dirDiff / PI, 1.0) == 1.0;
    assert p.relDist / 5.0 <= 0.02;
  }

  /** In frames 2 and 3 the pair is reported as a collision, named in the order the model
      listed it; in frame 2, where both boxes coincide, its score is 1.2. */
  lemma Reported(job: Job, turned: bool, n: nat) returns (c: Candidate)
    requires Suits(job) && Compass(job.math) && 2 <= n <= 3
    ensures c in FrameCandidates(SceneIn(job, Passing(turned), n), NamedIn(Passing(turned), n))
    ensures c.frame == n && if turned && n == 3 then Reports(c, 2, 1) else Reports(c, 1, 2)
    ensures c.score >= 1.19 && (n == 2 ==> c.score == 1.2)
  {
    hide Sound, StateAfter, Eligible, PairOf, CollisionScore;
    var d := Passing(turned);
    var s, dets := SceneIn(job, d, n), NamedIn(d, n);
    PairNow(job, turned, n);
    var p := PairFor(s, dets[0], dets[1]);
    ScoreNow(p, n);
    assert CollisionOf(s, p, dets[0], dets[1]) != [];
    c := CollisionOf(s, p, dets[0], dets[1])[0];
    CollisionNames(s, dets, 0, 1, c);
    CollisionReported(s, dets, 0, 1, c);
  }

  lemma BothReported(job: Job, turned: bool) returns (c: Candidate, e: Candidate)
    requires Suits(job) && Compass(job.math)
    ensures c in StateAfter(job, Passing(turned), 4).candidates && e in StateAfter(job, Passing(turned), 4).candidates
    ensures c.frame == 2 && c.score == 1.2 && Reports(c, 1, 2)
    ensures e.frame == 3 && if turned then Reports(e, 2, 1) else Reports(e, 1, 2)
  {
    hide Sound, StateAfter, FrameCandidates, Reports, Gentle;
    PassingIsGentle(turned);
    FrameReports(job, Passing(turned), 2);
    FrameReports(job, Passing(turned), 3);
    c := Reported(job, turned, 2);
    e := Reported(job, turned, 3);
  }

  // ----- a confidence above one -----

  lemma TopOfTwo(s: seq<Candidate>, window: int, c: Candidate, d: Candidate) returns (e: AccidentEvent)
    requires FrameSorted(s) && c in s && d in s && SameKey(c, d) && c.frame < d.frame <= c.frame + window
    requires forall x :: x in s ==> x.score <= c.score
    ensures e in Consolidated(s, window) && e.etype == c.etype && e.confidence == c.score
  {
    hide Consolidated, EventFor, Members, SmallestBox;
    var i: nat;
    e, i := EventOfTwo(s, window, c, d);
    EventStart(s, window, i, e);
    EventIsExact(s, window, i, e);
    MembersAre(s, window, i, |s|);
    var top :| top in Members(s, window, i, |s|) && EventAggregation.ScoreOf(top) == e.confidence;
    assert InGroup(s, window, i, |s|, top) && top in s;
    assert EventAggregation.ScoreOf(c) <= e.confidence;
  }

  lemma EventOfTwo(s: seq<Candidate>, window: int, c: Candidate, d: Candidate) returns (e: AccidentEvent, i: nat)
    requires FrameSorted(s) && c in s && d in s && SameKey(c, d) && c.frame < d.frame <= c.frame + window
    ensures e in Consolidated(s, window) && EventFor(s, window, i, e)
    ensures c in Members(s, window, i, |s|) && s[i].etype == c.etype
  {
    hide Consolidated, Emit, Members;
    var k :| 0 <= k < |s| && s[k] == c;
    var m :| 0 <= m < |s| && s[m] == d;
    CloseSharesRoot(s, window, k, m);
    i := Root(s, window, k);
    RootOfRoot(s, window, k);
    MembersAre(s, window, i, |s|);
    assert InGroup(s, window, i, |s|, c);
    TwoMembers(s, window, i, k, m, |s|);
    EveryCandidateAccounted(s, window, k);
    e :| e in Consolidated(s, window) && Emit(Members(s, window, i, |s|)) == [e];
  }

  lemma {:induction false} ScoresOfRun(job: Job, arrivals: seq<Arrival>)
    requires WellPosed(job) && Arrived(arrivals)
    ensures forall c :: c in RunOf(job, arrivals, |arrivals|).candidates ==> c.score <= 1.2
  {
    hide WellPosed, RunOf, Settled, ClashFree;
    RunHolds(job, arrivals, |arrivals|);
  }

  /** The run over these four frames reports a collision with a confidence of 1.2. */
  lemma ConfidenceMayExceedOne(math: Maths) returns (e: AccidentEvent)
    requires Sound(math) && Compass(math)
    ensures var job, footage := DriveJob(math, Passing(false)), Footage(4);
      && WellPosed(job) && Arrived(footage)
      && e in ResultOf(job, RunOf(job, footage, 4)).events && e.etype == Collision && e.confidence == 1.2
  {
    hide Sound, StateAfter, RunOf, Consolidated, ByFrame, FrameSorted, WellPosed, Arrived;
    var job, footage := DriveJob(math, Passing(false)), Footage(4);
    DriveWellPosed(math, Passing(false), 4);
    RunIsFed(math, Passing(false), 4, 4);
    var log := RunOf(job, footage, 4).candidates;
    var c, d := BothReported(job, false);
    ScoresOfRun(job, footage);
    ByFrameSorts(log);
    PermutationLength(log, ByFrame(log));
    e := TopOfTwo(ByFrame(log), DefaultConfig().temporalWindow, c, d);
  }

  // ----- seen both ways round -----

  /** Before its third sighting a vehicle is not judged. */
  lemma TooEarly(job: Job, d: Drive, n: nat)
    requires Suits(job) && Gentle(d) && n < 2
    ensures !Eligible(SceneIn(job, d, n).store, NamedCar(d, n)) && !Eligible(SceneIn(job, d, n).store, NamedTruck(d, n))
  {
    hide Sound, StateAfter, CarFigures, TruckFigures, Summed;
    AllGoing(job, d, n);
    var store := SceneIn(job, d, n).store;
    assert Find(store, 1) == 0 && Find(store, 2) == 1;
  }

  lemma ReadyIn(job: Job, d: Drive, n: nat)
    requires Sound(job.math)
    ensures Ready(SceneIn(job, d, n)) && Named(NamedIn(d, n))
  {
    DefaultHasLastPoints(SceneIn(job, d, n).store);
  }

  /** A collision reported in frame n names the vehicles as the model listed them there. */
  lemma CollisionIn(job: Job, turned: bool, n: nat, c: Candidate)
    requires Suits(job) && n < 4 && c.etype == Collision
    requires Ready(SceneIn(job, Passing(turned), n))
    requires c in FrameCandidates(SceneIn(job, Passing(turned), n), NamedIn(Passing(turned), n))
    ensures c.frame == n >= 2 && if turned && n == 3 then Reports(c, 2, 1) else Reports(c, 1, 2)
  {
    hide Sound, StateAfter, Eligible, FrameCandidates, CollisionOf, PairOf;
    var d := Passing(turned);
    var s, dets := SceneIn(job, d, n), NamedIn(d, n);
    PassingIsGentle(turned);
    ReadyIn(job, d, n);
    var i, j := FrameCollisions(s, dets, c);
    CollisionNames(s, dets, i, j, c);
    if n < 2 {
      TooEarly(job, d, n);
    }
  }

  lemma {:induction false} CollisionsFed(job: Job, turned: bool, n: nat, c: Candidate)
    requires Suits(job) && n <= 4 && c in StateAfter(job, Passing(turned), n).candidates && c.etype == Collision
    ensures 2 <= c.frame < n && if turned && c.frame == 3 then Reports(c, 2, 1) else Reports(c, 1, 2)
  {
    hide Sound, FrameCandidates, Runs.Absorb, Gentle;
    if n > 0 {
      PassingIsGentle(turned);
      FrameReports(job, Passing(turned), n - 1);
      if c in StateAfter(job, Passing(turned), n - 1).candidates {
        CollisionsFed(job, turned, n - 1, c);
      } else {
        ReadyIn(job, Passing(turned), n - 1);
        CollisionIn(job, turned, n - 1, c);
      }
    }
  }

  /** With the two vehicles listed the other way round in frame 3 the collision is reported
      in both frames, once each way round, and the run has no collision event. */
  lemma SeenBothWays(math: Maths)
    requires Sound(math) && Compass(math)
    ensures var job, footage := DriveJob(math, Passing(true)), Footage(4);
      && WellPosed(job) && Arrived(footage)
      && var st := RunOf(job, footage, 4);
         && (exists c :: c in st.candidates && Reports(c, 1, 2) && c.frame == 2)
         && (exists c :: c in st.candidates && Reports(c, 2, 1) && c.frame == 3)
         && (forall e :: e in ResultOf(job, st).events ==> e.etype != Collision)
  {
    hide Sound, StateAfter, RunOf, ResultOf, WellPosed, Arrived, HasCollision;
    var job, footage := DriveJob(math, Passing(true)), Footage(4);
    DriveWellPosed(math, Passing(true), 4);
    RunIsFed(math, Passing(true), 4, 4);
    var st := RunOf(job, footage, 4);
    var c, d := BothReported(job, true);
    forall e | e in ResultOf(job, st).events ensures e.etype != Collision {
      if e.etype == Collision {
        CollisionsAreReal(job, footage, e);
        NoneTwice(job, st.candidates, e.involved[0], e.involved[1]);
        CollisionOfRunIff(job, footage, e.involved[0], e.involved[1]);
        CollisionHere(ResultOf(job, st).events, e);
      }
    }
  }

  lemma CollisionHere(events: seq<AccidentEvent>, e: AccidentEvent)
    requires e in events && e.etype == Collision && |e.involved| == 2
    ensures HasCollision(events, e.involved[0], e.involved[1])
  {
    assert e.involved == [e.involved[0], e.involved[1]];
  }

  lemma {:induction false} NoneTwice(job: Job, log: seq<Candidate>, a: int, b: int)
    requires Suits(job) && log == StateAfter(job, Passing(true), 4).candidates
    ensures !ReportedNear(log, DefaultConfig().temporalWindow, a, b)
  {
    hide Sound, StateAfter;
    forall c | c in log && c.etype == Collision
      ensures 2 <= c.frame < 4 && if c.frame == 3 then Reports(c, 2, 1) else Reports(c, 1, 2)
    {
      CollisionsFed(job, true, 4, c);
    }
  }
}
