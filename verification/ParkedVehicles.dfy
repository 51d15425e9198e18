/** Two vehicles stand still for as long as the stopped-vehicle window asks: an event below
    the confidence threshold. */
module ParkedVehicles {
  import opened Sequences
  import opened Trajectories
  import opened Events
  import opened EventAnalysis
  import opened EventAggregation
  import opened Runs
  import opened RunTheorems
  import opened Drives

  function Parked(): Drive { Drive(n => 0.0, n => 5000.0, n => false) }

  lemma ParkedIsGentle()
    ensures Gentle(Parked())
  {
  }

  lemma {:induction false} NeverFast(math: Maths, n: nat)
    ensures CarFigures(math, Parked(), n).top == 0.0
  {
    if n > 0 {
      NeverFast(math, n - 1);
    }
  }

  lemma {:induction false} StoreHas(s: Scene, k: nat, n: nat)
    requires Ready(s) && k < n <= |s.store|
    ensures forall c :: c in StoppedOf(s, s.store[k]) ==> c in FromStore(s, n)
  {
    hide StoppedOf, Sound, HasLastPoints;
    if k < n - 1 {
      StoreHas(s, k, n - 1);
    }
  }

  /** In frame 119 the car has been seen standing 120 times. */
  lemma CarReported(job: Job) returns (c: Candidate)
    requires Suits(job)
    ensures c in StateAfter(job, Parked(), 120).candidates && c.etype == StoppedVehicle
  {
    hide Sound, StateAfter, CarFigures, TruckFigures, Summed, FromDetections, StoppedScore, SpeedSum, SpeedCount;
    ParkedIsGentle();
    AllGoing(job, Parked(), 119);
    NeverFast(job.math, 119);
    var s := SceneIn(job, Parked(), 119);
    DefaultHasLastPoints(s.store);
    FrameReports(job, Parked(), 119);
    StoreHas(s, 0, |s.store|);
    assert StoppedOf(s, s.store[0]) != [];
    c := StoppedOf(s, s.store[0])[0];
  }

  lemma EventOfStopped(s: seq<Candidate>, window: int, c: Candidate) returns (e: AccidentEvent)
    requires c in s && c.etype == StoppedVehicle
    ensures e in Consolidated(s, window) && e.etype == StoppedVehicle
  {
    hide Consolidated, Gather;
    var k :| 0 <= k < |s| && s[k] == c;
    var i := Root(s, window, k);
    EveryCandidateAccounted(s, window, k);
    e :| e in Consolidated(s, window) && Emit(Members(s, window, i, |s|)) == [e];
    RootOfRoot(s, window, k);
    EventStart(s, window, i, e);
  }

  /** A run of 120 frames reports a stopped vehicle with a confidence of one half, below the
      threshold of 0.55 that every other event has to reach. */
  lemma BelowThreshold(math: Maths) returns (e: AccidentEvent)
    requires Sound(math)
    ensures var job, footage := DriveJob(math, Parked()), Footage(120);
      && WellPosed(job) && Arrived(footage)
      && e in ResultOf(job, RunOf(job, footage, 120)).events
      && e.confidence == 0.5 < DefaultConfig().confidenceThreshold
  {
    hide Sound, StateAfter, RunOf, Consolidated, ByFrame, WellPosed, Arrived;
    var job, footage := DriveJob(math, Parked()), Footage(120);
    DriveWellPosed(math, Parked(), 120);
    RunIsFed(math, Parked(), 120, 120);
    var log := RunOf(job, footage, 120).candidates;
    var c := CarReported(job);
    ByFrameSorts(log);
    PermutationLength(log, ByFrame(log));
    e := EventOfStopped(ByFrame(log), DefaultConfig().temporalWindow, c);
    ConfidencesMeetThreshold(job, footage, e);
  }
}
