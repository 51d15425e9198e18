/** When a run reports an event with a confidence above one. */
module RunConfidence {
  import opened Types
  import opened Sequences
  import opened Letterbox
  import opened Sampling
  import opened Tracking
  import opened Trajectories
  import opened Events
  import opened EventAnalysis
  import opened EventAggregation
  import opened Catalogs
  import opened Pipeline
  import opened RunAccounts
  import opened Runs
  import opened RunTheorems

  // ----- where the candidates of a run come from -----

  /** Frame n reaches the event detector. */
  ghost predicate Judged(job: Job, arrivals: seq<Arrival>, n: nat)
    requires WellPosed(job) && Arrived(arrivals)
  {
    && n < |arrivals| && job.profile.trackingEnabled && Accepts(RunOf(job, arrivals, n).sampler, n)
    && Detect(job, arrivals[n], n).Some? && Detect(job, arrivals[n], n).value != []
  }

  /** The detections of frame n as the tracker named them. */
  ghost function NamedAt(job: Job, arrivals: seq<Arrival>, n: nat): seq<Detection>
    requires WellPosed(job) && Arrived(arrivals) && Judged(job, arrivals, n)
  {
    Labelled(RunOf(job, arrivals, n).tracks, TrackerOf(job), Detect(job, arrivals[n], n).value)
  }

  /** What frame n is judged against: the store that already holds its own sights. */
  ghost function SceneAt(job: Job, arrivals: seq<Arrival>, n: nat): (s: Scene)
    requires WellPosed(job) && Arrived(arrivals) && n < |arrivals|
    ensures Ready(s)
  {
    DefaultHasLastPoints(RunOf(job, arrivals, n + 1).store);
    SceneOf(job, RunOf(job, arrivals, n + 1).store, n, arrivals[n].frame.timestamp)
  }

  lemma FrameAdds(job: Job, arrivals: seq<Arrival>, n: nat)
    requires WellPosed(job) && Arrived(arrivals) && n < |arrivals|
    ensures RunOf(job, arrivals, n + 1).candidates
         == RunOf(job, arrivals, n).candidates
          + if !Judged(job, arrivals, n) then []
            else FrameCandidates(SceneAt(job, arrivals, n), NamedAt(job, arrivals, n))
  {
    hide WellPosed, WellFormed, Detect, StepRun, FrameCandidates, Followed, Advance, Labelled, Asked, Noted, Accepts,
      DefaultConfig;
    var st, a := RunOf(job, arrivals, n), arrivals[n];
    assert RunOf(job, arrivals, n + 1) == StepRun(job, st, a);
    if !Accepts(st.sampler, n) {
      StepSkipped(job, st, a);
    } else if Detect(job, a, n).None? {
      StepFailed(job, st, a);
    } else {
      StepDone(job, st, a);
    }
  }

  /** Every candidate of a run was put there by some frame. */
  lemma CameFrom(job: Job, arrivals: seq<Arrival>, m: nat, c: Candidate) returns (n: nat)
    requires WellPosed(job) && Arrived(arrivals) && m <= |arrivals| && c in RunOf(job, arrivals, m).candidates
    ensures n < m && Judged(job, arrivals, n)
    ensures c in FrameCandidates(SceneAt(job, arrivals, n), NamedAt(job, arrivals, n))
  {
    hide WellPosed, StepRun, FrameCandidates, NamedAt, SceneAt, Judged;
    if m > 0 {
      FrameAdds(job, arrivals, m - 1);
      if c in RunOf(job, arrivals, m - 1).candidates {
        n := CameFrom(job, arrivals, m - 1, c);
      } else {
        n := m - 1;
      }
    }
  }

  /** What a frame put there stays. */
  lemma {:induction false} StaysIn(job: Job, arrivals: seq<Arrival>, n: nat, m: nat, c: Candidate)
    requires WellPosed(job) && Arrived(arrivals) && n < m <= |arrivals| && Judged(job, arrivals, n)
    requires c in FrameCandidates(SceneAt(job, arrivals, n), NamedAt(job, arrivals, n))
    ensures c in RunOf(job, arrivals, m).candidates
    decreases m
  {
    hide WellPosed, StepRun, FrameCandidates, NamedAt, SceneAt, Judged, RunOf;
    FrameAdds(job, arrivals, m - 1);
    if n < m - 1 {
      StaysIn(job, arrivals, n, m - 1, c);
    }
  }

  lemma NamesDiffer(job: Job, arrivals: seq<Arrival>, n: nat)
    requires WellPosed(job) && Arrived(arrivals) && Judged(job, arrivals, n)
    ensures Named(NamedAt(job, arrivals, n))
  {
    hide WellPosed, RunOf, Detect, Labelled, Agree, Named;
    RunHolds(job, arrivals, n);
    var st := RunOf(job, arrivals, n);
    AgreeNumbered(st.tracks, st.store, st.log, st.frameNum);
    FrameNamed(st.tracks, TrackerOf(job), Detect(job, arrivals[n], n).value);
  }

  // ----- confidences above one -----

  /** In frame n detections i and j are reported as a collision, one of the two vehicles
      has nearly stopped, and the weighted part of the score exceeds 0.8. */
  ghost predicate Crashed(job: Job, arrivals: seq<Arrival>, n: nat, i: nat, j: nat)
    requires WellPosed(job) && Arrived(arrivals)
  {
    && Judged(job, arrivals, n)
    && var s, dets := SceneAt(job, arrivals, n), NamedAt(job, arrivals, n);
       && i < j < |dets| && Eligible(s.store, dets[i]) && Eligible(s.store, dets[j])
       && var p := PairFor(s, dets[i], dets[j]);
          && CollisionOf(s, p, dets[i], dets[j]) != []
          && p.postStop && WeightedPart(s.config, p) > 0.8
  }

  lemma ScoreAboveOneIff(s: Scene, dets: seq<Detection>, i: nat, j: nat, c: Candidate)
    requires Sound(s.math) && s.config == DefaultConfig() && CollisionAt(s, dets, i, j, c)
    ensures var p := PairFor(s, dets[i], dets[j]);
      c.score > 1.0 <==> p.postStop && WeightedPart(s.config, p) > 0.8
  {
    hide CollisionOf, PairOf, Eligible, Sound, WeightedPart, DefaultConfig;
    CollisionNames(s, dets, i, j, c);
    PairDistances(s.math, dets[i], dets[j], PathOf(s.store, dets[i]), PathOf(s.store, dets[j]));
    PresetWeights();
    CollisionAboveOneIff(s.config, PairFor(s, dets[i], dets[j]));
  }

  lemma {:induction false} OnlyCollisionsAboveOne(job: Job, arrivals: seq<Arrival>, m: nat, c: Candidate)
    requires WellPosed(job) && Arrived(arrivals) && m <= |arrivals| && c in RunOf(job, arrivals, m).candidates
    ensures c.score > 1.0 ==> c.etype == Collision
  {
    hide WellPosed, RunOf, Agree, AgesRight, Settled, ClashFree;
    RunHolds(job, arrivals, m);
  }

  lemma FromCrash(job: Job, arrivals: seq<Arrival>, m: nat, c: Candidate) returns (n: nat, i: nat, j: nat)
    requires WellPosed(job) && Arrived(arrivals) && m <= |arrivals| && c in RunOf(job, arrivals, m).candidates
    requires c.score > 1.0
    ensures Crashed(job, arrivals, n, i, j) && c.etype == Collision && c.frame == n
    ensures c.trackA == NamedAt(job, arrivals, n)[i].trackId && c.trackB == NamedAt(job, arrivals, n)[j].trackId > 0
  {
    hide WellPosed, RunOf, Judged, NamedAt, FrameCandidates, CollisionOf, PairOf, Eligible, Sound, WeightedPart,
      Named;
    OnlyCollisionsAboveOne(job, arrivals, m, c);
    n := CameFrom(job, arrivals, m, c);
    var s, dets := SceneAt(job, arrivals, n), NamedAt(job, arrivals, n);
    NamesDiffer(job, arrivals, n);
    i, j := FrameCollisions(s, dets, c);
    CollisionNames(s, dets, i, j, c);
    ScoreAboveOneIff(s, dets, i, j, c);
  }

  lemma ToCandidate(job: Job, arrivals: seq<Arrival>, m: nat, n: nat, i: nat, j: nat) returns (c: Candidate)
    requires WellPosed(job) && Arrived(arrivals) && n < m <= |arrivals| && Crashed(job, arrivals, n, i, j)
    ensures c in RunOf(job, arrivals, m).candidates && c.score > 1.0 && c.etype == Collision && c.frame == n
    ensures c.trackA == NamedAt(job, arrivals, n)[i].trackId && c.trackB == NamedAt(job, arrivals, n)[j].trackId > 0
  {
    hide WellPosed, RunOf, Judged, NamedAt, FrameCandidates, CollisionOf, PairOf, Eligible, Sound, WeightedPart;
    var s, dets := SceneAt(job, arrivals, n), NamedAt(job, arrivals, n);
    c := CollisionOf(s, PairFor(s, dets[i], dets[j]), dets[i], dets[j])[0];
    CollisionNames(s, dets, i, j, c);
    ScoreAboveOneIff(s, dets, i, j, c);
    CollisionReported(s, dets, i, j, c);
    StaysIn(job, arrivals, n, m, c);
  }

  /** Such a pair within the event's frames, naming its two objects. */
  ghost predicate CrashOf(job: Job, arrivals: seq<Arrival>, e: AccidentEvent, n: nat, i: nat, j: nat)
    requires WellPosed(job) && Arrived(arrivals)
  {
    && e.startFrame <= n <= e.endFrame && Crashed(job, arrivals, n, i, j)
    && e.involved == [NamedAt(job, arrivals, n)[i].trackId, NamedAt(job, arrivals, n)[j].trackId]
  }

  /** An event of a run has a confidence above one exactly when it is a collision in one of
      whose frames its two vehicles were reported with one of them nearly stopped and a
      weighted part above 0.8. In particular a run without a nearly stopped vehicle has no
      confidence above one. */
  lemma {:induction false} ConfidenceAboveOneIff(job: Job, arrivals: seq<Arrival>, e: AccidentEvent)
    requires WellPosed(job) && Arrived(arrivals)
    requires e in ResultOf(job, RunOf(job, arrivals, |arrivals|)).events
    ensures e.confidence > 1.0 <==> e.etype == Collision && exists n, i, j :: CrashOf(job, arrivals, e, n, i, j)
  {
    hide WellPosed, RunOf, ByFrame, Consolidated, CrashOf, CatalogOf;
    var log, window := RunOf(job, arrivals, |arrivals|).candidates, DefaultConfig().temporalWindow;
    var s := ByFrame(log);
    ByFrameSorts(log);
    PermutationLength(log, s);
    var i := SeedOf(s, window, e);
    if e.confidence > 1.0 {
      var n, a, b := CrashOfEvent(job, arrivals, s, i, e);
      assert CrashOf(job, arrivals, e, n, a, b);
    }
    if e.etype == Collision && exists n, a, b :: CrashOf(job, arrivals, e, n, a, b) {
      var n, a, b :| CrashOf(job, arrivals, e, n, a, b);
      CrashRaises(job, arrivals, s, i, e, n, a, b);
    }
  }

  lemma SeedOf(s: seq<Candidate>, window: int, e: AccidentEvent) returns (i: nat)
    requires e in Consolidated(s, window)
    ensures EventFor(s, window, i, e)
  {
    EventsCome(s, window, |s|);
    hide EventFor, EventsBelow;
    i :| 0 <= i < |s| && EventFor(s, window, i, e);
  }

  lemma CrashOfEvent(job: Job, arrivals: seq<Arrival>, s: seq<Candidate>, i: nat, e: AccidentEvent)
    returns (n: nat, a: nat, b: nat)
    requires WellPosed(job) && Arrived(arrivals) && FrameSorted(s)
    requires forall c :: c in s ==> c in RunOf(job, arrivals, |arrivals|).candidates
    requires EventFor(s, DefaultConfig().temporalWindow, i, e) && e.confidence > 1.0
    ensures e.etype == Collision && CrashOf(job, arrivals, e, n, a, b)
  {
    hide WellPosed, RunOf, EventFor, SmallestBox, Members, Crashed, NamedAt, FrameSorted;
    var window := DefaultConfig().temporalWindow;
    EventIsExact(s, window, i, e);
    EventStart(s, window, i, e);
    var ms := Members(s, window, i, |s|);
    var c :| c in ms && EventAggregation.ScoreOf(c) == e.confidence;
    MembersAre(s, window, i, |s|);
    assert c in s;
    n, a, b := FromCrash(job, arrivals, |arrivals|, c);
  }

  lemma {:induction false} CrashRaises(job: Job, arrivals: seq<Arrival>, s: seq<Candidate>, i: nat, e: AccidentEvent,
                                       n: nat, a: nat, b: nat)
    requires WellPosed(job) && Arrived(arrivals) && FrameSorted(s)
    requires forall c :: c in RunOf(job, arrivals, |arrivals|).candidates ==> c in s
    requires EventFor(s, DefaultConfig().temporalWindow, i, e) && e.etype == Collision
    requires CrashOf(job, arrivals, e, n, a, b)
    ensures e.confidence > 1.0
  {
    var c := ToCandidate(job, arrivals, |arrivals|, n, a, b);
    hide WellPosed, RunOf, EventFor, SmallestBox, Members, Crashed, NamedAt, FrameSorted;
    var window := DefaultConfig().temporalWindow;
    EventStart(s, window, i, e);
    EventIsExact(s, window, i, e);
    WithinEvent(s, window, i, e, c);
    assert EventAggregation.ScoreOf(c) <= e.confidence;
  }
}
