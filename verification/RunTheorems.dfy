/** What holds at the end of every run, whatever frames arrive, whichever of them fail,
    and whatever the model reports. */
module RunTheorems {
  import opened Types
  import opened Sequences
  import opened Letterbox
  import opened Sampling
  import opened Tracking
  import opened TrackerRuns
  import opened Trajectories
  import opened Events
  import opened EventAnalysis
  import opened EventAggregation
  import opened EventOrder
  import opened ConfirmedCollisions
  import opened Catalogs
  import opened Runs
  import opened RunAccounts
  import opened Pipeline

  // ----- invariants of the later stages -----

  ghost predicate CandidatesSound(cs: seq<Candidate>, config: EventConfig, frameNum: int)
  {
    && ClashFree(cs) && CollisionsNamed(cs) && Clocked(cs)
    && (forall c :: c in cs ==> c.frame < frameNum)
    && (forall c :: c in cs ==> ScoreSound(c, config))
  }

  ghost predicate ScoreSound(c: Candidate, config: EventConfig)
  {
    && (if c.etype == StoppedVehicle then c.score == if config.stoppedMinFrames == 0 then 1.0 else 0.5
        else c.score >= config.confidenceThreshold)
    && c.score <= TopScore(config) && (c.etype != Collision ==> c.score <= 1.0)
    && (c.trackB > 0 || c.trackB == -1)
  }

  /** Points carry the time of their frame. */
  ghost predicate Stamped(points: seq<Point>, clock: int -> real)
  {
    forall p :: p in points ==> p.frame >= 0 && p.timestamp == clock(p.frame)
  }

  /** A stored trajectory: its motion is consistent, its points keep time, and its
      summary figures are those of its points. */
  ghost predicate Settled(math: Maths, t: Trajectory, clock: int -> real)
  {
    Kinematic(math, t.points) && Stamped(t.points, clock) && t == Measured(math, t)
  }

  ghost predicate Holds(job: Job, st: RunState, clock: int -> real)
  {
    if job.profile.trackingEnabled then
      && Agree(st.tracks, st.store, st.log, st.frameNum)
      && AgesRight(st.tracks, TrackerOf(job).maxAge)
      && CandidatesSound(st.candidates, DefaultConfig(), st.frameNum)
      && (forall t :: t in st.store ==> Settled(job.math, t, clock))
    else
      st.tracks == [] && st.store == [] && st.candidates == []
  }

  // ----- candidates -----

  lemma CandidatesStay(cs: seq<Candidate>, config: EventConfig, a: int, b: int)
    requires CandidatesSound(cs, config, a) && a <= b
    ensures CandidatesSound(cs, config, b)
  {
    hide ClashFree, ScoreSound;
  }

  lemma NewCandidatesSound(s: Scene, dets: seq<Detection>)
    requires Ready(s) && Named(dets) && NonNegativeWeights(s.config)
    requires WeightTotal(s.config) <= 1.0
    ensures CandidatesSound(FrameCandidates(s, dets), s.config, s.frame + 1)
    ensures forall c :: c in FrameCandidates(s, dets) ==> c.frame == s.frame
  {
    hide ClashFree, FrameCandidates, Sound, TopScore, NonNegativeWeights, WeightTotal;
    FrameSane(s, dets);
  }

  lemma CandidatesJoin(was: seq<Candidate>, added: seq<Candidate>, config: EventConfig, n: int)
    requires CandidatesSound(was, config, n)
    requires CandidatesSound(added, config, n + 1) && forall c :: c in added ==> c.frame == n
    ensures CandidatesSound(was + added, config, n + 1)
  {
    hide ClashFree, ScoreSound;
    ClashFreeConcat(was, added);
  }

  // ----- trajectories -----

  lemma ExtendedStamped(math: Maths, points: seq<Point>, pt: Point, clock: int -> real)
    requires Stamped(points, clock) && pt.frame >= 0 && pt.timestamp == clock(pt.frame)
    ensures Stamped(Extended(math, points, pt), clock)
  {
    hide Norm;
  }

  lemma {:induction false} SightedStamped(math: Maths, store: seq<Trajectory>, dets: seq<Detection>, frame: int,
                                          timestamp: real, n: nat, clock: int -> real)
    requires n <= |dets| && frame >= 0 && timestamp == clock(frame)
    requires forall t :: t in store ==> Stamped(t.points, clock)
    ensures forall t :: t in AllSighted(math, store, dets, frame, timestamp, n) ==> Stamped(t.points, clock)
  {
    hide Stamped, Extended;
    if n > 0 {
      SightedStamped(math, store, dets, frame, timestamp, n - 1, clock);
      var before, det := AllSighted(math, store, dets, frame, timestamp, n - 1), dets[n - 1];
      if det.trackId > 0 {
        WithTrackHolds(before, det);
        NothingStamped(clock);
        var i := Find(before, det.trackId);
        ExtendedStamped(math, WithTrack(before, det)[i].points, Resting(det, frame, timestamp), clock);
      }
    }
  }

  lemma NothingStamped(clock: int -> real)
    ensures Stamped([], clock)
  {
  }

  lemma MeasuredSettles(math: Maths, t: Trajectory, clock: int -> real)
    requires Kinematic(math, t.points) && Stamped(t.points, clock)
    ensures Settled(math, Measured(math, t), clock)
  {
    hide Kinematic, Stamped, SpeedSum, SpeedCount, SpeedMax, Distance, Average;
  }

  lemma StoreSettles(math: Maths, store: seq<Trajectory>, dets: seq<Detection>, frame: int, timestamp: real,
      clock: int -> real)
    requires frame >= 0 && timestamp == clock(frame) && forall t :: t in store ==> Settled(math, t, clock)
    ensures forall t :: t in Followed(math, store, dets, frame, timestamp) ==> Settled(math, t, clock)
  {
    hide AllSighted, Kinematic, Stamped, Measured;
    var now := AllSighted(math, store, dets, frame, timestamp, |dets|);
    StoreKinematic(math, store, dets, frame, timestamp, |dets|);
    SightedStamped(math, store, dets, frame, timestamp, |dets|, clock);
    var after := Followed(math, store, dets, frame, timestamp);
    forall t | t in after ensures Settled(math, t, clock) {
      var k :| 0 <= k < |after| && after[k] == t;
      assert now[k] in now;
      MeasuredSettles(math, now[k], clock);
    }
  }

  // ----- one step -----

  lemma AgreeStays(tracks: seq<Track>, store: seq<Trajectory>, log: seq<Detection>, a: int, b: int)
    requires Agree(tracks, store, log, a) && a <= b
    ensures Agree(tracks, store, log, b)
  {
    hide Rising, Logged;
    forall k | 0 <= k < |store| ensures InStep(store[k], tracks[k], b) {
      RisingWeakens(store[k].points, a, b);
    }
  }

  lemma HoldsStays(job: Job, st: RunState, later: RunState, clock: int -> real)
    requires Holds(job, st, clock) && st.frameNum <= later.frameNum
    requires later.tracks == st.tracks && later.store == st.store && later.candidates == st.candidates
      && later.log == st.log
    ensures Holds(job, later, clock)
  {
    hide Agree, AgesRight, CandidatesSound, Settled;
    if job.profile.trackingEnabled {
      AgreeStays(st.tracks, st.store, st.log, st.frameNum, later.frameNum);
      CandidatesStay(st.candidates, DefaultConfig(), st.frameNum, later.frameNum);
    }
  }

  lemma TrackedFrame(job: Job, st: RunState, dets: seq<Detection>, n: int, timestamp: real, clock: int -> real)
    requires Sound(job.math) && job.profile.trackingEnabled && dets != []
    requires Holds(job, st, clock) && st.frameNum == n && timestamp == clock(n)
    requires forall d :: d in dets ==> d.classId >= 0 && d.frame == n && d.timestamp == timestamp
    ensures Holds(job, Runs.Absorb(job, st, dets, n, timestamp).(frameNum := n + 1), clock)
  {
    hide Agree, AgesRight, CandidatesSound, Settled, Sound, Advance, Labelled, Followed, FrameCandidates, Numbered,
      Named;
    var config := TrackerOf(job);
    var named := Labelled(st.tracks, config, dets);
    var store := Followed(job.math, st.store, named, n, timestamp);
    AgreeNumbered(st.tracks, st.store, st.log, n);
    FrameAgrees(job.math, st.tracks, st.store, st.log, config, dets, n, timestamp);
    StepKeeps(st.tracks, config, dets);
    FrameNamed(st.tracks, config, dets);
    NewCandidatesSound(SceneOf(job, store, n, timestamp), named);
    CandidatesJoin(st.candidates, FrameCandidates(SceneOf(job, store, n, timestamp), named), DefaultConfig(), n);
    StoreSettles(job.math, st.store, named, n, timestamp, clock);
  }

  lemma AgreeNumbered(tracks: seq<Track>, store: seq<Trajectory>, log: seq<Detection>, n: int)
    requires Agree(tracks, store, log, n)
    ensures Numbered(tracks)
  {
  }

  lemma FrameNamed(tracks: seq<Track>, config: TrackerConfig, dets: seq<Detection>)
    requires Numbered(tracks)
    ensures Named(Labelled(tracks, config, dets))
  {
    hide Labelled;
    TrackerRuns.IdsDistinct(tracks, config, dets);
  }

  lemma StepHolds(job: Job, st: RunState, a: Arrival, clock: int -> real)
    requires WellPosed(job) && WellFormed(a.frame) && Running(st.sampler)
    requires Holds(job, st, clock) && a.frame.timestamp == clock(st.frameNum)
    ensures Holds(job, StepRun(job, st, a), clock)
  {
    hide WellPosed, WellFormed, Detect, Holds, Asked, Noted, Accepts, StepRun;
    var r := StepRun(job, st, a);
    if !Accepts(st.sampler, st.frameNum) {
      StepSkipped(job, st, a);
      HoldsStays(job, st, r, clock);
    } else if Detect(job, a, st.frameNum).None? {
      StepFailed(job, st, a);
      HoldsStays(job, st, r, clock);
    } else {
      ProcessedHolds(job, st, a, clock);
    }
  }

  lemma ProcessedHolds(job: Job, st: RunState, a: Arrival, clock: int -> real)
    requires WellPosed(job) && WellFormed(a.frame) && Running(st.sampler)
    requires Holds(job, st, clock) && a.frame.timestamp == clock(st.frameNum)
    requires Accepts(st.sampler, st.frameNum) && Detect(job, a, st.frameNum).Some?
    ensures Holds(job, StepRun(job, st, a), clock)
  {
    hide WellPosed, WellFormed, Detect, Holds, Asked, Noted, Accepts, StepRun, Running, FrameCandidates, Followed,
      Advance, Labelled;
    var r, dets := StepRun(job, st, a), Detect(job, a, st.frameNum).value;
    StepDone(job, st, a);
    DetectedSane(job, a, st.frameNum);
    if dets == [] {
      HoldsStays(job, st, r, clock);
    } else if job.profile.trackingEnabled {
      TrackedFrame(job, st, dets, st.frameNum, a.frame.timestamp, clock);
      HoldsStays(job, Runs.Absorb(job, st, dets, st.frameNum, a.frame.timestamp).(frameNum := st.frameNum + 1), r,
        clock);
    } else {
      UntrackedFrame(job, st, r, clock);
    }
  }

  lemma UntrackedFrame(job: Job, st: RunState, later: RunState, clock: int -> real)
    requires Holds(job, st, clock) && !job.profile.trackingEnabled
    requires later.tracks == st.tracks && later.store == st.store && later.candidates == st.candidates
    ensures Holds(job, later, clock)
  {
  }

  lemma InitialHolds(job: Job, clock: int -> real)
    ensures Holds(job, Initial(job), clock)
  {
  }

  /** The time of each frame, as the decoder reported it. */
  ghost function ClockOf(arrivals: seq<Arrival>): int -> real
  {
    n => if 0 <= n < |arrivals| then arrivals[n].frame.timestamp else 0.0
  }

  lemma {:induction false} RunHolds(job: Job, arrivals: seq<Arrival>, n: nat)
    requires WellPosed(job) && Arrived(arrivals) && n <= |arrivals|
    ensures Holds(job, RunOf(job, arrivals, n), ClockOf(arrivals))
  {
    hide Holds, WellPosed, WellFormed, StepRun;
    if n == 0 {
      InitialHolds(job, ClockOf(arrivals));
    } else {
      RunHolds(job, arrivals, n - 1);
      StepHolds(job, RunOf(job, arrivals, n - 1), arrivals[n - 1], ClockOf(arrivals));
    }
  }

  // ----- frame conservation and sampling -----

  ghost predicate Counted(st: RunState)
  {
    && st.decoded == st.frameNum
    && st.decoded == st.processed + st.sampler.skipped + st.errors
    && st.sampler.processed == st.processed + st.errors
  }

  lemma StepCounts(job: Job, st: RunState, a: Arrival)
    requires WellPosed(job) && WellFormed(a.frame) && Running(st.sampler) && Counted(st)
    ensures Counted(StepRun(job, st, a))
  {
    hide WellPosed, WellFormed, Detect, StepRun, Runs.Absorb;
    if !Accepts(st.sampler, st.frameNum) {
      StepSkipped(job, st, a);
    } else if Detect(job, a, st.frameNum).None? {
      StepFailed(job, st, a);
    } else {
      StepDone(job, st, a);
    }
  }

  /** Every decoded frame is processed, skipped by the sampler or counted as an error,
      and only one of these. */
  lemma {:induction false} FramesConserved(job: Job, arrivals: seq<Arrival>, n: nat)
    requires WellPosed(job) && Arrived(arrivals) && n <= |arrivals|
    ensures Counted(RunOf(job, arrivals, n))
  {
    hide WellPosed, WellFormed, StepRun;
    if n > 0 {
      FramesConserved(job, arrivals, n - 1);
      StepCounts(job, RunOf(job, arrivals, n - 1), arrivals[n - 1]);
    }
  }

  ghost function OutcomeOf(job: Job, a: Arrival, n: int): Outcome
    requires WellPosed(job) && WellFormed(a.frame)
  {
    match Detect(job, a, n)
    case None => Failed
    case Some(dets) => Done(|dets|)
  }

  ghost function OutcomesOf(job: Job, arrivals: seq<Arrival>): (r: seq<Outcome>)
    requires WellPosed(job) && Arrived(arrivals)
    ensures |r| == |arrivals|
  {
    seq(|arrivals|, i requires 0 <= i < |arrivals| => OutcomeOf(job, arrivals[i], i))
  }

  lemma SamplerSteps(job: Job, st: RunState, a: Arrival)
    requires WellPosed(job) && WellFormed(a.frame) && Running(st.sampler)
    ensures StepRun(job, st, a).sampler == StepState(st.sampler, st.frameNum, OutcomeOf(job, a, st.frameNum))
  {
    hide WellPosed, WellFormed, Detect, StepRun, Runs.Absorb, Asked, Noted, Accepts;
    if !Accepts(st.sampler, st.frameNum) {
      StepSkipped(job, st, a);
    } else if Detect(job, a, st.frameNum).None? {
      StepFailed(job, st, a);
    } else {
      StepDone(job, st, a);
    }
  }

  lemma {:induction false} SamplerOfRun(job: Job, arrivals: seq<Arrival>, n: nat)
    requires WellPosed(job) && Arrived(arrivals) && n <= |arrivals|
    ensures RunOf(job, arrivals, n).sampler
         == After(Started(job.profile.policy, job.profile.interval), OutcomesOf(job, arrivals), n)
  {
    hide WellPosed, WellFormed, StepRun, OutcomeOf, StepState;
    if n > 0 {
      SamplerOfRun(job, arrivals, n - 1);
      SamplerSteps(job, RunOf(job, arrivals, n - 1), arrivals[n - 1]);
    }
  }

  /** Every run that has a frame accepts its first one. */
  lemma {:induction false} FirstFrameOfRun(job: Job, arrivals: seq<Arrival>)
    requires WellPosed(job) && Arrived(arrivals) && arrivals != []
    ensures Accepts(RunOf(job, arrivals, 0).sampler, 0)
  {
    hide WellPosed, WellFormed, OutcomeOf, RunOf;
    FirstFrameAccepted(job.profile.policy, job.profile.interval, OutcomesOf(job, arrivals));
    SamplerOfRun(job, arrivals, 0);
  }

  /** In a run with adaptive sampling every GapBound consecutive frames hold one that is
      accepted, whatever is detected and whichever frames fail. */
  lemma AdaptiveRunGap(job: Job, arrivals: seq<Arrival>, f: nat) returns (g: nat)
    requires WellPosed(job) && Arrived(arrivals) && job.profile.policy == Adaptive
    requires f + GapBound(if job.profile.interval > 0 then job.profile.interval else 1) <= |arrivals|
    ensures f <= g < f + GapBound(if job.profile.interval > 0 then job.profile.interval else 1)
    ensures g < |arrivals| && Accepts(RunOf(job, arrivals, g).sampler, g)
  {
    hide WellPosed, WellFormed, OutcomeOf, RunOf;
    g := AdaptiveGap(job.profile.interval, OutcomesOf(job, arrivals), f);
    SamplerOfRun(job, arrivals, g);
  }

  // ----- identities -----

  /** At the end of any run with tracking: trajectories, tracks and the unique objects of
      the catalog are equally many; the points of trajectory k are, in order and in
      strictly rising frames, the sights of the detections logged for track k + 1, one
      for each of its hits; and the lengths add up to the detections. */
  lemma {:induction false} IdentitiesAgree(job: Job, arrivals: seq<Arrival>)
    requires WellPosed(job) && Arrived(arrivals) && job.profile.trackingEnabled
    ensures var st := RunOf(job, arrivals, |arrivals|);
      && |st.store| == |st.tracks| == SumUnique(ResultOf(job, st).catalog)
      && SumTotals(ResultOf(job, st).catalog) == ResultOf(job, st).totalDetections
      && SumPoints(st.store) == SumHits(st.tracks) == ResultOf(job, st).totalDetections
      && (forall k :: 0 <= k < |st.store| ==>
            && st.store[k].trackId == st.tracks[k].trackId == k + 1
            && InStep(st.store[k], st.tracks[k], st.frameNum)
            && Sights(st.store[k].points) == Sightings(ResultOf(job, st).allDetections, k + 1))
  {
    hide WellPosed, WellFormed, RunOf, InStep, AgesRight, CandidatesSound, Settled, EventsOf, CatalogOf, SumTotals,
      SumUnique,
      SumPoints, SumHits;
    RunHolds(job, arrivals, |arrivals|);
    var st := RunOf(job, arrivals, |arrivals|);
    CatalogCountsTracks(st.tracks, st.store, st.log, st.frameNum);
    TotalsAddUp(st.log);
    forall k | 0 <= k < |st.store| ensures |st.store[k].points| == st.tracks[k].hits {
      InStepHits(st.store[k], st.tracks[k], st.frameNum);
    }
    PointsAreHits(st.tracks, st.store);
  }

  /** In the catalog of a run with tracking every class seen is listed with as many unique
      objects as the tracker has tracks of that class. */
  lemma {:induction false} UniqueTracksByClass(job: Job, arrivals: seq<Arrival>, e: CatalogEntry)
    requires WellPosed(job) && Arrived(arrivals) && job.profile.trackingEnabled
    requires e in ResultOf(job, RunOf(job, arrivals, |arrivals|)).catalog
    ensures var tracks := RunOf(job, arrivals, |arrivals|).tracks;
      e.totalUniqueTracks == |set t | t in tracks && t.classId == e.classId :: t.trackId|
  {
    hide WellPosed, WellFormed, RunOf, InStep, AgesRight, CandidatesSound, Settled, EventsOf, CatalogOf, EntryOf;
    RunHolds(job, arrivals, |arrivals|);
    var st := RunOf(job, arrivals, |arrivals|);
    CatalogExact(st.log);
    ClassCountsTracks(st.tracks, st.store, st.log, st.frameNum, e.classId);
  }

  lemma InStepHits(t: Trajectory, r: Track, bound: int)
    requires InStep(t, r, bound)
    ensures |t.points| == r.hits
  {
  }

  // ----- motion -----

  ghost predicate ClockRises(arrivals: seq<Arrival>)
  {
    forall i, k :: 0 <= i < k < |arrivals| ==> arrivals[i].frame.timestamp < arrivals[k].frame.timestamp
  }

  lemma RisingInTime(t: Trajectory, r: Track, arrivals: seq<Arrival>, j: nat)
    requires InStep(t, r, |arrivals|) && Stamped(t.points, ClockOf(arrivals)) && 0 < j < |t.points|
    requires ClockRises(arrivals)
    ensures t.points[j].timestamp > t.points[j - 1].timestamp
  {
    assert t.points[j] in t.points && t.points[j - 1] in t.points;
    assert t.points[j - 1].frame < t.points[j].frame;
  }

  /** When the decoder's clock rises, every trajectory of the run that was seen twice
      has a distance that is the integral of its speed, at most its top speed times the
      elapsed time, and an average speed of at most the top speed. */
  lemma {:induction false} MotionConsistent(job: Job, arrivals: seq<Arrival>, k: nat)
    requires WellPosed(job) && Arrived(arrivals) && job.profile.trackingEnabled && ClockRises(arrivals)
    requires var st := RunOf(job, arrivals, |arrivals|);
      k < |st.store| && |st.store[k].points| >= 2
    ensures var t := RunOf(job, arrivals, |arrivals|).store[k];
      var n := |t.points|;
      && t.totalDistance == Travelled(t.points, n)
      && t.totalDistance <= t.maxSpeed * ((t.points[n - 1].timestamp - t.points[0].timestamp) / 1000.0)
      && t.avgSpeed <= t.maxSpeed
  {
    hide WellFormed, RunOf, InStep, AgesRight, CandidatesSound, Sound, Measured, Travelled, Kinematic, Stamped,
      ClockRises;
    RunHolds(job, arrivals, |arrivals|);
    var st := RunOf(job, arrivals, |arrivals|);
    var t := st.store[k];
    assert t in st.store;
    forall j | 0 < j < |t.points| ensures t.points[j].timestamp > t.points[j - 1].timestamp {
      RisingInTime(t, st.tracks[k], arrivals, j);
    }
    SummaryConsistent(job.math, t);
  }

  // ----- events -----

  /** Every collision event of any run involves two different named objects and spans
      more than one frame. */
  lemma {:induction false} CollisionsAreReal(job: Job, arrivals: seq<Arrival>, e: AccidentEvent)
    requires WellPosed(job) && Arrived(arrivals)
    requires e in ResultOf(job, RunOf(job, arrivals, |arrivals|)).events && e.etype == Collision
    ensures e.startFrame < e.endFrame
    ensures |e.involved| == 2 && e.involved[0] != e.involved[1] && e.involved[0] > 0 && e.involved[1] > 0
  {
    hide WellPosed, WellFormed, RunOf, Consolidated, ByFrame, Agree, AgesRight, Settled, ClashFree, ScoreSound,
      CatalogOf;
    RunHolds(job, arrivals, |arrivals|);
    CollisionSpansTime(RunOf(job, arrivals, |arrivals|).candidates, DefaultConfig().temporalWindow, e);
  }

  /** A run reports a collision of a with b, in this order, exactly when two different frames
      at most 10 apart reported it. */
  lemma {:induction false} CollisionOfRunIff(job: Job, arrivals: seq<Arrival>, a: int, b: int)
    requires WellPosed(job) && Arrived(arrivals) && b > 0
    ensures var st := RunOf(job, arrivals, |arrivals|);
      HasCollision(ResultOf(job, st).events, a, b) <==>
        ReportedNear(st.candidates, 10, a, b)
  {
    hide WellPosed, WellFormed, RunOf, Consolidated, ByFrame, Agree, AgesRight, Settled, ClashFree, ScoreSound,
      CatalogOf;
    RunHolds(job, arrivals, |arrivals|);
    NoClashYet();
    CollisionOfLogIff(RunOf(job, arrivals, |arrivals|).candidates, DefaultConfig().temporalWindow, a, b);
  }

  /** Two reports that a and b collided, naming the same one first. */
  predicate OneWayRound(c: Candidate, d: Candidate, a: int, b: int)
  {
    (Reports(c, a, b) && Reports(d, a, b)) || (Reports(c, b, a) && Reports(d, b, a))
  }

  /** Two objects go without a collision event, whichever is named first, exactly when no
      two reports of one orientation come from frames 1 to 10 apart. */
  lemma {:induction false} PairWithoutEventIff(job: Job, arrivals: seq<Arrival>, a: int, b: int)
    requires WellPosed(job) && Arrived(arrivals) && a > 0 && b > 0
    ensures var st := RunOf(job, arrivals, |arrivals|);
      var events := ResultOf(job, st).events;
      (!HasCollision(events, a, b) && !HasCollision(events, b, a)) <==>
        forall c, d :: c in st.candidates && d in st.candidates && OneWayRound(c, d, a, b) && c.frame < d.frame ==>
          d.frame - c.frame > 10
  {
    hide WellPosed, RunOf, ResultOf, HasCollision;
    CollisionOfRunIff(job, arrivals, a, b);
    CollisionOfRunIff(job, arrivals, b, a);
  }

  /** Every event but those for stopped vehicles has a confidence of at least 0.55, those
      score one half, and no confidence exceeds 1.2. */
  lemma {:induction false} ConfidencesMeetThreshold(job: Job, arrivals: seq<Arrival>, e: AccidentEvent)
    requires WellPosed(job) && Arrived(arrivals)
    requires e in ResultOf(job, RunOf(job, arrivals, |arrivals|)).events
    ensures if e.etype == StoppedVehicle then e.confidence == 0.5 else e.confidence >= 0.55
    ensures e.confidence <= TopScore(DefaultConfig()) == 1.2
  {
    hide WellPosed, WellFormed, RunOf, ByFrame, Agree, AgesRight, Settled, ClashFree, CatalogOf, Root, Members,
      SmallestBox,
      Sum, EventsBelow, Gather, EventOf;
    RunHolds(job, arrivals, |arrivals|);
    var log, window := RunOf(job, arrivals, |arrivals|).candidates, DefaultConfig().temporalWindow;
    var s := ByFrame(log);
    ByFrameSorts(log);
    PermutationLength(log, s);
    EventsCome(s, window, |s|);
    var i :| 0 <= i < |s| && EventFor(s, window, i, e);
    EventIsExact(s, window, i, e);
    var ms := Members(s, window, i, |s|);
    EventTypeIs(s, window, i, e);
    var c :| c in ms && EventAggregation.ScoreOf(c) == e.confidence;
    MemberIs(s, window, i, |s|, c);
    assert c in s;
  }

  /** Two events of a run of one type and with the same objects are more than 10 frames
      apart. */
  lemma {:induction false} EventsOfRunApart(job: Job, arrivals: seq<Arrival>, p: nat, q: nat)
    requires WellPosed(job) && Arrived(arrivals)
    requires var events := ResultOf(job, RunOf(job, arrivals, |arrivals|)).events;
      p < q < |events| && events[p].etype == events[q].etype && events[p].involved == events[q].involved
    ensures var events := ResultOf(job, RunOf(job, arrivals, |arrivals|)).events;
      events[q].startFrame - events[p].endFrame > 10
  {
    hide WellPosed, WellFormed, RunOf, ByFrame, Agree, AgesRight, Settled, ClashFree, CatalogOf, Consolidated,
      ScoreSound;
    RunHolds(job, arrivals, |arrivals|);
    var log := RunOf(job, arrivals, |arrivals|).candidates;
    ByFrameSorts(log);
    PermutationLength(log, ByFrame(log));
    LogKeyed(log, DefaultConfig());
    EventsApart(ByFrame(log), DefaultConfig().temporalWindow, p, q);
  }

  lemma LogKeyed(log: seq<Candidate>, config: EventConfig)
    requires forall c :: c in log ==> ScoreSound(c, config)
    ensures Keyed(log)
  {
  }

  lemma EventTypeIs(s: seq<Candidate>, window: int, i: nat, e: AccidentEvent)
    requires EventFor(s, window, i, e)
    ensures e.etype == s[i].etype
  {
    hide Gather;
    SeedIsFirst(s, window, i, |s|);
  }

  /** The events of a run would be the same had the candidates been recorded in any
      other order. */
  lemma {:induction false} EventsIgnoreOrder(job: Job, arrivals: seq<Arrival>, other: seq<Candidate>)
    requires WellPosed(job) && Arrived(arrivals) && job.profile.trackingEnabled
    requires Permutation(RunOf(job, arrivals, |arrivals|).candidates, other)
    ensures Permutation(ResultOf(job, RunOf(job, arrivals, |arrivals|)).events,
                        Consolidated(ByFrame(other), 10))
  {
    hide WellPosed, WellFormed, RunOf, ByFrame, Agree, AgesRight, Settled, ClashFree, CatalogOf, Consolidated,
      ScoreSound;
    RunHolds(job, arrivals, |arrivals|);
    ConsolidationIgnoresOrder(RunOf(job, arrivals, |arrivals|).candidates, other, DefaultConfig().temporalWindow);
  }
}
