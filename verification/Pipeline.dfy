/** The main loop, driving every stage object. */
module Pipeline {
  import opened Types
  import opened Letterbox
  import opened Preprocessor
  import opened Decoding
  import opened Postprocessor
  import opened Sampling
  import opened Tracking
  import opened TrackerModule
  import opened Trajectories
  import opened TrajectoryBuilderModule
  import opened Events
  import opened EventAnalysis
  import opened EventDetection
  import opened Catalogs
  import opened CatalogBuilderModule
  import opened Runs

  /** What one run owns: the stage objects, the reused buffers and the counters. The
      tracking stages are left untouched when tracking is disabled. */
  class Worker {
    const job: Job
    const sampler: FrameSampler
    const config: PreprocessConfig
    const tensor: Tensor
    const tracker: Tracker
    const trajBuilder: TrajectoryBuilder
    const eventDet: EventDetector
    const catBuilder: CatalogBuilder
    const dets: DetectionList
    var frameNum: int
    var framesDecoded: int
    var framesProcessed: int
    var errors: int
    var allDetections: seq<Detection>
    var totalDetections: int

    constructor (job: Job)
      ensures this.job == job && Valid() && Matches(Initial(job))
      ensures fresh(sampler) && fresh(config) && fresh(tensor) && tensor.data == null && fresh(dets)
      ensures fresh(tracker) && fresh(trajBuilder) && fresh(eventDet) && fresh(eventDet.candidates) && fresh(catBuilder)
    {
      hide Started, DefaultOptions, DefaultConfig, TensorSize, CountActive, TrackerOf, Running;
      this.job := job;
      sampler := new FrameSampler(job.profile.policy, job.profile.interval);
      config := new PreprocessConfig(job.profile.inputWidth, job.profile.inputHeight);
      tensor := new Tensor();
      tracker := new Tracker(TrackerOf(job));
      trajBuilder := new TrajectoryBuilder(job.math);
      eventDet := new EventDetector(DefaultConfig());
      catBuilder := new CatalogBuilder(job.numClasses);
      dets := new DetectionList();
      frameNum, framesDecoded, framesProcessed, errors := 0, 0, 0, 0;
      allDetections := [];
      totalDetections := 0;
    }

    ghost function Buffer(): set<object>
      reads tensor
    {
      if tensor.data == null then {} else {tensor.data}
    }

    ghost predicate Valid()
      reads this, sampler, config, tensor, Buffer(), tracker, trajBuilder, eventDet, eventDet.candidates, catBuilder,
        dets
    {
      && Running(sampler.State())
      && config.options == OptionsOf(job)
      && (tensor.data != null ==> tensor.data.Length == TensorSize(config.options))
      && tracker.Valid() && tracker.config == TrackerOf(job)
      && trajBuilder.math == job.math
      && eventDet.Valid() && eventDet.config == DefaultConfig()
      && catBuilder.Valid()
    }

    /** The objects hold what the run state says. */
    ghost predicate Matches(st: RunState)
      requires Valid()
      reads this, sampler, config, tensor, Buffer(), tracker, trajBuilder, eventDet, eventDet.candidates, catBuilder,
        dets
    {
      && st.frameNum == frameNum && st.sampler == sampler.State()
      && st.decoded == framesDecoded && st.processed == framesProcessed && st.errors == errors
      && MatchesLater(st)
    }

    ghost predicate MatchesLater(st: RunState)
      requires Valid()
      reads this, sampler, config, tensor, Buffer(), tracker, trajBuilder, eventDet, eventDet.candidates, catBuilder,
        dets
    {
      && tracker.tracks == st.tracks
      && trajBuilder.store == st.store
      && eventDet.Candidates() == st.candidates && eventDet.events == []
      && catBuilder.log == st.log
      && allDetections == st.log && totalDetections == |st.log|
    }

    /** Names the detections of the frame and takes them into the three tracking stages. */
    method Follow(n: int, timestamp: real)
      requires Valid() && Sound(job.math)
      modifies tracker, trajBuilder, eventDet, eventDet.candidates, dets
      ensures Valid() && eventDet.events == old(eventDet.events)
      ensures eventDet.candidates == old(eventDet.candidates) || fresh(eventDet.candidates)
      ensures dets.items == Labelled(old(tracker.tracks), TrackerOf(job), old(dets.items))
      ensures tracker.tracks == Advance(old(tracker.tracks), TrackerOf(job), old(dets.items))
      ensures trajBuilder.store == Followed(job.math, old(trajBuilder.store), dets.items, n, timestamp)
      ensures eventDet.Candidates() == old(eventDet.Candidates())
           + FrameCandidates(SceneOf(job, trajBuilder.store, n, timestamp), dets.items)
    {
      hide Sound, Advance, Labelled, FrameCandidates, AllSighted, AllMeasured, Running, TensorSize, DefaultConfig,
        TrackerOf;
      var active := tracker.Update(dets);
      trajBuilder.Update(dets, n, timestamp);
      trajBuilder.ComputeMetrics();
      DefaultHasLastPoints(trajBuilder.store);
      eventDet.Analyze(trajBuilder, dets, n, timestamp);
    }

    /** Tracks, follows, judges and records the detections of the frame. */
    method Absorb(n: int, timestamp: real, ghost st: RunState)
      requires Valid() && MatchesLater(st) && Sound(job.math)
      requires forall d :: d in dets.items ==> d.classId >= 0
      modifies this`allDetections, this`totalDetections, tracker, trajBuilder, eventDet, eventDet.candidates,
        catBuilder, dets
      ensures Valid() && MatchesLater(Runs.Absorb(job, st, old(dets.items), n, timestamp))
      ensures eventDet.candidates == old(eventDet.candidates) || fresh(eventDet.candidates)
      ensures |dets.items| == |old(dets.items)|
    {
      hide Sound, Advance, FrameCandidates, Followed, Running, TensorSize, DefaultConfig, TrackerOf, SceneOf;
      if |dets.items| > 0 {
        if job.profile.trackingEnabled {
          LabelsKeepClasses(st.tracks, TrackerOf(job), dets.items);
          Follow(n, timestamp);
        }
        catBuilder.Add(dets);
        allDetections := allDetections + dets.items;
        totalDetections := totalDetections + |dets.items|;
      }
    }

    /** Preprocess, infer, postprocess; fails where the frame fails. */
    method DetectFrame(a: Arrival, n: int) returns (ok: bool)
      requires Valid() && WellPosed(job) && WellFormed(a.frame) && dets.items == []
      modifies tensor, config, dets, Buffer()
      ensures tensor.data == old(tensor.data) || (tensor.data != null && fresh(tensor.data))
      ensures tensor.data != null ==> tensor.data.Length == TensorSize(config.options)
      ensures ok == Detect(job, a, n).Some?
      ensures ok ==> dets.items == Detect(job, a, n).value
    {
      hide TensorOf, DetectionsOf, FitOf, TensorSize, WellFormed;
      ok := false;
      if a.prepared {
        PreprocessFrame(a.frame, tensor, config);
        RatioIsPositive(job, a.frame);
        match job.infer(n, tensor.data[..]) {
          case None =>
          case Some(raw) =>
            var fit := Fit(config.ratio, config.padX, config.padY);
            PostprocessDetections(raw, job.dim1, job.dim2, Some(fit), PostOf(job), Stamp(n, a.frame.timestamp), dets);
            ok := true;
        }
      }
    }

    /** One turn of the main loop. */
    method Step(a: Arrival, ghost st: RunState)
      requires Valid() && Matches(st) && WellPosed(job) && WellFormed(a.frame)
      modifies this, sampler, config, tensor, Buffer(), tracker, trajBuilder, eventDet, eventDet.candidates,
        catBuilder, dets
      ensures Valid()
      ensures tensor.data == old(tensor.data) || (tensor.data != null && fresh(tensor.data))
      ensures eventDet.candidates == old(eventDet.candidates) || fresh(eventDet.candidates)
      ensures Running(st.sampler) && Matches(StepRun(job, st, a))
    {
      hide WellPosed, Detect, Asked, Accepts, TensorSize, WellFormed, StepRun, Running;
      var n := frameNum;
      framesDecoded := framesDecoded + 1;
      frameNum := frameNum + 1;
      var accepted := sampler.ShouldProcess(n);
      if accepted {
        Process(a, n, st);
      } else {
        StepSkipped(job, st, a);
      }
    }

    /** The rest of the turn for a frame the sampler accepted. */
    method Process(a: Arrival, n: int, ghost st: RunState)
      requires Valid() && MatchesLater(st) && WellPosed(job) && WellFormed(a.frame)
      requires n == st.frameNum && Running(st.sampler) && Accepts(st.sampler, n)
      requires frameNum == n + 1 && framesDecoded == st.decoded + 1
      requires framesProcessed == st.processed && errors == st.errors && sampler.State() == Asked(st.sampler, n)
      modifies this, sampler, config, tensor, Buffer(), tracker, trajBuilder, eventDet, eventDet.candidates,
        catBuilder, dets
      ensures Valid()
      ensures tensor.data == old(tensor.data) || (tensor.data != null && fresh(tensor.data))
      ensures eventDet.candidates == old(eventDet.candidates) || fresh(eventDet.candidates)
      ensures Matches(StepRun(job, st, a))
    {
      hide WellPosed, Detect, Runs.Absorb, Asked, Noted, Accepts, TensorSize, WellFormed, StepRun, Running;
      dets.items := [];
      var ok := DetectFrame(a, n);
      if ok {
        DetectedSane(job, a, n);
        StepDone(job, st, a);
        Absorb(n, a.frame.timestamp, st);
        sampler.NotifyActivity(|dets.items|);
        framesProcessed := framesProcessed + 1;
      } else {
        errors := errors + 1;
        StepFailed(job, st, a);
      }
    }

    /** After the last frame: builds the catalog and consolidates the events. */
    method Finish(ghost st: RunState) returns (result: PipelineResult)
      requires Valid() && Matches(st)
      modifies eventDet, eventDet.candidates
      ensures result == ResultOf(job, st)
    {
      hide Running, TensorSize, DefaultConfig, TrackerOf, Consolidated, ByFrame, CatalogOf;
      var catalog := catBuilder.Build();
      var events := [];
      if job.profile.trackingEnabled {
        eventDet.Finalize();
        events := eventDet.events;
      }
      result := PipelineResult(framesDecoded, framesProcessed, errors, allDetections, totalDetections,
                               catalog, events, events != []);
    }
  }

  lemma StepSkipped(job: Job, st: RunState, a: Arrival)
    requires WellPosed(job) && WellFormed(a.frame) && Running(st.sampler) && !Accepts(st.sampler, st.frameNum)
    ensures StepRun(job, st, a)
         == st.(frameNum := st.frameNum + 1, decoded := st.decoded + 1, sampler := Asked(st.sampler, st.frameNum))
  {
  }

  lemma StepFailed(job: Job, st: RunState, a: Arrival)
    requires WellPosed(job) && WellFormed(a.frame) && Running(st.sampler) && Accepts(st.sampler, st.frameNum)
    requires Detect(job, a, st.frameNum).None?
    ensures StepRun(job, st, a)
         == st.(frameNum := st.frameNum + 1, decoded := st.decoded + 1, errors := st.errors + 1,
                sampler := Asked(st.sampler, st.frameNum))
  {
    hide Detect;
  }

  /** A processed frame: the later stages see only what they hold, and the counters move. */
  lemma StepDone(job: Job, st: RunState, a: Arrival)
    requires WellPosed(job) && WellFormed(a.frame) && Running(st.sampler) && Accepts(st.sampler, st.frameNum)
    requires Detect(job, a, st.frameNum).Some?
    ensures Sound(job.math)
    ensures var dets := Detect(job, a, st.frameNum).value;
      StepRun(job, st, a)
        == Runs.Absorb(job, st, dets, st.frameNum, a.frame.timestamp).(
             frameNum := st.frameNum + 1, decoded := st.decoded + 1, processed := st.processed + 1, errors := st.errors,
             sampler := Noted(Asked(st.sampler, st.frameNum), |dets|))
  {
    hide Detect, Asked, Noted, FrameCandidates, Followed, Advance, Labelled;
  }

  lemma LabelsKeepClasses(tracks: seq<Track>, config: TrackerConfig, dets: seq<Detection>)
    requires forall d :: d in dets ==> d.classId >= 0
    ensures forall d :: d in Labelled(tracks, config, dets) ==> d.classId >= 0
  {
    var r := Labelled(tracks, config, dets);
    forall d | d in r ensures d.classId >= 0 {
      var i :| 0 <= i < |r| && r[i] == d;
      assert dets[i] in dets && r[i].classId == dets[i].classId;
    }
  }

  lemma DetectedSane(job: Job, a: Arrival, n: int)
    requires WellPosed(job) && WellFormed(a.frame) && Detect(job, a, n).Some?
    ensures forall d :: d in Detect(job, a, n).value ==> Fresh(d, PostOf(job), Stamp(n, a.frame.timestamp))
  {
    hide TensorOf, DetectionsOf, FitOf;
    RatioPositive(OptionsOf(job), a.frame);
    var raw := job.infer(n, TensorOf(OptionsOf(job), a.frame)).value;
    Decoding.DetectionsSane(raw, LayoutOf(job.dim1, job.dim2), PostOf(job), Some(FitOf(OptionsOf(job), a.frame)),
                            Stamp(n, a.frame.timestamp));
  }

  lemma RatioIsPositive(job: Job, f: Frame)
    requires WellPosed(job) && WellFormed(f)
    ensures Letterbox.Usable(OptionsOf(job)) && FitOf(OptionsOf(job), f).ratio > 0.0
  {
    RatioPositive(OptionsOf(job), f);
  }

  /** The run of a job over the frames the decoder delivers before it ends, if the job
      gets under way at all. */
  method PipelineRun(job: Job, launch: Launch, arrivals: seq<Arrival>)
    returns (outcome: RunOutcome, totalTracks: int)
    requires WellPosed(job) && Arrived(arrivals)
    ensures !launch.Launched? ==> outcome == Refused(launch)
    ensures launch.Launched? ==>
      var st := RunOf(job, arrivals, |arrivals|);
      outcome == Completed(ResultOf(job, st)) && totalTracks == |st.tracks|
  {
    hide WellPosed, WellFormed, StepRun, Running;
    if !launch.Launched? {
      return Refused(launch), 0;
    }
    var worker := new Worker(job);
    ghost var st := Initial(job);
    for n := 0 to |arrivals|
      invariant st == RunOf(job, arrivals, n)
      invariant worker.job == job && worker.Valid() && worker.Matches(st)
      invariant fresh(worker) && fresh(worker.sampler) && fresh(worker.config) && fresh(worker.tensor)
        && fresh(worker.dets)
      invariant worker.tensor.data == null || fresh(worker.tensor.data)
      invariant fresh(worker.tracker) && fresh(worker.trajBuilder) && fresh(worker.catBuilder)
      invariant fresh(worker.eventDet) && fresh(worker.eventDet.candidates)
    {
      worker.Step(arrivals[n], st);
      st := StepRun(job, st, arrivals[n]);
    }
    totalTracks := worker.tracker.TotalTracks();
    var result := worker.Finish(st);
    outcome := Completed(result);
  }
}
