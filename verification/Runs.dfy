/** A whole job as a function of what arrives: the state of every stage after each frame,
    and the result at the end. */
module Runs {
  import opened Types
  import opened Letterbox
  import opened Preprocessor
  import opened Decoding
  import opened Sampling
  import opened Tracking
  import opened Trajectories
  import opened Events
  import opened EventAnalysis
  import opened Catalogs

  datatype Profile = Profile(
    policy: Policy,
    interval: int,
    inputWidth: int,
    inputHeight: int,
    confidenceThreshold: real,
    iouThreshold: real,
    trackingEnabled: bool,
    trackMaxAge: int)

  /** A job: its profile, the number of classes, the output shape of the model, and what
      the engine answers to the tensor of each frame, if it does. Each frame is asked
      about once, so an engine with a memory is covered. */
  datatype Job = Job(
    profile: Profile,
    numClasses: int,
    dim1: int,
    dim2: int,
    infer: (int, seq<real>) -> Option<seq<real>>,
    math: Maths)

  /** A decoded frame, and whether preparing it succeeds. */
  datatype Arrival = Arrival(frame: Frame, prepared: bool)

  function PostOf(job: Job): PostConfig
  {
    PostConfig(job.profile.confidenceThreshold, job.profile.iouThreshold, 1000, job.numClasses)
  }

  function TrackerOf(job: Job): TrackerConfig
  {
    TrackerConfig(job.profile.iouThreshold, if job.profile.trackMaxAge > 0 then job.profile.trackMaxAge else 30, 3)
  }

  function OptionsOf(job: Job): Options
  {
    DefaultOptions(job.profile.inputWidth, job.profile.inputHeight)
  }

  ghost predicate WellPosed(job: Job)
  {
    && job.profile.inputWidth > 0 && job.profile.inputHeight > 0
    && Sound(job.math)
    && forall n, t :: job.infer(n, t).Some? ==>
         Readable(job.infer(n, t).value, LayoutOf(job.dim1, job.dim2), PostOf(job))
  }

  /** The detections of one frame, or nothing when it fails. */
  function Detect(job: Job, a: Arrival, n: int): Option<seq<Detection>>
    requires WellPosed(job) && WellFormed(a.frame)
  {
    if !a.prepared then None
    else
      RatioPositive(OptionsOf(job), a.frame);
      match job.infer(n, TensorOf(OptionsOf(job), a.frame))
      case None => None
      case Some(raw) =>
        Some(DetectionsOf(raw, LayoutOf(job.dim1, job.dim2), PostOf(job),
                          Some(FitOf(OptionsOf(job), a.frame)), Stamp(n, a.frame.timestamp)))
  }

  datatype RunState = RunState(
    frameNum: nat,
    sampler: SamplerState,
    decoded: int,
    processed: int,
    errors: int,
    tracks: seq<Track>,
    store: seq<Trajectory>,
    candidates: seq<Candidate>,
    log: seq<Detection>)

  function Initial(job: Job): RunState
  {
    RunState(0, Started(job.profile.policy, job.profile.interval), 0, 0, 0, [], [], [], [])
  }

  function SceneOf(job: Job, store: seq<Trajectory>, n: int, timestamp: real): Scene
  {
    Scene(DefaultConfig(), job.math, store, n, timestamp)
  }

  /** The stages behind detection, for a frame with at least one detection. */
  function Absorb(job: Job, st: RunState, dets: seq<Detection>, n: int, timestamp: real): RunState
    requires Sound(job.math)
  {
    if dets == [] then st
    else if !job.profile.trackingEnabled then st.(log := st.log + dets)
    else
      var named := Labelled(st.tracks, TrackerOf(job), dets);
      var store := Followed(job.math, st.store, named, n, timestamp);
      st.(tracks := Advance(st.tracks, TrackerOf(job), dets),
          store := store,
          candidates := st.candidates + FrameCandidates(SceneOf(job, store, n, timestamp), named),
          log := st.log + named)
  }

  function StepRun(job: Job, st: RunState, a: Arrival): (r: RunState)
    requires WellPosed(job) && WellFormed(a.frame) && Running(st.sampler)
    ensures Running(r.sampler) && r.frameNum == st.frameNum + 1
  {
    var n := st.frameNum;
    var asked := st.(frameNum := n + 1, decoded := st.decoded + 1, sampler := Asked(st.sampler, n));
    if !Accepts(st.sampler, n) then asked
    else
      match Detect(job, a, n)
      case None => asked.(errors := st.errors + 1)
      case Some(dets) =>
        Absorb(job, asked, dets, n, a.frame.timestamp).(
          processed := st.processed + 1,
          sampler := Noted(asked.sampler, |dets|))
  }

  ghost predicate Arrived(arrivals: seq<Arrival>)
  {
    forall i :: 0 <= i < |arrivals| ==> WellFormed(arrivals[i].frame)
  }

  ghost function RunOf(job: Job, arrivals: seq<Arrival>, n: nat): (r: RunState)
    requires WellPosed(job) && Arrived(arrivals) && n <= |arrivals|
    ensures Running(r.sampler) && r.frameNum == n
  {
    if n == 0 then Initial(job) else StepRun(job, RunOf(job, arrivals, n - 1), arrivals[n - 1])
  }

  /** How a job gets under way: the video opens, an engine exists and takes the model. */
  datatype Launch = Launched | NoVideo | NoEngine | NoModel

  datatype RunOutcome = Refused(why: Launch) | Completed(result: PipelineResult)

  datatype PipelineResult = PipelineResult(
    framesDecoded: int,
    framesProcessed: int,
    errors: int,
    allDetections: seq<Detection>,
    totalDetections: int,
    catalog: seq<CatalogEntry>,
    events: seq<AccidentEvent>,
    accidentDetected: bool)

  function EventsOf(job: Job, st: RunState): seq<AccidentEvent>
  {
    if job.profile.trackingEnabled then Consolidated(ByFrame(st.candidates), DefaultConfig().temporalWindow) else []
  }

  function ResultOf(job: Job, st: RunState): PipelineResult
  {
    PipelineResult(st.decoded, st.processed, st.errors, st.log, |st.log|, CatalogOf(st.log),
                   EventsOf(job, st), EventsOf(job, st) != [])
  }
}
