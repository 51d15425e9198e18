/** What a run records, told frame by frame from what the model found in them. */
module RunRecords {
  import opened Types
  import opened Letterbox
  import opened Decoding
  import opened Predictions
  import opened Overlaps
  import Preprocessor
  import opened Sampling
  import opened Tracking
  import opened TrackerRuns
  import opened Catalogs
  import Trajectories
  import opened Events
  import opened EventAnalysis
  import opened Runs
  import opened RunAccounts
  import opened RunTheorems
  import opened RunConfidence
  import opened Pipeline

  // ----- the log -----

  /** Frame n is accepted, prepared and answered by the engine. */
  ghost predicate Taken(job: Job, arrivals: seq<Arrival>, n: nat)
    requires WellPosed(job) && Arrived(arrivals)
  {
    n < |arrivals| && Accepts(RunOf(job, arrivals, n).sampler, n) && Detect(job, arrivals[n], n).Some?
  }

  ghost function FoundIn(job: Job, arrivals: seq<Arrival>, n: nat): seq<Detection>
    requires WellPosed(job) && Arrived(arrivals)
  {
    if Taken(job, arrivals, n) then Detect(job, arrivals[n], n).value else []
  }

  /** The detections of the first n frames, one frame after the other. */
  ghost function Found(job: Job, arrivals: seq<Arrival>, n: nat): seq<Detection>
    requires WellPosed(job) && Arrived(arrivals)
  {
    if n == 0 then [] else Found(job, arrivals, n - 1) + FoundIn(job, arrivals, n - 1)
  }

  function Unnamed(dets: seq<Detection>): (r: seq<Detection>)
    ensures |r| == |dets| && forall i :: 0 <= i < |r| ==> r[i] == dets[i].(trackId := -1)
  {
    seq(|dets|, i requires 0 <= i < |dets| => dets[i].(trackId := -1))
  }

  lemma UnnamedJoin(a: seq<Detection>, b: seq<Detection>)
    ensures Unnamed(a + b) == Unnamed(a) + Unnamed(b)
  {
  }

  lemma LabelsOnlyName(tracks: seq<Track>, config: TrackerConfig, dets: seq<Detection>)
    requires forall d :: d in dets ==> d.trackId == -1
    ensures Unnamed(Labelled(tracks, config, dets)) == dets
  {
    hide MatchAll;
    var r := Unnamed(Labelled(tracks, config, dets));
    forall i | 0 <= i < |dets| ensures r[i] == dets[i] {
      assert dets[i] in dets;
    }
  }

  /** Each detection of a frame carries its number and time and no name, is of a class of
      the model and as confident as the profile asks. */
  lemma FoundSane(job: Job, arrivals: seq<Arrival>, n: nat, d: Detection)
    requires WellPosed(job) && Arrived(arrivals) && d in FoundIn(job, arrivals, n)
    ensures n < |arrivals| && d.frame == n && d.timestamp == arrivals[n].frame.timestamp && d.trackId == -1
    ensures d.confidence >= job.profile.confidenceThreshold
    ensures 0 <= d.classId && (d.classId < job.numClasses || d.classId == 0)
  {
    hide WellPosed, Detect, RunOf;
    DetectedSane(job, arrivals[n], n);
  }

  /** What one frame adds to the log, tracked or not: its detections, under their names when
      tracking is on. */
  lemma LogGrows(job: Job, arrivals: seq<Arrival>, n: nat)
    requires WellPosed(job) && Arrived(arrivals) && n < |arrivals|
    ensures var log, next := RunOf(job, arrivals, n).log, RunOf(job, arrivals, n + 1).log;
      && |log| <= |next| && next[..|log|] == log && Unnamed(next[|log|..]) == FoundIn(job, arrivals, n)
      && (!job.profile.trackingEnabled ==> next[|log|..] == FoundIn(job, arrivals, n))
      && (Judged(job, arrivals, n) ==> next == log + NamedAt(job, arrivals, n))
  {
    hide WellPosed, WellFormed, Detect, StepRun, FrameCandidates, Trajectories.Followed, Advance, Labelled, Asked,
      Noted, Accepts, DefaultConfig;
    var st, a := RunOf(job, arrivals, n), arrivals[n];
    var r, found := RunOf(job, arrivals, n + 1), FoundIn(job, arrivals, n);
    assert r == StepRun(job, st, a);
    forall d | d in found ensures d.trackId == -1 {
      FoundSane(job, arrivals, n, d);
    }
    AddsNothing(st.log);
    if !Accepts(st.sampler, n) {
      StepSkipped(job, st, a);
    } else if Detect(job, a, n).None? {
      StepFailed(job, st, a);
    } else {
      StepDone(job, st, a);
      LabelsOnlyName(st.tracks, TrackerOf(job), found);
      NothingToName(found);
      Adds(st.log, r.log, if job.profile.trackingEnabled && found != [] then
          Labelled(st.tracks, TrackerOf(job), found)
        else found);
    }
  }

  lemma NothingToName(dets: seq<Detection>)
    requires forall d :: d in dets ==> d.trackId == -1
    ensures Unnamed(dets) == dets
  {
    forall i | 0 <= i < |dets| ensures Unnamed(dets)[i] == dets[i] {
      assert dets[i] in dets;
    }
  }

  lemma AddsNothing(log: seq<Detection>)
    ensures log[..|log|] == log && log[|log|..] == [] && Unnamed([]) == []
  {
  }

  lemma Adds(log: seq<Detection>, next: seq<Detection>, added: seq<Detection>)
    requires next == log + added
    ensures next[..|log|] == log && next[|log|..] == added
  {
  }

  /** The log of every run, tracked or not: but for the names it is the detections of
      exactly the frames taken, in the order of the frames. Without tracking there are no
      names. */
  lemma {:induction false} LogIsFound(job: Job, arrivals: seq<Arrival>, n: nat)
    requires WellPosed(job) && Arrived(arrivals) && n <= |arrivals|
    ensures Unnamed(RunOf(job, arrivals, n).log) == Found(job, arrivals, n)
    ensures !job.profile.trackingEnabled ==> RunOf(job, arrivals, n).log == Found(job, arrivals, n)
  {
    hide WellPosed, StepRun, FoundIn, Judged;
    if n > 0 {
      LogIsFound(job, arrivals, n - 1);
      LogGrows(job, arrivals, n - 1);
      var log, next := RunOf(job, arrivals, n - 1).log, RunOf(job, arrivals, n).log;
      assert next == log + next[|log|..];
      UnnamedJoin(log, next[|log|..]);
    }
  }

  // ----- where a detection comes from -----

  lemma {:induction false} FoundWhere(job: Job, arrivals: seq<Arrival>, n: nat, d: Detection)
    requires WellPosed(job) && Arrived(arrivals) && n <= |arrivals| && d in Found(job, arrivals, n)
    ensures 0 <= d.frame < n && Taken(job, arrivals, d.frame) && d in FoundIn(job, arrivals, d.frame)
  {
    hide WellPosed, Detect, RunOf;
    if d in Found(job, arrivals, n - 1) {
      FoundWhere(job, arrivals, n - 1, d);
    } else {
      FoundSane(job, arrivals, n - 1, d);
    }
  }

  lemma FrameApart(job: Job, arrivals: seq<Arrival>, n: nat, p: nat, q: nat)
    requires WellPosed(job) && Arrived(arrivals)
    requires var found := FoundIn(job, arrivals, n); p < q < |found| && found[p].classId == found[q].classId
    ensures var found := FoundIn(job, arrivals, n);
      !ExceedsShare(found[p].bbox, found[q].bbox, job.profile.iouThreshold)
  {
    hide DetectionsOf, ExceedsShare, Preprocessor.TensorOf, FitOf, RunOf, Decoding.Uncapped;
    var a := arrivals[n];
    RatioPositive(OptionsOf(job), a.frame);
    var raw := job.infer(n, Preprocessor.TensorOf(OptionsOf(job), a.frame)).value;
    DetectionsComplete(raw, LayoutOf(job.dim1, job.dim2), PostOf(job), Some(FitOf(OptionsOf(job), a.frame)),
      Stamp(n, a.frame.timestamp));
  }

  /** No run records two detections of one class in one frame that overlap by more than the
      share the profile allows. */
  lemma {:induction false} RecordedApart(job: Job, arrivals: seq<Arrival>, n: nat, p: nat, q: nat)
    requires WellPosed(job) && Arrived(arrivals) && n <= |arrivals|
    requires var found := Found(job, arrivals, n);
      p < q < |found| && found[p].frame == found[q].frame && found[p].classId == found[q].classId
    ensures var found := Found(job, arrivals, n);
      !ExceedsShare(found[p].bbox, found[q].bbox, job.profile.iouThreshold)
  {
    hide WellPosed, FoundIn, ExceedsShare;
    var before, more := Found(job, arrivals, n - 1), FoundIn(job, arrivals, n - 1);
    if q < |before| {
      RecordedApart(job, arrivals, n - 1, p, q);
    } else {
      FoundSane(job, arrivals, n - 1, more[q - |before|]);
      if p >= |before| {
        FrameApart(job, arrivals, n - 1, p - |before|, q - |before|);
      } else {
        EarlierFrame(job, arrivals, n - 1, before[p]);
      }
    }
  }

  lemma {:induction false} EarlierFrame(job: Job, arrivals: seq<Arrival>, n: nat, d: Detection)
    requires WellPosed(job) && Arrived(arrivals) && n <= |arrivals| && d in Found(job, arrivals, n)
    ensures d.frame < n
  {
    hide WellPosed, Found, Taken, FoundIn;
    FoundWhere(job, arrivals, n, d);
  }

  // ----- the result -----

  /** How many of the first n frames are taken. */
  ghost function TakenUpTo(job: Job, arrivals: seq<Arrival>, n: nat): nat
    requires WellPosed(job) && Arrived(arrivals)
  {
    if n == 0 then 0 else TakenUpTo(job, arrivals, n - 1) + if Taken(job, arrivals, n - 1) then 1 else 0
  }

  /** How many of them are accepted but not taken. */
  ghost function LostUpTo(job: Job, arrivals: seq<Arrival>, n: nat): nat
    requires WellPosed(job) && Arrived(arrivals) && n <= |arrivals|
  {
    if n == 0 then 0
    else
      LostUpTo(job, arrivals, n - 1)
      + if Accepts(RunOf(job, arrivals, n - 1).sampler, n - 1) && !Taken(job, arrivals, n - 1) then 1 else 0
  }

  lemma {:induction false} CountsOfRun(job: Job, arrivals: seq<Arrival>, n: nat)
    requires WellPosed(job) && Arrived(arrivals) && n <= |arrivals|
    ensures var st := RunOf(job, arrivals, n);
      st.decoded == n && st.processed == TakenUpTo(job, arrivals, n) && st.errors == LostUpTo(job, arrivals, n)
  {
    hide WellPosed, WellFormed, Detect, StepRun, Runs.Absorb, Asked, Noted, Accepts;
    if n > 0 {
      CountsOfRun(job, arrivals, n - 1);
      var st, a := RunOf(job, arrivals, n - 1), arrivals[n - 1];
      assert RunOf(job, arrivals, n) == StepRun(job, st, a);
      if !Accepts(st.sampler, n - 1) {
        StepSkipped(job, st, a);
      } else if Detect(job, a, n - 1).None? {
        StepFailed(job, st, a);
      } else {
        StepDone(job, st, a);
      }
    }
  }

  /** The result of every run: its detections are those of the frames taken, it counts all
      of them, the catalog adds up to them, and frames are counted as they fared. Without
      tracking nothing is named, no object counts as unique and there are no events. */
  lemma {:induction false} ResultRecords(job: Job, arrivals: seq<Arrival>)
    requires WellPosed(job) && Arrived(arrivals)
    ensures var n := |arrivals|;
      var result, found := ResultOf(job, RunOf(job, arrivals, n)), Found(job, arrivals, n);
      && Unnamed(result.allDetections) == found
      && result.totalDetections == |found| == SumTotals(result.catalog)
      && result.framesDecoded == n && result.framesProcessed == TakenUpTo(job, arrivals, n)
      && result.errors == LostUpTo(job, arrivals, n)
      && (result.accidentDetected <==> result.events != [])
      && (!job.profile.trackingEnabled ==>
            result.allDetections == found && SumUnique(result.catalog) == 0 && result.events == [])
  {
    hide WellPosed, RunOf, Found, CatalogOf, SumTotals, SumUnique, Consolidated, ByFrame;
    var n := |arrivals|;
    var log := RunOf(job, arrivals, n).log;
    LogIsFound(job, arrivals, n);
    CountsOfRun(job, arrivals, n);
    forall d | d in log ensures d.classId >= 0 {
      var i :| 0 <= i < |log| && log[i] == d;
      KnownClass(job, arrivals, n, Unnamed(log)[i]);
    }
    TotalsAddUp(log);
    if !job.profile.trackingEnabled {
      forall d | d in log ensures d.trackId == -1 {
        KnownClass(job, arrivals, n, d);
      }
      NoNamesNoTracks(log);
    }
  }

  lemma {:induction false} KnownClass(job: Job, arrivals: seq<Arrival>, n: nat, d: Detection)
    requires WellPosed(job) && Arrived(arrivals) && n <= |arrivals| && d in Found(job, arrivals, n)
    ensures d.classId >= 0 && d.trackId == -1
  {
    hide WellPosed, Found, Taken, FoundIn;
    FoundWhere(job, arrivals, n, d);
    FoundSane(job, arrivals, d.frame, d);
  }

  lemma NoNamesNoTracks(log: seq<Detection>)
    requires forall d :: d in log ==> d.classId >= 0 && d.trackId == -1
    ensures SumUnique(CatalogOf(log)) == 0
  {
    UniqueAddUp(log);
    assert (set d | d in log && d.trackId > 0 :: d.trackId) == {};
  }

  // ----- names and lifetimes -----

  /** A frame in which nothing is found leaves tracks, trajectories, candidates and log as
      they were. */
  lemma NothingFound(job: Job, arrivals: seq<Arrival>, n: nat)
    requires WellPosed(job) && Arrived(arrivals) && n < |arrivals| && FoundIn(job, arrivals, n) == []
    ensures var st, r := RunOf(job, arrivals, n), RunOf(job, arrivals, n + 1);
      r.tracks == st.tracks && r.store == st.store && r.candidates == st.candidates && r.log == st.log
  {
    hide WellPosed, WellFormed, Detect, StepRun, FrameCandidates, Trajectories.Followed, Advance, Labelled, Asked,
      Noted, Accepts;
    var st, a := RunOf(job, arrivals, n), arrivals[n];
    assert RunOf(job, arrivals, n + 1) == StepRun(job, st, a);
    if !Accepts(st.sampler, n) {
      StepSkipped(job, st, a);
    } else if Detect(job, a, n).None? {
      StepFailed(job, st, a);
    } else {
      StepDone(job, st, a);
    }
  }

  /** A live track of the detection's class whose last box overlaps it by more than the
      share. */
  ghost predicate Claims(t: Track, d: Detection, share: real)
  {
    t.active && t.classId == d.classId && ExceedsShare(t.bbox, d.bbox, share)
  }

  /** The name a detection leaves with: that of a live track of its class whose last box it
      overlaps by more than the profile's share, or a new one, and then every live track of
      its class that it overlaps by as much has given its name to another detection. */
  lemma {:induction false} NamesFollowOverlap(job: Job, arrivals: seq<Arrival>, n: nat, i: nat)
    requires WellPosed(job) && Arrived(arrivals) && Judged(job, arrivals, n) && i < |NamedAt(job, arrivals, n)|
    ensures var tracks, named := RunOf(job, arrivals, n).tracks, NamedAt(job, arrivals, n);
      var d, share := named[i], job.profile.iouThreshold;
      && d.trackId > 0
      && if d.trackId <= |tracks| then
           tracks[d.trackId - 1].trackId == d.trackId && Claims(tracks[d.trackId - 1], d, share)
         else
           forall t :: t in tracks && Claims(t, d, share) ==>
             exists j :: 0 <= j < |named| && j != i && named[j].trackId == t.trackId
  {
    hide WellPosed, RunOf, Detect, Labelled, Agree, ExceedsShare, Tracking.Matches, MatchAll;
    RunHolds(job, arrivals, n);
    var st, config, dets := RunOf(job, arrivals, n), TrackerOf(job), Detect(job, arrivals[n], n).value;
    AgreeNumbered(st.tracks, st.store, st.log, st.frameNum);
    NamesOfUpdate(st.tracks, config, dets, i);
  }

  lemma NamesOfUpdate(tracks: seq<Track>, config: TrackerConfig, dets: seq<Detection>, i: nat)
    requires Numbered(tracks) && i < |dets|
    ensures var named := Labelled(tracks, config, dets);
      var d, share := named[i], config.iouThreshold;
      && d.trackId > 0
      && if d.trackId <= |tracks| then
           tracks[d.trackId - 1].trackId == d.trackId && Claims(tracks[d.trackId - 1], d, share)
         else
           forall t :: t in tracks && Claims(t, d, share) ==>
             exists j :: 0 <= j < |named| && j != i && named[j].trackId == t.trackId
  {
    hide Labelled, ExceedsShare, Tracking.Matches;
    var m, named := MatchAll(tracks, config, dets), Labelled(tracks, config, dets);
    IdsOfFrame(tracks, config, dets, i);
    MatchingByAreas(tracks, dets, config.iouThreshold);
    LiveMatch(tracks, config, dets, i);
    if m[i] < 0 {
      forall t | t in tracks && Claims(t, named[i], config.iouThreshold)
        ensures exists j :: 0 <= j < |named| && j != i && named[j].trackId == t.trackId
      {
        var k :| 0 <= k < |tracks| && tracks[k] == t;
        assert k in m;
        var j :| 0 <= j < |m| && m[j] == k;
        IdsOfFrame(tracks, config, dets, j);
      }
    }
  }

  /** A live track of any run has missed no more updates than the profile allows, or 30 when
      it does not say. */
  lemma {:induction false} LiveTracksAreFresh(job: Job, arrivals: seq<Arrival>, n: nat, t: Track)
    requires WellPosed(job) && Arrived(arrivals) && n <= |arrivals| && t in RunOf(job, arrivals, n).tracks && t.active
    ensures 0 <= t.age <= if job.profile.trackMaxAge > 0 then job.profile.trackMaxAge else 30
  {
    hide WellPosed, RunOf, Agree, Settled, CandidatesSound;
    RunHolds(job, arrivals, n);
  }

  lemma MatchedGivesName(tracks: seq<Track>, config: TrackerConfig, dets: seq<Detection>, k: nat)
    requires Numbered(tracks) && k < |tracks|
    ensures k in MatchAll(tracks, config, dets) ==>
      exists d :: d in Labelled(tracks, config, dets) && d.trackId == k + 1
  {
    hide Labelled, MatchAll;
    var m := MatchAll(tracks, config, dets);
    if k in m {
      var j :| 0 <= j < |m| && m[j] == k;
      IdsOfFrame(tracks, config, dets, j);
      assert Labelled(tracks, config, dets)[j] in Labelled(tracks, config, dets);
    }
  }

  /** A live track whose name no detection of a frame takes has missed one update more
      afterwards, and stays live exactly while that is within the limit. */
  lemma UnseenTracksAge(job: Job, arrivals: seq<Arrival>, n: nat, k: nat)
    requires WellPosed(job) && Arrived(arrivals) && Judged(job, arrivals, n)
    requires k < |RunOf(job, arrivals, n).tracks| && RunOf(job, arrivals, n).tracks[k].active
    requires forall d :: d in NamedAt(job, arrivals, n) ==> d.trackId != k + 1
    ensures n < |arrivals| && k < |RunOf(job, arrivals, n + 1).tracks|
    ensures var t, r := RunOf(job, arrivals, n).tracks[k], RunOf(job, arrivals, n + 1).tracks[k];
      r.age == t.age + 1 && (r.active <==> r.age <= if job.profile.trackMaxAge > 0 then job.profile.trackMaxAge else 30)
  {
    hide WellPosed, WellFormed, RunOf, Detect, StepRun, Labelled, Agree, Advance, MatchAll, FrameCandidates, Asked,
      Noted, Accepts, Trajectories.Followed;
    RunHolds(job, arrivals, n);
    var st, config, dets := RunOf(job, arrivals, n), TrackerOf(job), Detect(job, arrivals[n], n).value;
    AgreeNumbered(st.tracks, st.store, st.log, st.frameNum);
    RunStepIs(job, arrivals, n);
    StepDone(job, st, arrivals[n]);
    MatchedGivesName(st.tracks, config, dets, k);
    OldTrackAfter(st.tracks, config, dets, k);
  }

  lemma RunStepIs(job: Job, arrivals: seq<Arrival>, n: nat)
    requires WellPosed(job) && Arrived(arrivals) && n < |arrivals|
    ensures Running(RunOf(job, arrivals, n).sampler) && RunOf(job, arrivals, n).frameNum == n
    ensures RunOf(job, arrivals, n + 1) == StepRun(job, RunOf(job, arrivals, n), arrivals[n])
  {
    hide StepRun;
  }

  /** Unless more than a thousand predictions of a frame pass, none that passes is lost: it
      is found, or overlaps one found of its class and at least as confident by more than
      the profile's share. */
  lemma {:induction false} FrameComplete(job: Job, arrivals: seq<Arrival>, n: nat, raw: seq<real>, i: int, d: Detection)
    requires WellPosed(job) && Arrived(arrivals) && Taken(job, arrivals, n)
    requires var o := DefaultOptions(job.profile.inputWidth, job.profile.inputHeight);
      Letterbox.Usable(o) && job.infer(n, Preprocessor.TensorOf(o, arrivals[n].frame)) == Some(raw)
    requires var l, a := LayoutOf(job.dim1, job.dim2), arrivals[n];
      var fit := FitOf(DefaultOptions(job.profile.inputWidth, job.profile.inputHeight), a.frame);
      && fit.ratio != 0.0
      && |Decoding.Uncapped(raw, l, PostOf(job), Some(fit), Stamp(n, a.frame.timestamp), l.numPreds)| <= 1000
      && Passes(raw, l, PostOf(job), Some(fit), Stamp(n, a.frame.timestamp), i, d)
    ensures var found := FoundIn(job, arrivals, n);
      d in found || exists k :: k in found && k.classId == d.classId && k.confidence >= d.confidence
                                && ExceedsShare(k.bbox, d.bbox, job.profile.iouThreshold)
  {
    hide DetectionsOf, ExceedsShare, Preprocessor.TensorOf, FitOf, RunOf, Decoding.Uncapped, Passes;
    var a := arrivals[n];
    RatioPositive(OptionsOf(job), a.frame);
    DetectionsComplete(raw, LayoutOf(job.dim1, job.dim2), PostOf(job), Some(FitOf(OptionsOf(job), a.frame)),
      Stamp(n, a.frame.timestamp));
  }
}
