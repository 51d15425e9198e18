# Verification of the detection, tracking and event pipeline

A Dafny model of the stages behind the video decoder: sampling, letterbox preprocessing,
decoding of the model's raw output with non-maximum suppression, the greedy overlap
tracker, trajectories, candidate events and their consolidation, the catalog, and the main
loop that drives them; beside these, the ranking of runs and the block pool.
`dafny verify dfyconfig.toml` checks all of it.

## How the model is built

Every stage exists twice: as an imperative method or class that takes the branches and
loops of the C code, and as a function the method is proved to compute. What the stage
promises is then proved about the function, so it holds of the method. Each module covers
one source file or one theme of it (`Tracking` holds the functions, `TrackerModule` the
tracker object, `TrackerRuns` what every sequence of calls keeps).

- In-place algorithms stay in place on arrays: the two sorts, the suppression flags, the
  `used` flags of the consolidation, the candidate buffers, the tensor, the pool's free
  stack. The candidate array of the event detector grows as the code grows it.
- Lists that the code keeps in growable heap arrays of records (tracks, trajectories and
  their points, events, class accumulators, detection lists) are fields of type `seq` that
  methods reassign.
- `float` and `double` are `real`. Square root and arc tangent are parameters of type
  `Maths`; `Sound` says the root is non-negative and squares back and
  that the arc tangent lies within half a turn. The inference engine is
  a function from frame number and tensor to an optional output, which covers an engine
  with a memory; the decoder is the sequence of frames it delivers.
- The whole run is the state machine of `Runs`; `Pipeline.PipelineRun` is the loop over real
  objects and is proved to return exactly what that machine says, and `RunTheorems` proves
  what holds of every run.
- A definition is not left to speak for itself. What overlap, a decoded prediction, a cell of
  the tensor, an event of a frame, a score or the record of a run are is stated a second time
  from boxes, raw entries, pixels, points and frames, without the function that computes it:
  `Overlaps`, `Predictions`, `PictureCells`, `EventCriteria`, `ScoreMeanings`, `RunRecords` and
  `RunReports`.
- Lemmas about recursive definitions switch automatic induction off: each proof is its own.

## What the code does that a reader might not expect

- The consolidation key is the ordered pair of tracks: (a, b) and (b, a) form different
  groups. Detections come in order of confidence, so one collision can be reported both ways
  round: `StoppedCollision.SeenBothWays` is a run in which it then has no event at all.
  `RunTheorems.PairWithoutEventIff` says exactly when that happens, and
  `EventPairs.SameGroupsIff` when unordered pairs would form the same groups.
- `event_detector_finalize` appends to the events it already holds. The results about a
  list of events are about one call on a fresh or reset detector, which is how the pipeline
  calls it.
- The selection sort is not stable. Suppression per class therefore need not agree with
  suppression of that class alone; `NmsBystanders.TiedBoxes` is an input. For a given list,
  reordering it (`NmsTies.OrderFreeIffQuiet`) and mixing in other classes
  (`NmsBystanders.AloneSufficesIffQuiet`) leave its survivors alone exactly when, of any two
  different candidates in it that tie in confidence and overlap above the threshold, one is
  beaten by a survivor of the strictly more confident candidates. For all lists drawn from a set the condition
  is that the set holds no such two candidates at all (`OrderFreeIffNoRivals`,
  `AloneSufficesIffNoRivals`).
- A confidence can exceed one, by the stop bonus: `StoppedCollision.ConfidenceMayExceedOne`
  is a run of four frames with an event of 1.2, the largest value there is under the default
  weights. In a run it happens exactly as `RunConfidence.ConfidenceAboveOneIff` says.
- A stopped vehicle scores one half whatever it did (one, should the window be zero) and is
  not compared with the threshold; `ParkedVehicles.BelowThreshold` is a run with such an
  event.
- Under the default weights a near miss scores at most 0.55, which is also the threshold. In
  exact arithmetic one is therefore reported only when the centres of the two vehicles
  coincide, one of them goes at 200 pixels a second and their headings are opposite
  (`RunReports.NearMissOfRunIff`), although the distance allowed is 15 pixels.
- The image sampler skips every point without a neighbour to the right and below, so the
  last row and column of a frame as large as the canvas keep the pad value
  (`Letterbox.SameSizeCopies`), and the clamps in the sampler never take effect.
- The cap on candidates keeps the first predictions that pass, not the most confident
  (`Decoding.BestIsLost`); it loses none exactly when `Decoding.CapLosesNoneIff` says.
- After two empty frames the adaptive sampler takes twice its interval but at most 30, so with
  an interval above 30 quiet footage is sampled more often, not less as the comment in
  `core/pipeline/frame_sampler.c:54-55` has it (`Sampling.ActivityAdapts` says exactly when).
- A track's age counts calls to the tracker, and the pipeline makes none for a frame without
  detections; `min_hits` is never read.
- Distance is recomputed from positions while speed is only set when the clock advanced, so
  the two agree exactly when every step that moved the object also advanced the clock
  (`Trajectories.DistanceAgreesWithSpeed`; `MovesWithoutTime` is a step where they do not).
- The catalog's first and last times start from the largest double and from -1, so a reported
  last time is the true one exactly when that is at least -1 (`Catalogs.SeenTimesTrue`;
  `SeenBeforeMinusOne` is a class for which it is not).
- The baseline of a comparison is whichever run the sort has put at the requested index
  (`Comparison.BaselineMoves` is an input, `Comparison.BaselineIsNamedIff` the condition).

## Model

| member | source | states |
|---|---|---|
| `RunTheorems.IdentitiesAgree` | core/pipeline/pipeline.c:213-240 | After any run with tracking, trajectories, tracks and the catalog's unique objects are equally many; the points of trajectory k are, in order and in strictly rising frames, the frame, time, centre and size of the detections logged for track k + 1, one for each of its hits; lengths, hits and catalog totals all equal the detections recorded |
| `RunTheorems.UniqueTracksByClass` | core/pipeline/pipeline.c:236-261 | Each class in the catalog of a run with tracking has as many unique objects as the tracker has tracks of that class |
| `RunTheorems.CollisionsAreReal` | core/pipeline/pipeline.c:223-271 | In every run each collision event involves two different positive track ids and starts strictly before it ends |
| `RunTheorems.CollisionOfRunIff` | core/pipeline/pipeline.c:223-271 | A run has a collision event of a with b, in this order, exactly when two different frames at most 10 apart reported that ordered pair |
| `RunTheorems.PairWithoutEventIff` | core/pipeline/pipeline.c:223-271 | Two objects go without a collision event, whichever is named first, exactly when no two reports of one orientation come from frames 1 to 10 apart |
| `RunTheorems.ConfidencesMeetThreshold` | core/pipeline/pipeline.c:227-271 | In every run each event has a confidence of at least 0.55, except those for stopped vehicles, which score one half, and none exceeds 1.2 |
| `RunReports.CollisionIffTwoCrashes` | core/pipeline/pipeline.c:223-271 | A run has a collision event of a with b, in this order, exactly when in two different frames at most 10 apart detections of these names are vehicles seen three times that overlap by 0.01 or stand within two and a half smallest sides, one of them at no more than 70 per cent of its average speed, one of them having travelled more than 30 pixels, and the weighted sum, written out, makes 55 out of 100 |
| `RunReports.ReportedIffCrash` | core/pipeline/pipeline.c:227-230 | A frame of a run leaves a collision candidate of an ordered pair exactly when the pair meets these conditions in it |
| `RunReports.CrashByDefault` | core/pipeline/event_detector.c:61-77 | Under the default configuration the conditions are these numbers |
| `RunReports.FramesOfRun` | core/pipeline/event_detector.c:226-229 | Every candidate of a run carries the number and the time of one of its frames |
| `RunReports.NearMissOfRunIff` | core/pipeline/event_detector.c:246-270 | A frame of a run reports a near miss of an ordered pair exactly when two vehicles seen three times have coinciding centres, overlap below 0.01, opposite headings, and one of them goes at 200 pixels a second or more |
| `RunRecords.ResultRecords` | core/pipeline/pipeline.c:232-284 | Of every run, tracked or not: the detections in the result are, names aside, those of exactly the frames taken, in frame order; their number is the total and the sum of the catalog; frames processed and errors count the frames taken and lost; an accident is flagged exactly when there is an event; without tracking nothing is named, no object is unique and there is no event |
| `RunRecords.LogIsFound` | core/pipeline/pipeline.c:235-240 | After every prefix of every run the log, names aside, is what the model found in exactly the frames that were accepted and did not fail, frame after frame; without tracking it is that list itself |
| `RunRecords.LogGrows` | core/pipeline/pipeline.c:235-240 | One frame adds to the log exactly its detections, under the names the tracker gave them when tracking is on |
| `RunRecords.FoundSane` | core/pipeline/pipeline.c:204-211 | Every detection of a frame carries the number and time of that frame, is unnamed, of a class of the model, and reaches the confidence threshold of the profile |
| `RunRecords.RecordedApart` | core/pipeline/pipeline.c:204-211 | No run records two detections of one class in one frame whose overlap exceeds the profile's share of the area they cover together |
| `RunRecords.FrameComplete` | core/pipeline/pipeline.c:180-211 | Unless more than a thousand predictions of a frame pass, each one that passes is found, or overlaps one found of its class and at least as confident by more than the profile's share |
| `RunRecords.CountsOfRun` | core/pipeline/pipeline.c:172-242 | Frames decoded, processed and failed are counted each as it fared |
| `RunRecords.NothingFound` | core/pipeline/pipeline.c:213-240 | A frame in which nothing is found leaves tracks, trajectories, candidates and log as they were |
| `RunRecords.NamesFollowOverlap` | core/pipeline/pipeline.c:213-220 | In every run a detection leaves with the name of a live track of its class whose last box it overlaps by more than the profile's share; with a new name only if every such track gave its name to another detection of the frame |
| `RunRecords.UnseenTracksAge` | core/pipeline/pipeline.c:124-132 | In every run a live track whose name nobody takes in a frame with detections counts one update more and stays live exactly while the count is within the profile's limit, or 30 when it sets none |
| `RunRecords.LiveTracksAreFresh` | core/pipeline/pipeline.c:124-132 | No live track of any run is beyond that limit |
| `RunConfidence.ConfidenceAboveOneIff` | core/pipeline/pipeline.c:223-271 | An event of a run has a confidence above one exactly when it is a collision in one of whose frames its two vehicles were reported with one of them nearly stopped and a weighted part of the score above 0.8; a run without a nearly stopped vehicle has none |
| `RunConfidence.CameFrom` | core/pipeline/pipeline.c:227-230 | Every candidate of a run was put there by a frame that was accepted, inferred and not empty, judged against the store that already held its own sights |
| `RunConfidence.StaysIn` | core/pipeline/pipeline.c:227-230 | Every candidate of such a frame is among the candidates of the run from then on |
| `StoppedCollision.ConfidenceMayExceedOne` | core/pipeline/pipeline.c:162-271 | A run over four frames whose raw outputs show a car that stops and a truck that passes it reports a collision with a confidence of 1.2 |
| `StoppedCollision.SeenBothWays` | core/pipeline/event_detector.c:410-434 | The same run with the two vehicles listed the other way round in the last frame reports the collision in both frames, once each way round, and has no collision event |
| `StoppedCollision.Reported` | core/pipeline/event_detector.c:194-244 | In the third and fourth of these frames the pair is a collision candidate naming the vehicles as listed, of score 1.2 where both boxes coincide |
| `ParkedVehicles.BelowThreshold` | core/pipeline/event_detector.c:301-336 | A run over 120 frames of standing vehicles reports a stopped vehicle with a confidence of one half, below the threshold of 0.55 |
| `Drives.Detected` | core/pipeline/pipeline.c:180-211 | Preprocessing with a letterbox of half the size between two margins, the raw output of a frame of these runs, decoding and suppression give the two vehicles in source pixels, in the order listed |
| `Drives.RunIsFed` | core/pipeline/pipeline.c:162-255 | These runs take tracks, trajectories, candidates and log where their detections take them |
| `RunTheorems.EventsIgnoreOrder` | core/pipeline/pipeline.c:263-271 | The events of a run are those of any reordering of the candidates it recorded, up to the order of the list |
| `RunTheorems.EventsOfRunApart` | core/pipeline/pipeline.c:263-271 | Of two events of a run with one type and the same objects the later starts more than 10 frames after the earlier ended |
| `RunTheorems.MotionConsistent` | core/pipeline/pipeline.c:223-226 | With a rising decoder clock every trajectory seen twice has a distance that is the integral of its stored speed, bounded by top speed times elapsed time, and an average not above the top speed |
| `RunTheorems.FramesConserved` | core/pipeline/pipeline.c:162-255 | After every prefix of every run, frames decoded are frames processed plus frames the sampler skipped plus errors, and the sampler's own two counts add up to the frames decoded |
| `RunTheorems.AdaptiveRunGap` | core/pipeline/pipeline.c:174-233 | In an adaptive run every stretch of max(I, min(2I, 30)) frames holds an accepted one, whatever is detected and whichever frames fail |
| `RunTheorems.FirstFrameOfRun` | core/pipeline/pipeline.c:174-178 | Every run that has a frame accepts its first one |
| `RunTheorems.RunHolds` | core/pipeline/pipeline.c:162-255 | After every prefix of every run with tracking, table, store, candidates and log agree and every stored speed, velocity and figure is that of its points; without tracking the three tracking stages stay empty (the log of either kind of run is told by `RunRecords.LogIsFound`) |
| `RunTheorems.StepHolds` | core/pipeline/pipeline.c:162-255 | One turn of the loop, whichever of its branches it takes, keeps that joint invariant |
| `RunTheorems.SamplerOfRun` | core/pipeline/pipeline.c:174-233 | The sampler inside a run goes through the states that the outcomes of the frames dictate |
| `RunAccounts.FrameAgrees` | core/pipeline/pipeline.c:213-240 | One tracked frame keeps store, track table and log in agreement: counts, classes, frames, and the contents of every point |
| `RunAccounts.StoreFollowsTable` | core/pipeline/pipeline.c:213-226 | Feeding the named detections of a frame to the store extends exactly the trajectories of matched tracks and opens one per new track, at the positions their ids name, and each new point is the sight of the detection named after that track |
| `RunAccounts.SightsRecorded` | core/pipeline/trajectory_builder.c:62-95 | The detections of a frame append their frame, time, centre and size each to their own track, in order, and to no other |
| `RunAccounts.ClassCountsTracks` | core/pipeline/catalog_builder.c:81-89 | Class by class the catalog counts exactly the tracks of that class |
| `RunAccounts.CatalogCountsTracks` | core/pipeline/pipeline.c:236-240 | Stores in agreement have a catalog whose unique counts add up to the number of tracks |
| `RunAccounts.PointsAreHits` | core/pipeline/pipeline.c:213-226 | Trajectories as long as their tracks' hits add up to the same total |
| `Pipeline.PipelineRun` | core/pipeline/pipeline.c:34-314 | A job that does not get under way is refused with the reason; otherwise the loop over the real stage objects returns, for every job, every answer of the engine and every sequence of frames, the result of the state machine of the run, which `RunRecords.ResultRecords` and `RunReports.CollisionIffTwoCrashes` tell from the frames, and as many tracks as its table has |
| `Pipeline.Worker.constructor` | core/pipeline/pipeline.c:63-160 | All stages start fresh and in step with the initial state of the run |
| `Pipeline.Worker.Step` | core/pipeline/pipeline.c:162-178 | One turn takes the stage objects from one state of the run to the next, skipped frames included |
| `Pipeline.Worker.Process` | core/pipeline/pipeline.c:180-255 | An accepted frame fails or is taken in, leaving the stages in the next state of the run |
| `Pipeline.Worker.DetectFrame` | core/pipeline/pipeline.c:180-211 | A frame fails exactly when preprocessing or inference does; otherwise the list holds the frame's detections in source pixels |
| `Pipeline.Worker.Follow` | core/pipeline/pipeline.c:213-230 | The tracker names the detections, the store follows the names, and the detector judges the frame against the store it has just updated |
| `Pipeline.Worker.Absorb` | core/pipeline/pipeline.c:213-240 | A frame without detections leaves tracker, store, candidates and log as they were; the detections of any other are logged and counted whether or not tracking is on, and with tracking go through tracker, store and detector first (`RunRecords.LogGrows`) |
| `Pipeline.Worker.Finish` | core/pipeline/pipeline.c:257-284 | After the last frame the catalog and the consolidated events are those of the final state |
| `Events.GroupsAreComponents` | core/pipeline/event_detector.c:368-434 | Two candidates share a group exactly when a chain of candidates with the same type and ordered pair of tracks, successive gaps at most the window, joins them |
| `Events.GroupsApart` | core/pipeline/event_detector.c:405-430 | Two groups of one key lie wholly apart in time, by more than the window |
| `EventAggregation.EventsApart` | core/pipeline/event_detector.c:405-466 | Of two events in the list with one type and the same objects the later starts more than the window after the earlier ended |
| `Events.CloseSharesRoot` | core/pipeline/event_detector.c:405-430 | Two candidates of one key within the window share a group whatever lies between them |
| `Events.GroupContiguous` | core/pipeline/event_detector.c:405-430 | A group holds every candidate of its key between two of its members |
| `Events.GroupSizesAddUp` | core/pipeline/event_detector.c:380-430 | The sizes of the groups add up to the number of candidates |
| `Events.EveryCandidateAccounted` | core/pipeline/event_detector.c:432-466 | Every candidate's group has its event, unless the group is a collision seen once, which has none |
| `Events.EventsCome` | core/pipeline/event_detector.c:432-466 | The events are exactly those of the confirmed groups |
| `Events.ByFrameSorts` | core/pipeline/event_detector.c:368-377 | The exchange sort yields a permutation in frame order |
| `Events.MembersAre` | core/pipeline/event_detector.c:405-430 | The members collected for a seed are exactly the candidates whose chain leads back to it |
| `Events.SeedIsFirst` | core/pipeline/event_detector.c:385-398 | The seed is the first member of its own group |
| `EventOrder.ConsolidationIgnoresOrder` | core/pipeline/event_detector.c:365-477 | Recording the same candidates in any other order yields the same multiset of events, for every window, when time is a function of the frame |
| `EventOrder.GroupByValue` | core/pipeline/event_detector.c:405-430 | A group is determined by its key and its first frame, both readable off the unordered set of candidates |
| `EventOrder.SeedFrame` | core/pipeline/event_detector.c:385-391 | The frame of a seed is reached by stepping down the frames of its key while the next is within the window |
| `EventOrder.EventsByValue` | core/pipeline/event_detector.c:382-472 | The events are those of the distinct group names, in order of their seeds |
| `EventOrder.NothingMerges` | core/pipeline/event_detector.c:413-413 | With a negative window every candidate stands alone |
| `EventPairs.SameGroupsIff` | core/pipeline/event_detector.c:410-413 | Grouping by the unordered pair would form the same groups exactly when no pair is reported both ways round within the window |
| `EventPairs.SameEventsOneWay` | core/pipeline/event_detector.c:410-464 | Then the events would be the same too, up to the order in which they name two objects |
| `EventAggregation.EventIsExact` | core/pipeline/event_detector.c:387-464 | An event spans its group's first to last frame with their times, has the largest score as confidence, the smallest box around all regions, and group means as component scores |
| `EventAggregation.ScoresBetweenExtremes` | core/pipeline/event_detector.c:450-453 | Each component score lies between any bounds on that component in the group |
| `EventAggregation.GatherSummarises` | core/pipeline/event_detector.c:387-428 | The running state of a group is its extremes, sums, size and last frame |
| `EventAggregation.HullIsSmallestBox` | core/pipeline/event_detector.c:425-428 | The running corners give the smallest box containing every region of the group |
| `EventDetection.EventDetector.Finalize` | core/pipeline/event_detector.c:365-477 | Sorts the candidates in place and appends the events of their groups |
| `EventDetection.EventDetector.AppendEvents` | core/pipeline/event_detector.c:379-472 | The nested loops over used flags append one event per confirmed group, in order of the seeds |
| `EventDetection.EventDetector.Collect` | core/pipeline/event_detector.c:385-430 | From an unused seed the inner loop gathers exactly the seed's group and marks exactly its members |
| `EventDetection.EventDetector.Absorb` | core/pipeline/event_detector.c:415-428 | One more member updates end, maximum, sums, count and corners |
| `EventDetection.JoinsIff` | core/pipeline/event_detector.c:410-413 | The test against the moving end frame admits a candidate exactly when it belongs to the seed's component |
| `EventDetection.EventDetector.constructor` | core/pipeline/event_detector.c:99-108 | A fresh detector has no candidates and no events |
| `EventDetection.EventDetector.AddCandidate` | core/pipeline/event_detector.c:110-117 | The candidate is appended, across every doubling of the array |
| `EventDetection.EventDetector.Analyze` | core/pipeline/event_detector.c:150-339 | A frame appends, in order, the candidates of its pairs, its brakings and its stopped vehicles; nothing when disabled. Which these are is told from boxes and points by `EventCriteria.CollisionIff`, `NearMissIff`, `BrakingIff` and `StoppedIff` |
| `EventDetection.EventDetector.AnalyzePairs` | core/pipeline/event_detector.c:171-271 | One vehicle is paired with each later one, a collision before a near miss; either is reported exactly as `EventCriteria.CollisionIff` and `NearMissIff` say |
| `EventDetection.EventDetector.AnalyzeStopped` | core/pipeline/event_detector.c:301-336 | The scan of the latest points reports a vehicle exactly when all are slow and the last is of this frame |
| `EventDetection.EventDetector.Reset` | core/pipeline/event_detector.c:578-583 | A reset detector is as a fresh one |
| `ConfirmedCollisions.CollisionSpansTime` | core/pipeline/event_detector.c:432-434 | If no frame reported an ordered pair twice, a confirmed collision starts strictly before it ends and involves two different positive ids |
| `ConfirmedCollisions.CollisionEventIff` | core/pipeline/event_detector.c:405-466 | A collision event of an ordered pair comes out exactly when two collision candidates of that ordered pair lie within the window of each other |
| `EventAnalysis.FrameSane` | core/pipeline/event_detector.c:150-339 | A frame with distinct names reports each ordered pair colliding at most once, as two different named detections, and all but stopped vehicles reach the threshold |
| `EventAnalysis.RowSane` | core/pipeline/event_detector.c:171-271 | The pairs of one vehicle name that vehicle first and a later detection second, no pair twice |
| `EventAnalysis.VehiclesSane` | core/pipeline/event_detector.c:160-299 | Over a whole frame each collision candidate comes from two positions in order, and no two clash |
| `EventAnalysis.VerdictSymmetric` | core/pipeline/event_detector.c:160-271 | Meeting two vehicles in the other order gives the same collision and near-miss verdicts with the same figures; only which is named first changes |
| `EventAnalysis.PairSane` | core/pipeline/event_detector.c:171-271 | A pair yields no two clashing candidates, names its first vehicle first, reaches the threshold, and with non-negative weights scores at most the larger of one and the sum of the weights plus the stop bonus |
| `EventAnalysis.NearMissScoreBound` | core/pipeline/event_detector.c:247-256 | A near-miss score is at most the sum of the weights |
| `EventAnalysis.StoppedSane` | core/pipeline/event_detector.c:301-336 | A trajectory yields at most one stopped-vehicle candidate, of score one half, or one when the window is zero |
| `EventAnalysis.CollisionScoreBound` | core/pipeline/event_detector.c:216-223 | With non-negative weights a collision score is at most their sum plus the stop bonus |
| `EventAnalysis.CollisionAboveOneIff` | core/pipeline/event_detector.c:216-223 | With weights that sum to one a collision score exceeds one exactly when a vehicle has nearly stopped and the weighted part exceeds 0.8 |
| `EventAnalysis.PresetWeights` | core/pipeline/event_detector.c:61-95 | Both presets have non-negative weights that sum to one |
| `EventAnalysis.FrameCollisions` | core/pipeline/event_detector.c:160-244 | Every collision candidate of a frame is that of two of its detections, in order |
| `EventAnalysis.CollisionReported` | core/pipeline/event_detector.c:160-244 | Every pair of eligible detections that meets the collision conditions is reported |
| `EventCriteria.CollisionIff` | core/pipeline/event_detector.c:160-244 | A frame reports detections i < j as a collision exactly when both are cars, motorcycles, buses or trucks seen three times; their overlap reaches the threshold or their centres are closer than 2.5 times the smallest side; one of them goes at no more than the share 1 - drop of its average speed; one has travelled more than 30 pixels; and the weighted sum, written out over boxes and points, reaches the threshold |
| `EventCriteria.CollisionFigures` | core/pipeline/event_detector.c:226-242 | The report of such a pair, figure by figure: names, score, overlap, loss of speed, change of heading, distance and the hull of both boxes |
| `EventCriteria.NoMovementNoCollision` | core/pipeline/event_detector.c:207-214 | Two vehicles neither of which has travelled more than 30 pixels are never reported as a collision |
| `EventCriteria.NoSlowdownNoCollision` | core/pipeline/event_detector.c:206-214 | Two vehicles neither of which has slowed by the configured share of its average are never reported as a collision |
| `EventCriteria.NearMissIff` | core/pipeline/event_detector.c:246-270 | A frame reports detections i < j as a near miss exactly when both are vehicles seen three times, their centres closer than the limit, their overlap below the collision threshold, one of them faster than 20, and the score, written out, reaches the threshold |
| `EventCriteria.BrakingIff` | core/pipeline/event_detector.c:273-298 | A frame reports a sudden braking exactly of a vehicle seen three times whose acceleration is longer than the limit and against its velocity, with a score that reaches the threshold |
| `EventCriteria.BrakeScoreIs` | core/pipeline/event_detector.c:281-281 | That score is the share of three times the limit the acceleration reaches, at most one, for every positive limit |
| `EventCriteria.StoppedIff` | core/pipeline/event_detector.c:301-336 | A frame reports a track as stopped exactly when a vehicle's trajectory of that track ends in this frame and its last points, as many as the window asks, are all slow; the score is one half, or one for an empty window |
| `EventCriteria.PairReports` | core/pipeline/event_detector.c:160-271 | What a frame reports of two detections comes from that pair alone, naming the earlier one first and never the other way round |
| `EventCriteria.FrameIs` | core/pipeline/event_detector.c:150-339 | The candidates of a frame are exactly those of its pairs, of its braking vehicles and of the trajectories that stand still |
| `EventCriteria.EligibleIff` | core/pipeline/event_detector.c:161-172 | Judged are exactly the tracked cars, motorcycles, buses and trucks whose first trajectory in the store has three points |
| `EventCriteria.DistanceIs` | core/pipeline/event_detector.c:135-140 | The distance is the one non-negative number whose square is the sum of the squares of the differences of the centres |
| `EventCriteria.GapIsTurn` | core/pipeline/event_detector.c:191-192 | The gap between two headings is the angle between zero and half a turn that takes one to the other |
| `EventCriteria.LostIsDrop` | core/pipeline/event_detector.c:184-186 | The drop reaches a limit exactly when the speed is at most the remaining share of the average |
| `EventCriteria.NearMissByDefault` | core/pipeline/event_detector.c:61-77 | Under the default configuration the weights of a near miss add up to the threshold, so only the full score is reported: distance zero, full speed, opposite headings |
| `EventCriteria.BrakingByDefault` | core/pipeline/event_detector.c:61-77 | Under the default configuration a braking is reported exactly from an acceleration of 164998.35 on, against the motion |
| `EventCriteria.StandingByDefault` | core/pipeline/event_detector.c:61-77 | Under the default configuration a vehicle stands still when its last 120 points are no faster than one pixel a second |
| `Tracking.GreedyMatching` | core/pipeline/tracker.c:60-88 | The match is injective and class-preserving; on the boxes before the update each detection gets the best live track of its class left to it, lowest index on ties; no unmatched detection and unmatched live track of its class overlap above the threshold |
| `Tracking.BestIsBest` | core/pipeline/tracker.c:65-74 | The scan ends with the highest overlap strictly above the threshold among open tracks, the first among equals, or none |
| `Overlaps.MatchingByAreas` | core/pipeline/tracker.c:60-88 | In areas: a match overlaps by more than the threshold's share of what the two boxes cover together, and no unmatched detection overlaps an unmatched live track of its class by as much |
| `TrackerRuns.RunInvariant` | core/pipeline/tracker.c:39-147 | After any sequence of updates and resets ids equal positions plus one, live tracks have age at most the limit (zero when it is negative), dead ones exactly one more, and hits add up to the detections fed since the last reset |
| `TrackerRuns.StepKeeps` | core/pipeline/tracker.c:49-132 | One update keeps numbering and the age rules |
| `TrackerRuns.UpdateAddsHits` | core/pipeline/tracker.c:76-126 | One update adds exactly one hit per detection |
| `TrackerRuns.DeadForever` | core/pipeline/tracker.c:90-100 | Until a reset, the slot of a dead track never changes again |
| `TrackerRuns.LivesUnseenIff` | core/pipeline/tracker.c:90-100 | A track just seen that is matched in none of the following updates is live after them exactly when they are no more than its age limit; it counts them up to its death and changes in nothing else |
| `TrackerRuns.IdsDistinct` | core/pipeline/tracker.c:76-126 | The detections of a frame leave with distinct positive ids |
| `TrackerRuns.IdsOfFrame` | core/pipeline/tracker.c:86-125 | A matched detection gets its track's id, the others the next unused ids in order |
| `TrackerRuns.TrackOfDetection` | core/pipeline/tracker.c:76-126 | Each detection's id names a live track of its class with its box and confidence and age zero |
| `TrackerModule.Tracker.constructor` | core/pipeline/tracker.c:39-47 | A new tracker is empty and hands out ids from one |
| `TrackerModule.Tracker.Update` | core/pipeline/tracker.c:49-132 | The table and the names after an update are those of the matching on the table before it; returned is the number of live tracks |
| `TrackerModule.Tracker.FindBest` | core/pipeline/tracker.c:61-74 | Although earlier hits have already moved boxes, the scan finds the best open track of the table before the update |
| `TrackerModule.Tracker.MatchDetections` | core/pipeline/tracker.c:60-88 | Matched tracks are updated and matched detections named; flags record who was matched |
| `TrackerModule.Tracker.AgeTracks` | core/pipeline/tracker.c:90-100 | Live unmatched tracks age by one and die past the limit; the live count follows |
| `TrackerModule.Tracker.StartTracks` | core/pipeline/tracker.c:102-126 | Each unmatched detection starts a track with the next id and carries it |
| `TrackerModule.Tracker.TotalTracks` | core/pipeline/tracker.c:134-136 | The id counter tells the number of tracks in the table |
| `TrackerModule.Tracker.Reset` | core/pipeline/tracker.c:142-147 | The table is empty and ids start over |
| `Nms.NmsTheorem` | core/pipeline/postprocessor.c:98-124 | Survivors come by falling confidence, never conflict, come from the input, and every detection left out conflicts with a survivor of at least its confidence (conflict is told in areas by `Overlaps.ConflictIff`) |
| `Overlaps.SuppressionByAreas` | core/pipeline/postprocessor.c:98-124 | In areas: no two survivors of a class overlap by more than the threshold's share of what they cover together, and every detection left out overlaps a survivor of its class and at least its confidence by more |
| `Overlaps.SurvivesIff` | core/pipeline/postprocessor.c:112-123 | In areas: an entry of the sorted list stands exactly when its overlap with no earlier standing entry of its class exceeds that share |
| `Overlaps.NestedBoxesSurvive` | core/pipeline/postprocessor.c:79-124 | A box a quarter the size inside another has overlap 0.25 with it, and both survive at 0.45 |
| `Nms.KernelUnique` | core/pipeline/postprocessor.c:112-123 | Any flags in which an entry stands exactly when no earlier standing entry conflicts with it are the flags computed |
| `Nms.NmsIdempotent` | core/pipeline/postprocessor.c:98-124 | Suppressing the survivors again changes nothing |
| `Nms.NmsCommutesWithUnletterbox` | core/pipeline/postprocessor.c:214-257 | Suppression in source pixels keeps exactly what suppression in model pixels would |
| `Nms.KernelByClass` | core/pipeline/postprocessor.c:112-123 | On a sorted list, suppression restricted to a class is suppression of that class |
| `Nms.SuppressedByKept` | core/pipeline/postprocessor.c:114-122 | What the flags suppress is what the list of survivors suppresses |
| `Nms.KernelStep` | core/pipeline/postprocessor.c:251-255 | Walking the flags in order collects the survivors |
| `Nms.Suppress` | core/pipeline/postprocessor.c:98-124 | Sorts by confidence in place and sets each flag to whether no earlier survivor of its class overlaps it by more than the threshold, as `Overlaps.SurvivesIff` tells in areas |
| `Nms.ClearConflicts` | core/pipeline/postprocessor.c:114-122 | A survivor clears exactly the later entries it conflicts with; a cleared entry clears none |
| `NmsBystanders.AloneSufficesIffQuiet` | core/pipeline/postprocessor.c:98-124 | For a list of one class: whatever candidates of other classes are mixed in, its survivors are those of a run on the list alone, exactly when of any two different candidates in it that tie in confidence and conflict one is beaten by a survivor of the strictly more confident candidates in it |
| `NmsBystanders.HeadsItsClass` | core/pipeline/postprocessor.c:99-110 | Enough more confident candidates of another class, placed last, make any given candidate the first of its class at its confidence |
| `NmsBystanders.AloneSufficesIffNoRivals` | core/pipeline/postprocessor.c:98-124 | For every list drawn from a set of detections of one class the class alone suffices, exactly when the set holds no two that tie and conflict |
| `NmsTies.OrderFreeIffQuiet` | core/pipeline/postprocessor.c:98-124 | For a list: every reordering of it leaves the same survivors exactly when of any two different candidates in it that tie in confidence and conflict one is beaten by a survivor of the strictly more confident candidates taken alone |
| `NmsTies.QuietIffSettled` | core/pipeline/postprocessor.c:98-124 | That condition comes to the same whether the stronger survivors are those of the stronger candidates alone or those of the whole list |
| `NmsTies.OrderFreeIffNoRivals` | core/pipeline/postprocessor.c:98-124 | Every list drawn from a set of detections is free of order in this sense exactly when the set holds no two that tie and conflict |
| `NmsTies.SortedKernelsAgree` | core/pipeline/postprocessor.c:112-123 | Two sorted rearrangements of one list have the same survivors when no two tied rivals in it are both unbeaten |
| `NmsBystanders.BystanderSwaps` | core/pipeline/postprocessor.c:99-110 | Two tied rivals and a more confident bystander of another class: together one rival survives, alone the other |
| `NmsBystanders.TiedBoxes` | core/pipeline/postprocessor.c:99-110 | Boxes one pixel apart tied at 0.9 with a bystander at 0.95 are such an input |
| `NmsTies.RivalsRun` | core/pipeline/postprocessor.c:99-123 | Of two tied rivals the one listed first survives |
| `Sorting.ExchangeSorts` | core/pipeline/event_detector.c:368-377 | The exchange sort gives a permutation with nothing out of order |
| `Sorting.ExchangeSort` | core/pipeline/event_detector.c:368-377 | The nested loops compute that sort in place and touch nothing beyond the first n entries |
| `Sorting.SelectionSorts` | core/pipeline/postprocessor.c:99-110 | The selection sort gives a permutation by falling key |
| `Sorting.SelectionSort` | core/pipeline/postprocessor.c:99-110 | The nested loops compute that sort in place and touch nothing beyond the first n entries |
| `Sorting.SelectionKeepsSorted` | core/pipeline/postprocessor.c:99-110 | A list already in order is left as it is, ties included |
| `Sorting.FirstMax` | core/pipeline/postprocessor.c:101-104 | The first entry of largest key among the rest |
| `Geometry.IouUnchangedByToSource` | core/pipeline/postprocessor.c:79-94 | Overlap is the same on both sides of the letterbox, for every ratio above zero |
| `Geometry.IouSymmetric` | core/pipeline/postprocessor.c:79-94 | Overlap does not depend on the order of the boxes |
| `Geometry.IouInUnit` | core/pipeline/postprocessor.c:79-94 | For boxes of non-negative size overlap lies between zero and one |
| `Geometry.IouOfSelf` | core/pipeline/tracker.c:25-37 | A box with area overlaps itself fully |
| `Overlaps.IouIsShare` | core/pipeline/postprocessor.c:85-93 | For all boxes the value times the area covered by either is the overlap, and it is zero when that area is not positive |
| `Overlaps.OverlapIsCommonArea` | core/pipeline/postprocessor.c:80-87 | The overlap is the area of the box that holds exactly the points common to both |
| `Overlaps.NoCommonPointNoOverlap` | core/pipeline/postprocessor.c:80-87 | Boxes of non-negative size without a common point have overlap zero |
| `Overlaps.NestedIou` | core/pipeline/postprocessor.c:79-94 | For a box inside another the value is the quotient of their areas |
| `Overlaps.IouExceedsIff` | core/pipeline/postprocessor.c:118-119 | The value exceeds a threshold exactly when the overlap exceeds that share of the area covered together |
| `Overlaps.ConflictIff` | core/pipeline/postprocessor.c:118-119 | Two detections conflict exactly when they are of one class and overlap by more than that share |
| `Overlaps.HullHoldsBoth` | core/pipeline/event_detector.c:238-241 | The region of a pair is the smallest box that holds both |
| `Geometry.ToSourceInvertsToModel` | core/pipeline/postprocessor.c:214-223 | Placing a box on the canvas and undoing the letterbox are inverse to each other |
| `Decoding.LayoutIndependent` | core/pipeline/postprocessor.c:146-257 | With more predictions than columns, the row-major and the transposed buffer of one matrix give the same detections |
| `Decoding.ReadInRange` | core/pipeline/postprocessor.c:172-208 | Every read is inside the buffer whenever class offset plus number of classes is at most the row width |
| `Decoding.BestClassIsArgmax` | core/pipeline/postprocessor.c:194-208 | The chosen class is the first of highest score; class 0 with score -1 when none exceeds -1 |
| `Decoding.CapKeepsFirst` | core/pipeline/postprocessor.c:167-172 | The cap is the number asked for, or 1000; it keeps the first passing predictions in index order |
| `Decoding.CapLosesNoneIff` | core/pipeline/postprocessor.c:167-172 | Nothing is lost to the cap exactly when at most that many predictions pass |
| `Decoding.BestIsLost` | core/pipeline/postprocessor.c:167-172 | Of 1001 passing predictions the most confident one is lost, both under a cap of 1000 and when no cap is asked for |
| `Decoding.DetectionsSane` | core/pipeline/postprocessor.c:210-234 | Every detection has a class below the number of classes (class 0 when there are none), reaches the threshold, carries frame and time, and is unnamed (class, confidence and box are told by `Predictions.PredictionRead`) |
| `Decoding.UnletterboxCommutes` | core/pipeline/postprocessor.c:214-257 | Undoing the letterbox before suppression gives what undoing it afterwards would |
| `Decoding.BoxRoundTrip` | core/pipeline/postprocessor.c:214-233 | A prediction of a source box as seen through the letterbox decodes to that source box |
| `Predictions.PredictionRead` | core/pipeline/postprocessor.c:164-234 | A prediction becomes a detection exactly when its confidence is not below the threshold: the highest of its class scores, times column 4 when there is exactly one column more than box and classes. Class is the first of the highest; the box, seen through the letterbox again, has the centre and size of columns 0 to 3 |
| `Predictions.ReadsMatrix` | core/pipeline/postprocessor.c:146-192 | A buffer of more rows than columns is read as a prediction a row, any other, a square one too, as a prediction a column |
| `Predictions.ScoredOnce` | core/pipeline/postprocessor.c:194-210 | Class and confidence of a row are determined by its entries |
| `Predictions.BackgroundIgnored` | core/pipeline/postprocessor.c:187-212 | With a column for it and a positive threshold, a prediction whose objectness times every class score stays below the threshold is no detection |
| `Predictions.NothingSeen` | core/pipeline/postprocessor.c:187-212 | With that column zero throughout there are no detections at all |
| `Predictions.DetectionsComplete` | core/pipeline/postprocessor.c:167-257 | The detections are predictions that pass, no two of a class overlapping by more than the configured share; unless more pass than the cap, every other one that passes overlaps one of its class and at least its confidence by more |
| `Postprocessor.PostprocessDetections` | core/pipeline/postprocessor.c:138-261 | Appends to the list the surviving detections of the raw output, in order of confidence: those `Predictions.DetectionsComplete` tells from the matrix of predictions |
| `Postprocessor.Collect` | core/pipeline/postprocessor.c:167-242 | Fills the buffer with the predictions that pass, each as `Predictions.PredictionRead` says, up to the cap |
| `Postprocessor.FindBestClass` | core/pipeline/postprocessor.c:194-208 | The inner loop finds the best class and its score |
| `Types.DetectionList.Add` | core/pipeline/postprocessor.c:22-32 | The detection is appended |
| `Letterbox.LetterboxFits` | core/pipeline/preprocessor.c:67-84 | The ratio is the largest under which the frame fits; in each direction the margin before the whole pixels drawn equals the margin after them, it is zero across the side that fits exactly, and the exact image of the frame overshoots the canvas by less than half a pixel although the drawn size is truncated |
| `Letterbox.WideFrameOnSquare` | core/pipeline/preprocessor.c:67-78 | A frame of 1920 by 1080 on a canvas of 640 by 640 has ratio 1/3 and margins of 140 above and below |
| `PictureCells.CellShows` | core/pipeline/preprocessor.c:86-122 | For every cell and the point of the frame it looks at (the letterbox undone, or the same proportion of the frame): a point with neighbours gives the bilinear sample there, scaled and normalised; any other leaves the margin, 0.5 in a letterbox and 0 otherwise |
| `PictureCells.SourceOf` | core/pipeline/preprocessor.c:97-103 | That point is the only one whose image is the cell |
| `PictureCells.SampleIsBilinear` | core/pipeline/preprocessor.c:20-41 | The sample is the pixel on the upper left plus the steps to its neighbours in their shares plus the twist of the four in the product of the shares |
| `PictureCells.BytesInOrder` | core/pipeline/preprocessor.c:34-37 | The bytes of a frame follow one another channel by channel, column by column, row by row, and fill the buffer |
| `PictureCells.CellsInOrder` | core/pipeline/preprocessor.c:116-122 | The cells of the tensor follow one another column by column, row by row, plane by plane when channels come first, and like the bytes of a frame otherwise |
| `PictureCells.DefaultIsPlanar` | core/pipeline/preprocessor.c:7-17 | The default tensor has the planes one after the other |
| `Letterbox.SampleOfNeighbours` | core/pipeline/preprocessor.c:20-41 | Inside the guard the clamps do nothing, all four reads are in the frame, and the sample lies between any bounds on those four pixels |
| `Letterbox.CellAtImage` | core/pipeline/preprocessor.c:93-114 | A cell on the exact image of a source pixel holds that pixel, normalised |
| `Letterbox.DefaultCellInUnit` | core/pipeline/preprocessor.c:7-17 | With the default options every cell value is in [0, 1] |
| `Letterbox.SameSizeCopies` | core/pipeline/preprocessor.c:93-114 | A canvas of the frame's size copies every pixel except the last row and column, which keep the pad value |
| `Letterbox.PixelInRange` | core/pipeline/preprocessor.c:34-37 | A pixel's offset is inside the frame buffer |
| `Preprocessor.CellRoundTrip` | core/pipeline/preprocessor.c:116-122 | In both layouts each cell has its own position inside the tensor |
| `Preprocessor.PositionRoundTrip` | core/pipeline/preprocessor.c:116-122 | In both layouts each position of the tensor belongs to one cell |
| `Preprocessor.TensorCells` | core/pipeline/preprocessor.c:86-122 | Every cell of the finished tensor holds the pad value or the normalised sample of its source point |
| `Preprocessor.LayoutsAgree` | core/pipeline/preprocessor.c:116-122 | The channel-first and channel-last tensors are one image, indexed two ways |
| `Preprocessor.DefaultTensorInUnit` | core/pipeline/preprocessor.c:7-17 | With the default options the whole tensor is in [0, 1] |
| `Preprocessor.PreprocessFrame` | core/pipeline/preprocessor.c:43-125 | Allocates on first use, fills the tensor as specified, and leaves ratio and pads in the configuration: the frame centred in the canvas, or ratio one and no pads without a letterbox |
| `Preprocessor.FillTensor` | core/pipeline/preprocessor.c:86-122 | The pad fill and the nested loops leave the specified tensor, whatever it held before |
| `Preprocessor.FillCells` | core/pipeline/preprocessor.c:94-122 | One canvas position sets its three cells and disturbs no other |
| `Preprocessor.PreprocessConfig.constructor` | core/pipeline/preprocessor.c:7-17 | A new configuration holds the default options for its target size |
| `Trajectories.DistanceAgreesWithSpeed` | core/pipeline/trajectory_builder.c:77-122 | The recomputed distance is never below the sum of speed times seconds, and equals it exactly when every step that moved the object advanced the clock |
| `Trajectories.MovesWithoutTime` | core/pipeline/trajectory_builder.c:77-122 | A step of 100 pixels with the clock standing still adds 100 to the distance and nothing to the speeds |
| `Trajectories.SummaryConsistent` | core/pipeline/trajectory_builder.c:100-136 | With an advancing clock distance is the integral of speed, at most top speed times elapsed time, and the average speed is at most the top speed |
| `Trajectories.StepAgrees` | core/pipeline/trajectory_builder.c:77-122 | The same for a single step, with the exact condition |
| `Trajectories.StoreKinematic` | core/pipeline/trajectory_builder.c:57-98 | Taking in any detections keeps at every stored point the motion from the previous one: velocity times time is the way gone, acceleration times time the change of velocity, speed the length of the velocity and heading its direction; without time there is none |
| `Trajectories.NormScales` | core/pipeline/trajectory_builder.c:82-85 | Speed times elapsed seconds is the distance between the points |
| `Trajectories.AverageIsOfMoving` | core/pipeline/trajectory_builder.c:110-134 | With a steady clock the average speed times the time spent moving is the distance |
| `Trajectories.TopAndRest` | core/pipeline/trajectory_builder.c:105-135 | The top speed is that of some step and none is faster; stationary is an object seen once, or one with average below 3 and distance below 20 |
| `TrajectoryBuilderModule.TrajectoryBuilder.constructor` | core/pipeline/trajectory_builder.c:13-21 | A new builder has an empty store |
| `TrajectoryBuilderModule.TrajectoryBuilder.FindOrCreate` | core/pipeline/trajectory_builder.c:23-47 | The first trajectory of the track, or a new empty one at the end |
| `TrajectoryBuilderModule.TrajectoryBuilder.AddPoint` | core/pipeline/trajectory_builder.c:49-94 | One trajectory gains a point with its motion from the last one; the others stay |
| `TrajectoryBuilderModule.TrajectoryBuilder.Update` | core/pipeline/trajectory_builder.c:57-98 | All named detections are taken in, in order; unnamed ones are ignored |
| `TrajectoryBuilderModule.TrajectoryBuilder.ComputeMetrics` | core/pipeline/trajectory_builder.c:100-137 | Every trajectory gets the summary figures of its points |
| `TrajectoryBuilderModule.TrajectoryBuilder.MeasureOne` | core/pipeline/trajectory_builder.c:103-136 | The loop computes distance, average over positive speeds, top speed and the stationary flag |
| `TrajectoryBuilderModule.TrajectoryBuilder.Get` | core/pipeline/trajectory_builder.c:139-146 | The first trajectory of the track, if there is one |
| `TrajectoryBuilderModule.TrajectoryBuilder.Reset` | core/pipeline/trajectory_builder.c:165-170 | The store is empty |
| `Catalogs.CatalogExact` | core/pipeline/catalog_builder.c:95-123 | The catalog lists exactly the classes seen, once each, ascending, with true figures |
| `Catalogs.EntryTold` | core/pipeline/catalog_builder.c:68-89 | An entry counts the recorded detections of its class and their different positive names, and gives the first and last of their times as the initial values allow |
| `Catalogs.TotalsAddUp` | core/pipeline/catalog_builder.c:68-70 | The counts add up to the number of detections |
| `Catalogs.CatalogIgnoresOrder` | core/pipeline/catalog_builder.c:45-123 | Any order of the same detections builds the same catalog |
| `Catalogs.SeenTimesTrue` | core/pipeline/catalog_builder.c:76-79 | First and last times are the true extremes of the class exactly when the earliest is at most the largest double and the latest at least -1 |
| `Catalogs.SeenBeforeMinusOne` | core/pipeline/catalog_builder.c:76-79 | A class seen only at time -5 is listed as last seen at -1 |
| `Catalogs.UniqueAddUp` | core/pipeline/catalog_builder.c:81-89 | With one class per track the unique counts add up to the tracks seen |
| `CatalogBuilderModule.CatalogBuilder.constructor` | core/pipeline/catalog_builder.c:23-36 | A fresh builder has recorded nothing |
| `CatalogBuilderModule.CatalogBuilder.HasTrackId` | core/pipeline/catalog_builder.c:38-43 | Whether the id is among those of the class |
| `CatalogBuilderModule.CatalogBuilder.Grow` | core/pipeline/catalog_builder.c:52-66 | Room for the class is made without changing what was recorded |
| `CatalogBuilderModule.CatalogBuilder.AddOne` | core/pipeline/catalog_builder.c:48-90 | One detection is added to the record, its class grown in if need be |
| `CatalogBuilderModule.CatalogBuilder.Add` | core/pipeline/catalog_builder.c:45-93 | The detections are added to the record in order |
| `CatalogBuilderModule.CatalogBuilder.Build` | core/pipeline/catalog_builder.c:95-123 | The incremental catalog is the one a single pass over the whole record gives |
| `CatalogBuilderModule.CatalogBuilder.Reset` | core/pipeline/catalog_builder.c:129-139 | The record is empty, so later adds build what a fresh builder would |
| `Sampling.AdaptiveGap` | core/pipeline/frame_sampler.c:38-67 | In adaptive mode every stretch of max(I, min(2I, 30)) frames holds an accepted one, for all counts and failures |
| `Sampling.FirstFrameAccepted` | core/pipeline/frame_sampler.c:29-41 | Every non-empty sequence of frames has its first one accepted, under every policy |
| `Sampling.FixedPolicies` | core/pipeline/frame_sampler.c:29-41 | By interval exactly the multiples of the interval are accepted, whatever is detected; without sampling all are |
| `Sampling.AdaptiveStart` | core/pipeline/frame_sampler.c:13-67 | Until a frame is processed to the end the adaptive sampler accepts exactly the multiples of its interval, failures telling it nothing; an empty first frame counts as the second in a row |
| `Sampling.ActivityAdapts` | core/pipeline/frame_sampler.c:51-67 | A burst halves the interval and never lengthens the gap; two empty frames double it up to 30, which lengthens the gap exactly when the interval is below 30 and shortens it exactly when it is above; anything else resets it |
| `Sampling.AcceptedFramesClose` | core/pipeline/frame_sampler.c:38-67 | Consecutive accepted frames are at most that far apart |
| `Sampling.CurrentBounded` | core/pipeline/frame_sampler.c:51-67 | The adaptive interval stays between one and that bound |
| `Sampling.FrameSampler.constructor` | core/pipeline/frame_sampler.c:13-20 | The interval is at least one and counting starts at zero |
| `Sampling.FrameSampler.ShouldProcess` | core/pipeline/frame_sampler.c:22-49 | The frame is accepted as the policy says and counted on one side or the other |
| `Sampling.FrameSampler.NotifyActivity` | core/pipeline/frame_sampler.c:51-67 | The effective interval follows the change in activity, in adaptive mode only |
| `Sampling.FrameSampler.Reset` | core/pipeline/frame_sampler.c:69-75 | A reset sampler is as a fresh one |
| `Comparison.DominanceRespected` | core/infra/comparison.c:160-211 | A run no worse on all six metrics and strictly better on one with positive weight, other weights non-negative, ranks strictly above |
| `Comparison.UnitsDoNotMatter` | core/infra/comparison.c:160-211 | Replacing a metric m by a m + b with a > 0 for all runs changes no score and no rank |
| `Comparison.RankingOrdered` | core/infra/comparison.c:202-223 | The result is a permutation of the scored runs by falling score, each with its own scores, and deltas have the sign of the difference from the run at the baseline index |
| `Comparison.BaselineIsNamedIff` | core/infra/comparison.c:202-217 | When no other run has the score of the run the caller named, the baseline is that run exactly when as many runs score strictly above it as its number says |
| `Comparison.BaselineMoves` | core/infra/comparison.c:202-217 | Two runs, the second of lower latency: for baseline 0 the baseline is the second run |
| `Comparison.RankCounts` | core/infra/comparison.c:202-211 | A run stands behind all that score above it and before all that score below it, ties included |
| `Comparison.ScoresInUnit` | core/infra/comparison.c:31-43 | Every normalised score is in [0, 1] |
| `Comparison.CompositesInRange` | core/infra/comparison.c:192-198 | With non-negative weights a composite is between zero and their sum |
| `Comparison.PresetsSumToOne` | core/infra/comparison.c:11-29 | All four presets are non-negative and sum to one |
| `Comparison.ScoreFollowsMetric` | core/infra/comparison.c:31-43 | A better raw figure gives a better score, strictly when it is strictly better |
| `ScoreMeanings.BetterFigureScoresHigher` | core/infra/comparison.c:186-191 | Metric by metric: lower latency, memory and stability figures score higher, and higher throughput, robustness and consistency, in both directions |
| `ScoreMeanings.ScoreInProportion` | core/infra/comparison.c:31-43 | Scores divide the range from worst to best figure in proportion, zero to one; where all figures are equal every run scores one |
| `ScoreMeanings.RankedRunIs` | core/infra/comparison.c:184-223 | Each ranked run has the six scores of the run it names, their weighted sum as composite, and as delta the percentage by which it differs from the composite at the baseline's place, the first when out of range |
| `ScoreMeanings.PresetsFavour` | core/infra/comparison.c:11-29 | Each preset weighs the metric it is named after most, and the balanced one keeps its weights within 0.02 |
| `Comparison.Execute` | core/infra/comparison.c:119-230 | Refuses fewer than two runs; otherwise scores, ranks in place and sets deltas as specified |
| `Comparison.ScoreRuns` | core/infra/comparison.c:160-200 | Scores every run against the ranges of all six metrics |
| `Comparison.FindRange` | core/infra/comparison.c:161-181 | Least and greatest value of a metric over all runs |
| `MemoryPoolModule.PoolRun` | core/common/memory_pool.c:7-57 | After any run of acquire, release and reset in which only blocks that are out come back, the stack and the blocks out share out all blocks, each once, and the blocks out are 64-aligned ranges inside the buffer that do not overlap |
| `MemoryPoolModule.MemoryPool.OutstandingSafe` | core/common/memory_pool.c:13-39 | Blocks in use are 64-aligned ranges inside the buffer, no two overlapping |
| `MemoryPoolModule.OffsetRoundTrip` | core/common/memory_pool.c:38-44 | Division in release recovers the block from any byte of it |
| `MemoryPoolModule.ReleaseReturns` | core/common/memory_pool.c:41-48 | An address anywhere in a block brings back that block and no other; one past the last block and null change nothing |
| `MemoryPoolModule.ReleaseUndoesAcquire` | core/common/memory_pool.c:34-48 | Releasing what was just acquired, by the address of any of its bytes, restores the pool |
| `MemoryPoolModule.AlignUpLeast` | core/common/memory_pool.c:5-5 | The block size is the least multiple of 64 that holds the request |
| `MemoryPoolModule.CreatePool` | core/common/memory_pool.c:7-32 | No pool for no blocks or empty blocks; otherwise a valid pool with nothing out |
| `MemoryPoolModule.MemoryPool.constructor` | core/common/memory_pool.c:13-28 | All blocks are free, the lowest on top |
| `MemoryPoolModule.MemoryPool.Acquire` | core/common/memory_pool.c:34-39 | Nothing exactly when all blocks are out; otherwise the address of the block on top, which was free; stack and blocks out change as the run says |
| `MemoryPoolModule.MemoryPool.Release` | core/common/memory_pool.c:41-48 | Null and addresses past the end change nothing; otherwise the block the address lies in is pushed back and only it stops being out |
| `MemoryPoolModule.MemoryPool.Reset` | core/common/memory_pool.c:50-57 | Every block is free again, in the initial order |
| `MemoryPoolModule.MemoryPool.Available` | core/common/memory_pool.c:70-72 | Available blocks are those on the stack, the ones not out |

## Left out

- Video decoding, ONNX Runtime, the database, Redis, UUIDs, clocks, logging, and all export: foreign calls or I/O. Frames, raw tensors, times and failures are inputs; event ids are not modelled.
- The job scheduler and `cmd/`, the Python scripts, `core/infra/audit.c` and `core/pipeline/metrics_collector.c`: orchestration, drawing, and plumbing that would only add easy members. The six raw metrics of a comparison are given reals.
- Class names and label loading, severity buckets, class ids of involved objects (always -1) and the string tables: copied text and single branches.
- Rounding, NaN, overflow of `int` and `size_t`, allocation failure and null arguments of the stage functions: exact reals, sizes that fit, and valid objects are assumed.
- Row stride of frames: rows are taken as packed, as the sampler reads them.
- Timing figures of a run, and the check that runs are comparable (`core/infra/comparison.c:47-115`): clock readings and string comparisons.
- Growth by `realloc` is modelled for the candidate array of the event detector only; the other growing arrays are `seq` fields, so capacity, stale pointers and aliasing of those arrays are not captured.
- The loops of the consolidation read a snapshot of the sorted candidate array, which they do not change.
- The round trip of boxes holds for letterbox mode, the only one the pipeline uses: without it the code stores ratio 1 although it resizes.
- The frames-per-second and step fields of the trajectory builder: stored but never read by the code.
- EventDetection.EventDetector.Analyze: with a stopped-vehicle window of zero or less it requires that every stored trajectory has a point, because the code then reads the last one unchecked; the builder stores none without.
- EventDetection.EventDetector.Finalize: nothing is said about a second call on the same detector, which would append the same events again.
- CatalogBuilderModule.CatalogBuilder.AddOne: requires a non-negative class id, because the code indexes by it unchecked; decoding proves that ids are non-negative.
- MemoryPoolModule.MemoryPool.Release: requires that the address is not below the buffer and that a block inside it is out, because the pool detects neither.
- Comparison.RankingOrdered: does not say that the baseline index still names the caller's run, because the code applies it after sorting; `Comparison.BaselineIsNamedIff` says when it does. For a named run that ties with another, only the bounds of `Comparison.RankCounts` are given.
- Comparison.Execute: leaves out the fairness flag and its reason, which do not change the ranking.
- Types.DetectionList.Add: the capacity and its doubling are not modelled; the list is a value that grows.
- Sampling.FrameSampler.ShouldProcess: the time stamp is not a parameter, because the code ignores it.
