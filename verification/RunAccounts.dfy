/** What the separately kept accounts of a run have to do with one another. */
module RunAccounts {
  import opened Types
  import opened Tracking
  import opened TrackerRuns
  import opened Trajectories
  import opened Catalogs

  // ----- what was seen of a track -----

  /** What a detection and a point both tell: when, where and how large. */
  datatype Sight = Sight(frame: int, timestamp: real, cx: real, cy: real, w: real, h: real)

  function SightOf(p: Point): Sight { Sight(p.frame, p.timestamp, p.cx, p.cy, p.w, p.h) }

  function SightIn(d: Detection): Sight
  {
    Sight(d.frame, d.timestamp, d.bbox.x + d.bbox.w / 2.0, d.bbox.y + d.bbox.h / 2.0, d.bbox.w, d.bbox.h)
  }

  function Sights(points: seq<Point>): (r: seq<Sight>)
    ensures |r| == |points|
  {
    seq(|points|, i requires 0 <= i < |points| => SightOf(points[i]))
  }

  /** The sights of one track in a log, in order. */
  function Sightings(log: seq<Detection>, id: int): seq<Sight>
  {
    if log == [] then []
    else
      var d := log[|log| - 1];
      Sightings(log[..|log| - 1], id) + if d.trackId == id then [SightIn(d)] else []
  }

  function PointsOf(store: seq<Trajectory>, id: int): seq<Point>
  {
    if Find(store, id) < |store| then store[Find(store, id)].points else []
  }

  lemma {:induction false} SightingsConcat(a: seq<Detection>, b: seq<Detection>, id: int)
    ensures Sightings(a + b, id) == Sightings(a, id) + Sightings(b, id)
  {
    if b == [] {
      assert a + b == a;
    } else {
      assert (a + b)[..|a + b| - 1] == a + b[..|b| - 1];
      SightingsConcat(a, b[..|b| - 1], id);
    }
  }

  lemma {:induction false} NeverSighted(log: seq<Detection>, id: int)
    requires forall d :: d in log ==> d.trackId != id
    ensures Sightings(log, id) == []
  {
    if log != [] {
      NeverSighted(log[..|log| - 1], id);
    }
  }

  lemma FindSame(a: seq<Trajectory>, b: seq<Trajectory>, id: int)
    requires |a| == |b| && forall k :: 0 <= k < |a| ==> a[k].trackId == b[k].trackId
    ensures Find(a, id) == Find(b, id)
  {
  }

  lemma FindGrown(store: seq<Trajectory>, t: Trajectory, id: int)
    ensures Find(store, id) < |store| ==> Find(store + [t], id) == Find(store, id)
    ensures Find(store, id) == |store| && t.trackId != id ==> Find(store + [t], id) == |store| + 1
  {
    var i, grown := Find(store + [t], id), store + [t];
    assert i < |store| ==> grown[i] == store[i];
    assert Find(store, id) < |store| ==> grown[Find(store, id)] == store[Find(store, id)];
  }

  /** One detection taken in appends its sight to its own track's points and leaves the
      points of every other track alone. */
  lemma SightRecorded(math: Maths, store: seq<Trajectory>, det: Detection, id: int)
    requires id > 0
    ensures Sights(PointsOf(Sighted(math, store, det, det.frame, det.timestamp), id))
         == Sights(PointsOf(store, id)) + if det.trackId == id then [SightIn(det)] else []
  {
    hide Norm;
    if det.trackId > 0 {
      WithTrackHolds(store, det);
      var grown, i := WithTrack(store, det), Find(store, det.trackId);
      var after := Sighted(math, store, det, det.frame, det.timestamp);
      FindSame(grown, after, id);
      if Find(store, det.trackId) == |store| {
        FindGrown(store, grown[|store|], id);
      }
    }
  }

  /** A frame's detections append their sights, each to its own track, in order. */
  lemma {:induction false} SightsRecorded(math: Maths, store: seq<Trajectory>, dets: seq<Detection>, frame: int,
                                          timestamp: real, n: nat, id: int)
    requires n <= |dets| && id > 0
    requires forall d :: d in dets ==> d.frame == frame && d.timestamp == timestamp
    ensures Sights(PointsOf(AllSighted(math, store, dets, frame, timestamp, n), id))
         == Sights(PointsOf(store, id)) + Sightings(dets[..n], id)
  {
    hide Sights, PointsOf, Sighted, SightIn;
    if n > 0 {
      SightsRecorded(math, store, dets, frame, timestamp, n - 1, id);
      SightRecorded(math, AllSighted(math, store, dets, frame, timestamp, n - 1), dets[n - 1], id);
      assert dets[..n][..n - 1] == dets[..n - 1];
    }
  }

  // ----- the trajectory store against the track table, within one frame -----

  /** p continues q by exactly one point of this frame. */
  ghost predicate OneMore(q: seq<Point>, p: seq<Point>, frame: int)
  {
    |p| == |q| + 1 && p[..|q|] == q && p[|q|].frame == frame
  }

  /** A trajectory of an old track after part of a frame. */
  ghost predicate OldSlot(q: Trajectory, p: Trajectory, matched: bool, frame: int)
  {
    p.classId == q.classId && if matched then OneMore(q.points, p.points, frame) else p.points == q.points
  }

  /** The trajectory opened for unmatched detection e is where its id says. */
  ghost predicate NewSlot(store: seq<Trajectory>, dets: seq<Detection>, m: seq<int>, now: seq<Trajectory>,
      frame: int, e: nat)
    requires e < |m| == |dets|
  {
    var k := |store| + Unmatched(m, e);
    k < |now| && now[k].classId == dets[e].classId && OneMore([], now[k].points, frame)
  }

  /** The store after the first d named detections of a frame: matched tracks have one
      more point, the others are as they were, and one trajectory was opened for each
      unmatched detection, in order. */
  ghost predicate StoreAfter(store: seq<Trajectory>, dets: seq<Detection>, m: seq<int>, now: seq<Trajectory>,
      frame: int, d: nat)
    requires d <= |m| == |dets|
  {
    && |now| == |store| + Unmatched(m, d)
    && (forall k :: 0 <= k < |now| ==> now[k].trackId == k + 1)
    && (forall k :: 0 <= k < |store| ==> OldSlot(store[k], now[k], k in m[..d], frame))
    && (forall e :: 0 <= e < d && m[e] < 0 ==> NewSlot(store, dets, m, now, frame, e))
  }

  lemma FindById(store: seq<Trajectory>, id: int)
    requires forall k :: 0 <= k < |store| ==> store[k].trackId == k + 1
    ensures 1 <= id <= |store| ==> Find(store, id) == id - 1
    ensures id == |store| + 1 ==> Find(store, id) == |store|
  {
    var i := Find(store, id);
    assert 1 <= id <= |store| ==> store[id - 1].trackId == id;
  }

  lemma ExtendedOneMore(math: Maths, points: seq<Point>, pt: Point)
    ensures OneMore(points, Extended(math, points, pt), pt.frame)
  {
    hide Norm;
  }

  /** A store whose ids count from one takes a detection in at the position its id names,
      opening a trajectory when the id is the next unused one. */
  lemma SightedAt(math: Maths, store: seq<Trajectory>, det: Detection, frame: int, timestamp: real)
    returns (t: Trajectory)
    requires forall k :: 0 <= k < |store| ==> store[k].trackId == k + 1
    requires 1 <= det.trackId <= |store| + 1
    ensures t.trackId == det.trackId
    ensures det.trackId <= |store| ==>
      var i := det.trackId - 1;
      Sighted(math, store, det, frame, timestamp) == store[i := t] && OldSlot(store[i], t, true, frame)
    ensures det.trackId == |store| + 1 ==>
      && Sighted(math, store, det, frame, timestamp) == store + [t]
      && t.classId == det.classId && OneMore([], t.points, frame)
  {
    hide Find, OneMore, Extended;
    FindById(store, det.trackId);
    WithTrackHolds(store, det);
    var i := det.trackId - 1;
    ExtendedOneMore(math, if i < |store| then store[i].points else [], Resting(det, frame, timestamp));
    t := Sighted(math, store, det, frame, timestamp)[i];
  }

  lemma {:induction false} SlotsFollowTable(math: Maths, store: seq<Trajectory>, tracks: seq<Track>,
      config: TrackerConfig, dets: seq<Detection>, frame: int, timestamp: real, d: nat)
    requires Numbered(tracks) && |store| == |tracks| && d <= |dets|
    requires forall k :: 0 <= k < |store| ==> store[k].trackId == k + 1
    ensures StoreAfter(store, dets, MatchAll(tracks, config, dets),
                       AllSighted(math, store, Labelled(tracks, config, dets), frame, timestamp, d), frame, d)
  {
    hide MatchAll, Sighted, Labelled, StoreAfter, OldSlot, OneMore, NewSlot;
    var m, named := MatchAll(tracks, config, dets), Labelled(tracks, config, dets);
    if d == 0 {
      StoreStarts(store, dets, m, frame);
    } else {
      SlotsFollowTable(math, store, tracks, config, dets, frame, timestamp, d - 1);
      var before := AllSighted(math, store, named, frame, timestamp, d - 1);
      IdsOfFrame(tracks, config, dets, d - 1);
      StoreSize(store, dets, m, before, frame, d - 1);
      var t := SightedAt(math, before, named[d - 1], frame, timestamp);
      if m[d - 1] >= 0 {
        StepMatched(store, dets, m, before, t, frame, d - 1);
      } else {
        StepUnmatched(store, dets, m, before, t, frame, d - 1);
      }
    }
  }

  /** The store after the first d detections of a frame has one trajectory for each track
      so far, one more point for each match, and every new point is the sight of the
      detection that was named after its track. */
  lemma {:induction false} StoreFollowsTable(math: Maths, store: seq<Trajectory>, tracks: seq<Track>,
      config: TrackerConfig, dets: seq<Detection>, frame: int, timestamp: real, d: nat)
    requires Numbered(tracks) && |store| == |tracks| && d <= |dets|
    requires forall k :: 0 <= k < |store| ==> store[k].trackId == k + 1
    requires forall i :: 0 <= i < |dets| ==> dets[i].frame == frame && dets[i].timestamp == timestamp
    ensures var named := Labelled(tracks, config, dets);
      var now := AllSighted(math, store, named, frame, timestamp, d);
      && StoreAfter(store, dets, MatchAll(tracks, config, dets), now, frame, d)
      && forall id :: id > 0 ==> Sights(PointsOf(now, id)) == Sights(PointsOf(store, id)) + Sightings(named[..d], id)
  {
    hide AllSighted, Labelled, StoreAfter, MatchAll, Sights, PointsOf, Sightings;
    SlotsFollowTable(math, store, tracks, config, dets, frame, timestamp, d);
    StampsKept(tracks, config, dets, frame, timestamp);
    forall id | id > 0
      ensures Sights(PointsOf(AllSighted(math, store, Labelled(tracks, config, dets), frame, timestamp, d), id))
           == Sights(PointsOf(store, id)) + Sightings(Labelled(tracks, config, dets)[..d], id)
    {
      SightsRecorded(math, store, Labelled(tracks, config, dets), frame, timestamp, d, id);
    }
  }

  lemma StoreStarts(store: seq<Trajectory>, dets: seq<Detection>, m: seq<int>, frame: int)
    requires |m| == |dets| && forall k :: 0 <= k < |store| ==> store[k].trackId == k + 1
    ensures StoreAfter(store, dets, m, store, frame, 0)
  {
  }

  lemma {:induction false} StoreSize(store: seq<Trajectory>, dets: seq<Detection>, m: seq<int>, now: seq<Trajectory>,
      frame: int, d: nat)
    requires d <= |m| == |dets| && StoreAfter(store, dets, m, now, frame, d)
    ensures |now| == |store| + Unmatched(m, d)
    ensures forall k :: 0 <= k < |now| ==> now[k].trackId == k + 1
  {
  }

  lemma StepMatched(store: seq<Trajectory>, dets: seq<Detection>, m: seq<int>, before: seq<Trajectory>,
                    t: Trajectory, frame: int, d: nat)
    requires d < |m| == |dets| && MatchOf(|store|, m) && m[d] >= 0
    requires StoreAfter(store, dets, m, before, frame, d) && |before| >= |store|
    requires t.trackId == m[d] + 1 && OldSlot(before[m[d]], t, true, frame)
    ensures StoreAfter(store, dets, m, before[m[d] := t], frame, d + 1)
  {
    hide OneMore, NewSlot;
    var i, after := m[d], before[m[d] := t];
    assert m[..d + 1] == m[..d] + [i];
    assert i !in m[..d];
    forall k | 0 <= k < |store| ensures OldSlot(store[k], after[k], k in m[..d + 1], frame) {
      assert OldSlot(store[k], before[k], k in m[..d], frame);
    }
    forall e | 0 <= e < d + 1 && m[e] < 0 ensures NewSlot(store, dets, m, after, frame, e) {
      NewSlotKept(store, dets, m, before, after, frame, e);
    }
  }

  lemma NewSlotKept(store: seq<Trajectory>, dets: seq<Detection>, m: seq<int>, before: seq<Trajectory>,
                    after: seq<Trajectory>, frame: int, e: nat)
    requires e < |m| == |dets| && NewSlot(store, dets, m, before, frame, e)
    requires |before| <= |after| && forall k :: |store| <= k < |before| ==> after[k] == before[k]
    ensures NewSlot(store, dets, m, after, frame, e)
  {
  }

  lemma StepUnmatched(store: seq<Trajectory>, dets: seq<Detection>, m: seq<int>, before: seq<Trajectory>,
                      t: Trajectory, frame: int, d: nat)
    requires d < |m| == |dets| && MatchOf(|store|, m) && m[d] < 0
    requires StoreAfter(store, dets, m, before, frame, d)
    requires t.trackId == |before| + 1 && t.classId == dets[d].classId && OneMore([], t.points, frame)
    ensures StoreAfter(store, dets, m, before + [t], frame, d + 1)
  {
    hide OneMore, OldSlot, NewSlot;
    var after := before + [t];
    assert m[..d + 1] == m[..d] + [m[d]];
    forall k | 0 <= k < |store| ensures OldSlot(store[k], after[k], k in m[..d + 1], frame) {
      assert OldSlot(store[k], before[k], k in m[..d], frame);
      assert k in m[..d + 1] <==> k in m[..d];
    }
    forall e | 0 <= e < d + 1 && m[e] < 0 ensures NewSlot(store, dets, m, after, frame, e) {
      if e < d {
        NewSlotKept(store, dets, m, before, after, frame, e);
      } else {
        NewSlotMade(store, dets, m, before, t, frame, d);
      }
    }
  }

  lemma {:induction false} NewSlotMade(store: seq<Trajectory>, dets: seq<Detection>, m: seq<int>,
      before: seq<Trajectory>, t: Trajectory, frame: int, d: nat)
    requires d < |m| == |dets| && |before| == |store| + Unmatched(m, d)
    requires t.classId == dets[d].classId && OneMore([], t.points, frame)
    ensures NewSlot(store, dets, m, before + [t], frame, d)
  {
  }

  // ----- the accounts of a run -----

  ghost predicate Rising(points: seq<Point>, bound: int)
  {
    && (forall i, j :: 0 <= i < j < |points| ==> points[i].frame < points[j].frame)
    && (forall i :: 0 <= i < |points| ==> points[i].frame < bound)
  }

  /** The track table, the trajectories and the log tell one story: trajectory k belongs
      to track k + 1, has its class and one point for each of its hits, in rising frames;
      its points are, in order, the logged sights of that track; every logged detection
      carries the id and class of a track in the table; every track is in the log; and the
      hits add up to the log. */
  ghost predicate Agree(tracks: seq<Track>, store: seq<Trajectory>, log: seq<Detection>, frameNum: int)
  {
    && Numbered(tracks) && |store| == |tracks| && SumHits(tracks) == |log|
    && (forall k :: 0 <= k < |store| ==>
          store[k].trackId == k + 1 && InStep(store[k], tracks[k], frameNum))
    && (forall k :: 0 <= k < |store| ==> Sights(store[k].points) == Sightings(log, k + 1))
    && (forall d :: d in log ==>
          d.classId >= 0 && 1 <= d.trackId <= |tracks| && d.classId == tracks[d.trackId - 1].classId)
    && (forall id :: 1 <= id <= |tracks| ==> Logged(log, id))
  }

  ghost predicate Logged(log: seq<Detection>, id: int)
  {
    exists d :: d in log && d.trackId == id
  }

  lemma OneMoreRises(q: seq<Point>, p: seq<Point>, frame: int)
    requires OneMore(q, p, frame) && Rising(q, frame)
    ensures Rising(p, frame + 1)
  {
    forall i, j | 0 <= i < j < |p| ensures p[i].frame < p[j].frame {
      assert p[i] == p[..|q|][i];
      assert j < |q| ==> p[j] == p[..|q|][j];
    }
    forall i | 0 <= i < |p| ensures p[i].frame < frame + 1 {
      assert i < |q| ==> p[i] == p[..|q|][i];
    }
  }

  lemma RisingWeakens(p: seq<Point>, a: int, b: int)
    requires Rising(p, a) && a <= b
    ensures Rising(p, b)
  {
  }

  /** Trajectory k after a frame against track k after it. */
  ghost predicate InStep(t: Trajectory, r: Track, bound: int)
  {
    t.classId == r.classId && |t.points| == r.hits && Rising(t.points, bound)
  }

  lemma OldInStep(tracks: seq<Track>, store: seq<Trajectory>, config: TrackerConfig, dets: seq<Detection>,
                  t: Trajectory, frame: int, k: nat)
    requires k < |tracks| == |store| && InStep(store[k], tracks[k], frame)
    requires OldSlot(store[k], t, k in MatchAll(tracks, config, dets), frame)
    ensures k < |Advance(tracks, config, dets)| && InStep(t, Advance(tracks, config, dets)[k], frame + 1)
  {
    hide MatchAll, Advance, Rising, Unmatched;
    var m := MatchAll(tracks, config, dets);
    OldTrackAfter(tracks, config, dets, k);
    TableGrows(tracks, config, dets);
    if k in m {
      MatchedWereLive(tracks, config, dets, k);
      OneMoreRises(store[k].points, t.points, frame);
    } else {
      RisingWeakens(store[k].points, frame, frame + 1);
    }
  }

  lemma NewInStep(tracks: seq<Track>, store: seq<Trajectory>, config: TrackerConfig, dets: seq<Detection>,
                  now: seq<Trajectory>, frame: int, k: nat)
    requires |tracks| == |store| <= k < |now| == |Advance(tracks, config, dets)|
    requires forall e :: 0 <= e < |dets| && MatchAll(tracks, config, dets)[e] < 0 ==>
      NewSlot(store, dets, MatchAll(tracks, config, dets), now, frame, e)
    ensures InStep(now[k], Advance(tracks, config, dets)[k], frame + 1)
  {
    hide MatchAll, Advance, Rising, Unmatched;
    var e := NewTrackFrom(tracks, config, dets, k);
    assert NewSlot(store, dets, MatchAll(tracks, config, dets), now, frame, e);
    NothingRises(frame);
    OneMoreRises([], now[k].points, frame);
  }

  lemma StoreInStep(tracks: seq<Track>, store: seq<Trajectory>, config: TrackerConfig, dets: seq<Detection>,
                    now: seq<Trajectory>, frame: int)
    requires |store| == |tracks|
    requires forall i :: 0 <= i < |store| ==> InStep(store[i], tracks[i], frame)
    requires StoreAfter(store, dets, MatchAll(tracks, config, dets), now, frame, |dets|)
    ensures |now| == |Advance(tracks, config, dets)|
    ensures forall k :: 0 <= k < |now| ==> InStep(now[k], Advance(tracks, config, dets)[k], frame + 1)
  {
    hide MatchAll, Advance, InStep, OldSlot, NewSlot;
    var m := MatchAll(tracks, config, dets);
    assert m[..|m|] == m;
    TableGrows(tracks, config, dets);
    forall k | 0 <= k < |now| ensures InStep(now[k], Advance(tracks, config, dets)[k], frame + 1) {
      if k < |store| {
        OldInStep(tracks, store, config, dets, now[k], frame, k);
      } else {
        NewInStep(tracks, store, config, dets, now, frame, k);
      }
    }
  }

  lemma NothingRises(frame: int)
    ensures Rising([], frame)
  {
  }

  lemma {:induction false} TableGrows(tracks: seq<Track>, config: TrackerConfig, dets: seq<Detection>)
    ensures |Advance(tracks, config, dets)| == |tracks| + Unmatched(MatchAll(tracks, config, dets), |dets|)
  {
  }

  lemma LogAgrees(tracks: seq<Track>, config: TrackerConfig, dets: seq<Detection>, log: seq<Detection>)
    requires Numbered(tracks) && forall d :: d in dets ==> d.classId >= 0
    requires forall d :: d in log ==>
      d.classId >= 0 && 1 <= d.trackId <= |tracks| && d.classId == tracks[d.trackId - 1].classId
    ensures var r := Advance(tracks, config, dets);
      forall d :: d in log + Labelled(tracks, config, dets) ==>
        d.classId >= 0 && 1 <= d.trackId <= |r| && d.classId == r[d.trackId - 1].classId
  {
    hide MatchAll, Advance, Labelled;
    var r, named := Advance(tracks, config, dets), Labelled(tracks, config, dets);
    TableGrows(tracks, config, dets);
    forall d | d in log + named
      ensures d.classId >= 0 && 1 <= d.trackId <= |r| && d.classId == r[d.trackId - 1].classId
    {
      if d in log {
        ClassKept(tracks, config, dets, d.trackId - 1);
      } else {
        var i :| 0 <= i < |named| && named[i] == d;
        TrackOfDetection(tracks, config, dets, i);
        LabelKeepsClass(tracks, config, dets, i);
        assert dets[i] in dets;
      }
    }
  }

  lemma LabelKeepsClass(tracks: seq<Track>, config: TrackerConfig, dets: seq<Detection>, i: nat)
    requires i < |dets|
    ensures Labelled(tracks, config, dets)[i].classId == dets[i].classId
  {
  }

  lemma ClassKept(tracks: seq<Track>, config: TrackerConfig, dets: seq<Detection>, k: nat)
    requires k < |tracks|
    ensures k < |Advance(tracks, config, dets)| && Advance(tracks, config, dets)[k].classId == tracks[k].classId
  {
    hide MatchAll, Advance;
    OldTrackAfter(tracks, config, dets, k);
    MatchedWereLive(tracks, config, dets, k);
  }

  lemma EveryTrackLogged(tracks: seq<Track>, config: TrackerConfig, dets: seq<Detection>, log: seq<Detection>, k: nat)
    requires Numbered(tracks) && k < |Advance(tracks, config, dets)|
    requires forall id :: 1 <= id <= |tracks| ==> Logged(log, id)
    ensures Logged(log + Labelled(tracks, config, dets), k + 1)
  {
    hide MatchAll, Advance, Labelled;
    var named := Labelled(tracks, config, dets);
    if k < |tracks| {
      assert Logged(log, k + 1);
      var d :| d in log && d.trackId == k + 1;
      assert d in log + named;
    } else {
      var e := NewTrackFrom(tracks, config, dets, k);
      IdsOfFrame(tracks, config, dets, e);
      assert named[e] in log + named;
    }
  }

  /** One tracked frame keeps every account in step. */
  lemma FrameAgrees(math: Maths, tracks: seq<Track>, store: seq<Trajectory>, log: seq<Detection>, config: TrackerConfig,
                    dets: seq<Detection>, frame: int, timestamp: real)
    requires Agree(tracks, store, log, frame) && forall d :: d in dets ==> d.classId >= 0
    requires forall d :: d in dets ==> d.frame == frame && d.timestamp == timestamp
    ensures var named := Labelled(tracks, config, dets);
      Agree(Advance(tracks, config, dets), Followed(math, store, named, frame, timestamp), log + named, frame + 1)
  {
    hide MatchAll, Advance, Labelled, AllSighted, Measured, InStep, StoreAfter, Logged, Sights, PointsOf, Sightings;
    var r, named := Advance(tracks, config, dets), Labelled(tracks, config, dets);
    var now := AllSighted(math, store, named, frame, timestamp, |dets|);
    StoreFollowsTable(math, store, tracks, config, dets, frame, timestamp, |dets|);
    StoreSize(store, dets, MatchAll(tracks, config, dets), now, frame, |dets|);
    StoreInStep(tracks, store, config, dets, now, frame);
    NumberedAfter(tracks, config, dets);
    UpdateAddsHits(tracks, config, dets);
    LogAgrees(tracks, config, dets, log);
    assert named[..|dets|] == named;
    SightsAgree(store, now, log, named);
    forall id | 1 <= id <= |r| ensures Logged(log + named, id) {
      EveryTrackLogged(tracks, config, dets, log, id - 1);
    }
    var after := AllMeasured(math, now);
    forall k | 0 <= k < |after|
      ensures after[k].trackId == k + 1 && InStep(after[k], r[k], frame + 1)
      ensures Sights(after[k].points) == Sightings(log + named, k + 1)
    {
      MeasuringKeeps(math, now[k], r[k], frame + 1);
    }
  }

  lemma StampsKept(tracks: seq<Track>, config: TrackerConfig, dets: seq<Detection>, frame: int, timestamp: real)
    requires forall i :: 0 <= i < |dets| ==> dets[i].frame == frame && dets[i].timestamp == timestamp
    ensures forall d :: d in Labelled(tracks, config, dets) ==> d.frame == frame && d.timestamp == timestamp
  {
    hide MatchAll;
    var named := Labelled(tracks, config, dets);
    forall d | d in named ensures d.frame == frame && d.timestamp == timestamp {
      var i :| 0 <= i < |named| && named[i] == d;
    }
  }

  /** The points of every trajectory are still the logged sights of its track. */
  lemma {:induction false} SightsAgree(store: seq<Trajectory>, now: seq<Trajectory>, log: seq<Detection>,
      named: seq<Detection>)
    requires forall k :: 0 <= k < |store| ==>
      store[k].trackId == k + 1 && Sights(store[k].points) == Sightings(log, k + 1)
    requires forall k :: 0 <= k < |now| ==> now[k].trackId == k + 1
    requires forall d :: d in log ==> 1 <= d.trackId <= |store|
    requires |store| <= |now|
    requires forall id :: id > 0 ==> Sights(PointsOf(now, id)) == Sights(PointsOf(store, id)) + Sightings(named, id)
    ensures forall k :: 0 <= k < |now| ==> Sights(now[k].points) == Sightings(log + named, k + 1)
  {
    hide Sightings, SightOf;
    forall k | 0 <= k < |now| ensures Sights(now[k].points) == Sightings(log + named, k + 1) {
      SightingsConcat(log, named, k + 1);
      FindById(now, k + 1);
      if k < |store| {
        FindById(store, k + 1);
      } else {
        NeverSighted(log, k + 1);
        assert Find(store, k + 1) == |store|;
      }
    }
  }

  lemma NumberedAfter(tracks: seq<Track>, config: TrackerConfig, dets: seq<Detection>)
    requires Numbered(tracks)
    ensures Numbered(Advance(tracks, config, dets))
  {
    hide MatchAll, Advance;
    var r := Advance(tracks, config, dets);
    forall k | 0 <= k < |r| ensures r[k].trackId == k + 1 {
      if k < |tracks| {
        OldTrackAfter(tracks, config, dets, k);
        MatchedWereLive(tracks, config, dets, k);
      } else {
        var e := NewTrackFrom(tracks, config, dets, k);
      }
    }
  }

  lemma MeasuringKeeps(math: Maths, t: Trajectory, r: Track, bound: int)
    ensures Measured(math, t).trackId == t.trackId && Measured(math, t).points == t.points
    ensures InStep(t, r, bound) ==> InStep(Measured(math, t), r, bound)
  {
    hide SpeedSum, SpeedCount, SpeedMax, Distance, Average;
  }

  // ----- conclusions -----

  function IdsTo(n: nat): set<int>
  {
    if n == 0 then {} else IdsTo(n - 1) + {n}
  }

  lemma {:induction false} IdsToIs(n: nat)
    ensures |IdsTo(n)| == n
    ensures forall k :: k in IdsTo(n) <==> 1 <= k <= n
  {
    if n > 0 {
      IdsToIs(n - 1);
    }
  }

  /** The catalog counts as many different objects as the tracker made. */
  lemma CatalogCountsTracks(tracks: seq<Track>, store: seq<Trajectory>, log: seq<Detection>, frameNum: int)
    requires Agree(tracks, store, log, frameNum)
    ensures SumUnique(CatalogOf(log)) == |tracks| == |store|
  {
    hide InStep, CatalogOf, SumUnique;
    UniqueAddUp(log);
    IdsToIs(|tracks|);
    var seen := set d | d in log && d.trackId > 0 :: d.trackId;
    forall k | k in IdsTo(|tracks|) ensures k in seen {
      assert Logged(log, k);
    }
    assert seen == IdsTo(|tracks|);
  }

  /** Class by class, the catalog counts exactly the tracks of that class. */
  lemma ClassCountsTracks(tracks: seq<Track>, store: seq<Trajectory>, log: seq<Detection>, frameNum: int, c: int)
    requires Agree(tracks, store, log, frameNum)
    ensures EntryOf(log, c).totalUniqueTracks == |set t | t in tracks && t.classId == c :: t.trackId|
  {
    hide InStep, Sights, Sightings, CountOf, FirstSeen, LastSeen;
    var ids := set t | t in tracks && t.classId == c :: t.trackId;
    forall id | id in ids ensures id in TracksOf(log, c) {
      var t :| t in tracks && t.classId == c && t.trackId == id;
      var k :| 0 <= k < |tracks| && tracks[k] == t;
      assert Logged(log, id);
      var d :| d in log && d.trackId == id;
    }
    forall id | id in TracksOf(log, c) ensures id in ids {
      assert tracks[id - 1] in tracks;
    }
    assert TracksOf(log, c) == ids;
  }

  function SumPoints(store: seq<Trajectory>): int
  {
    if store == [] then 0 else SumPoints(store[..|store| - 1]) + |store[|store| - 1].points|
  }

  lemma {:induction false} PointsAreHits(tracks: seq<Track>, store: seq<Trajectory>)
    requires |store| == |tracks| && forall k :: 0 <= k < |store| ==> |store[k].points| == tracks[k].hits
    ensures SumPoints(store) == SumHits(tracks)
  {
    if store != [] {
      PointsAreHits(tracks[..|tracks| - 1], store[..|store| - 1]);
    }
  }
}
