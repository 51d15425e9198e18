/** The trajectory builder object. */
module TrajectoryBuilderModule {
  import opened Types
  import opened Trajectories

  class TrajectoryBuilder {
    const math: Maths
    var store: seq<Trajectory>

    constructor (math: Maths)
      ensures store == [] && this.math == math
    {
      this.math := math;
      store := [];
    }

    /** Index of the trajectory of a track, created empty if there is none. */
    method FindOrCreate(det: Detection) returns (i: nat)
      modifies this
      ensures i == Find(old(store), det.trackId)
      ensures store == WithTrack(old(store), det) && i < |store|
    {
      i := 0;
      while i < |store|
        invariant i <= |store| && FindFrom(store, det.trackId, i) == Find(store, det.trackId)
      {
        if store[i].trackId == det.trackId {
          return;
        }
        i := i + 1;
      }
      store := store + [Trajectory(det.trackId, det.classId, [], 0.0, 0.0, 0.0, false)];
    }

    method Update(detections: DetectionList, frame: int, timestamp: real)
      modifies this
      ensures store == AllSighted(math, old(store), detections.items, frame, timestamp, |detections.items|)
    {
      hide Extended, Find, WithTrack;
      for d := 0 to |detections.items|
        invariant store == AllSighted(math, old(store), detections.items, frame, timestamp, d)
      {
        var det := detections.items[d];
        if det.trackId > 0 {
          WithTrackHolds(store, det);
          var i := FindOrCreate(det);
          var pt := Resting(det, frame, timestamp);
          AddPoint(i, pt);
        }
      }
    }

    /** Appends a point, with its motion seen from the last one. */
    method AddPoint(i: nat, pt: Point)
      requires i < |store|
      modifies this
      ensures store == old(store)[i := old(store[i]).(points := Extended(math, old(store[i].points), pt))]
    {
      var points := store[i].points;
      var seen := pt;
      if |points| > 0 {
        var prev := points[|points| - 1];
        var dtMs := pt.timestamp - prev.timestamp;
        if dtMs > 0.0 {
          seen := Moving(math, prev, pt);
        }
      }
      store := store[i := store[i].(points := points + [seen])];
    }

    /** Recomputes the summary figures of every trajectory. */
    method ComputeMetrics()
      modifies this
      ensures store == AllMeasured(math, old(store))
    {
      ghost var before := store;
      for i := 0 to |store|
        invariant |store| == |before|
        invariant forall k :: 0 <= k < i ==> store[k] == Measured(math, before[k])
        invariant forall k :: i <= k < |store| ==> store[k] == before[k]
      {
        hide Measured;
        var measured := MeasureOne(store[i]);
        store := store[i := measured];
      }
    }

    method MeasureOne(t: Trajectory) returns (r: Trajectory)
      ensures r == Measured(math, t)
    {
      hide Norm, Average;
      if |t.points| < 2 {
        return t.(isStationary := true);
      }
      var sumSpeed, maxSpeed, totalDist, speedCount := 0.0, 0.0, 0.0, 0;
      for j := 1 to |t.points|
        invariant sumSpeed == SpeedSum(t.points, j) && speedCount == SpeedCount(t.points, j)
        invariant maxSpeed == SpeedMax(t.points, j) && maxSpeed >= 0.0
        invariant totalDist == Distance(math, t.points, j)
      {
        var pt, prev := t.points[j], t.points[j - 1];
        totalDist := totalDist + Norm(math, pt.cx - prev.cx, pt.cy - prev.cy);
        if pt.speed > 0.0 {
          sumSpeed := sumSpeed + pt.speed;
          speedCount := speedCount + 1;
          if pt.speed > maxSpeed {
            maxSpeed := pt.speed;
          }
        }
      }
      var avg := Average(sumSpeed, speedCount);
      r := t.(avgSpeed := avg, maxSpeed := maxSpeed, totalDistance := totalDist,
              isStationary := avg < 3.0 && totalDist < 20.0);
    }

    method Get(trackId: int) returns (r: Option<Trajectory>)
      ensures r == if Find(store, trackId) < |store| then Some(store[Find(store, trackId)]) else None
    {
      for i := 0 to |store|
        invariant FindFrom(store, trackId, i) == Find(store, trackId)
      {
        if store[i].trackId == trackId {
          return Some(store[i]);
        }
      }
      r := None;
    }

    method Reset()
      modifies this
      ensures store == []
    {
      store := [];
    }
  }
}
