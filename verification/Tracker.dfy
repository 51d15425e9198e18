/** The tracker object: a table of tracks that only grows, updated in place. */
module TrackerModule {
  import opened Types
  import opened Geometry
  import opened Tracking

  class Tracker {
    const config: TrackerConfig
    var tracks: seq<Track>
    var nextId: int
    var activeCount: int

    ghost predicate Valid()
      reads this
    {
      nextId == |tracks| + 1 && activeCount == CountActive(tracks)
    }

    constructor (config: TrackerConfig)
      ensures Valid() && tracks == [] && this.config == config
    {
      this.config := config;
      tracks := [];
      nextId := 1;
      activeCount := 0;
    }

    /** One scan of the table for the best open track. */
    method FindBest(det: Detection, trkMatched: array<bool>, ghost before: seq<Track>, ghost taken: seq<int>)
      returns (bestTrk: int)
      requires |before| == |tracks| == trkMatched.Length
      requires forall t :: 0 <= t < |tracks| ==> (trkMatched[t] <==> t in taken)
      requires forall t :: 0 <= t < |tracks| ==> SameSlot(before[t], tracks[t], t in taken)
      ensures bestTrk == Best(before, taken, det, config.iouThreshold, |before|)
    {
      hide Iou;
      var bestIou := config.iouThreshold;
      bestTrk := -1;
      for t := 0 to |tracks|
        invariant bestTrk == Best(before, taken, det, config.iouThreshold, t)
        invariant bestIou == if bestTrk >= 0 then Tracking.MatchScore(before, det, bestTrk) else config.iouThreshold
      {
        assert SameSlot(before[t], tracks[t], t in taken);
        if tracks[t].active && !trkMatched[t] && tracks[t].classId == det.classId {
          var score := Iou(tracks[t].bbox, det.bbox);
          if score > bestIou {
            bestIou := score;
            bestTrk := t;
          }
        }
      }
    }

    /** Matches every detection in turn, updating the tracks that are hit. */
    method MatchDetections(detections: DetectionList, detMatched: array<bool>, trkMatched: array<bool>,
        ghost m: seq<int>)
      requires detMatched != trkMatched
      requires detMatched.Length == |detections.items| && trkMatched.Length == |tracks|
      requires forall d :: 0 <= d < detMatched.Length ==> !detMatched[d]
      requires forall t :: 0 <= t < trkMatched.Length ==> !trkMatched[t]
      requires Valid() && m == MatchAll(tracks, config, detections.items)
      modifies this`tracks, detections, detMatched, trkMatched
      ensures Valid() && tracks == Hits(old(tracks), old(detections.items), m, |m|)
      ensures forall d :: 0 <= d < |m| ==> (detMatched[d] <==> m[d] >= 0)
      ensures forall t :: 0 <= t < |tracks| ==> (trkMatched[t] <==> t in m)
      ensures detections.items == PartlyLabelled(old(tracks), old(detections.items), m, |m|, 0)
    {
      hide Best, Iou, Hits, Matches, PartlyLabelled, CountActive;
      ghost var before, dets := tracks, detections.items;
      Unlabelled(before, dets, m);
      for d := 0 to |detections.items|
        invariant tracks == Hits(before, dets, m, d) && CountActive(tracks) == activeCount
        invariant detections.items == PartlyLabelled(before, dets, m, d, 0)
        invariant forall e :: 0 <= e < |dets| ==> (detMatched[e] <==> e < d && m[e] >= 0)
        invariant forall t :: 0 <= t < |before| ==> (trkMatched[t] <==> t in m[..d])
      {
        SlotsKept(before, dets, m, d);
        LabelStep(before, dets, m, d);
        var bestTrk := FindBest(detections.items[d], trkMatched, before, m[..d]);
        MatchAt(before, dets, config.iouThreshold, d);
        assert m[..d + 1] == m[..d] + [m[d]];
        if bestTrk >= 0 {
          HitsStep(before, dets, m, d);
          CountActiveSet(tracks, bestTrk, Hit(tracks[bestTrk], detections.items[d]));
          tracks := tracks[bestTrk := Hit(tracks[bestTrk], detections.items[d])];
          trkMatched[bestTrk] := true;
          detMatched[d] := true;
          detections.items := detections.items[d := detections.items[d].(trackId := tracks[bestTrk].trackId)];
        } else {
          HitsStep(before, dets, m, d);
        }
      }
      assert m[..|m|] == m;
    }

    /** Ages every live track that was not matched and retires those past the limit. */
    method AgeTracks(trkMatched: array<bool>, ghost m: seq<int>)
      requires Valid() && trkMatched.Length == |tracks|
      requires forall t :: 0 <= t < |tracks| ==> (trkMatched[t] <==> t in m)
      modifies this`tracks, this`activeCount
      ensures Valid() && tracks == Aged(old(tracks), m, config.maxAge, |old(tracks)|)
    {
      hide CountActive;
      ghost var hit := tracks;
      for t := 0 to |tracks|
        invariant tracks == Aged(hit, m, config.maxAge, t)
        invariant CountActive(tracks) == activeCount
      {
        if tracks[t].active && !trkMatched[t] {
          CountActiveSet(tracks, t, Older(tracks[t], config.maxAge));
          var age := tracks[t].age + 1;
          if age > config.maxAge {
            tracks := tracks[t := tracks[t].(age := age, active := false)];
            activeCount := activeCount - 1;
          } else {
            tracks := tracks[t := tracks[t].(age := age)];
          }
        }
        assert tracks == Aged(hit, m, config.maxAge, t + 1);
      }
    }

    /** Starts a track for every detection left unmatched and names it after the track. */
    method StartTracks(detections: DetectionList, detMatched: array<bool>, ghost before: seq<Track>,
                       ghost dets: seq<Detection>, ghost m: seq<int>)
      requires Valid() && |before| == |tracks|
      requires |m| == |dets| == detMatched.Length && MatchOf(|before|, m)
      requires forall d :: 0 <= d < |m| ==> (detMatched[d] <==> m[d] >= 0)
      requires detections.items == PartlyLabelled(before, dets, m, |m|, 0)
      modifies this, detections
      ensures Valid() && tracks == old(tracks) + Births(dets, m, |before| + 1, |m|)
      ensures detections.items == PartlyLabelled(before, dets, m, |m|, |m|)
    {
      hide PartlyLabelled, CountActive, Births;
      ghost var aged, born := tracks, [];
      NoBirths(dets, m, |before| + 1);
      for d := 0 to |detections.items|
        invariant born == Births(dets, m, |before| + 1, d) && |born| == Unmatched(m, d)
        invariant tracks == aged + born && nextId == |tracks| + 1
        invariant CountActive(tracks) == activeCount
        invariant detections.items == PartlyLabelled(before, dets, m, |m|, d)
      {
        BirthStep(before, dets, m, d);
        if !detMatched[d] {
          var newTrack := Born(nextId, detections.items[d]);
          nextId := nextId + 1;
          CountActiveOne(tracks, newTrack);
          born := born + [newTrack];
          tracks := tracks + [newTrack];
          activeCount := activeCount + 1;
          detections.items := detections.items[d := detections.items[d].(trackId := newTrack.trackId)];
        }
      }
    }

    /** One frame: match, age, start; returns the number of live tracks. */
    method Update(detections: DetectionList) returns (active: int)
      requires Valid()
      modifies this, detections
      ensures Valid() && active == CountActive(tracks)
      ensures tracks == Advance(old(tracks), config, old(detections.items))
      ensures detections.items == Labelled(old(tracks), config, old(detections.items))
    {
      hide CountActive, Hits, Births, MatchAll;
      ghost var before, dets := tracks, detections.items;
      ghost var m := MatchAll(before, config, dets);
      var detMatched := new bool[|detections.items|](_ => false);
      var trkMatched := new bool[|tracks|](_ => false);
      MatchDetections(detections, detMatched, trkMatched, m);
      AgeTracks(trkMatched, m);
      StartTracks(detections, detMatched, before, dets, m);
      FullyLabelled(before, config, dets, m);
      active := activeCount;
    }

    function TotalTracks(): (n: int)
      requires Valid()
      reads this
      ensures n == |tracks|
    {
      nextId - 1
    }

    method Reset()
      modifies this
      ensures Valid() && tracks == []
    {
      tracks := [];
      activeCount := 0;
      nextId := 1;
    }
  }

  /** A slot of the table while matching runs: its box changes only when it is hit. */
  ghost predicate SameSlot(was: Track, now: Track, matched: bool)
  {
    && was.active == now.active && was.classId == now.classId && was.trackId == now.trackId
    && (!matched ==> was.bbox == now.bbox)
  }

  /** Labels while an update is under way: matched detections among the first d, and
      unmatched ones among the first b. */
  function PartlyLabelled(tracks: seq<Track>, dets: seq<Detection>, m: seq<int>, d: nat, b: nat): (r: seq<Detection>)
    requires |m| == |dets| && forall e :: 0 <= e < |m| ==> m[e] < |tracks|
    ensures |r| == |dets|
  {
    seq(|dets|, e requires 0 <= e < |dets| =>
      if (e < d && m[e] >= 0) || (e < b && m[e] < 0) then dets[e].(trackId := IdFor(tracks, m, e)) else dets[e])
  }

  lemma {:induction false} Unlabelled(tracks: seq<Track>, dets: seq<Detection>, m: seq<int>)
    requires |m| == |dets| && MatchOf(|tracks|, m)
    ensures PartlyLabelled(tracks, dets, m, 0, 0) == dets
    ensures Hits(tracks, dets, m, 0) == tracks
  {
  }

  lemma LabelStep(tracks: seq<Track>, dets: seq<Detection>, m: seq<int>, d: nat)
    requires |m| == |dets| && MatchOf(|tracks|, m) && d < |dets|
    ensures var now := PartlyLabelled(tracks, dets, m, d, 0);
      now[d] == dets[d]
      && PartlyLabelled(tracks, dets, m, d + 1, 0)
         == if m[d] >= 0 then now[d := dets[d].(trackId := tracks[m[d]].trackId)] else now
  {
  }

  lemma {:induction false} HitsStep(tracks: seq<Track>, dets: seq<Detection>, m: seq<int>, d: nat)
    requires |m| == |dets| && MatchOf(|tracks|, m) && d < |dets|
    ensures var now := Hits(tracks, dets, m, d);
      Hits(tracks, dets, m, d + 1) == if m[d] >= 0 then now[m[d] := Hit(now[m[d]], dets[d])] else now
  {
  }

  lemma {:induction false} SlotsKept(tracks: seq<Track>, dets: seq<Detection>, m: seq<int>, d: nat)
    requires |m| == |dets| && MatchOf(|tracks|, m) && d <= |dets|
    ensures forall t :: 0 <= t < |tracks| ==> SameSlot(tracks[t], Hits(tracks, dets, m, d)[t], t in m[..d])
  {
    forall t | 0 <= t < |tracks| ensures SameSlot(tracks[t], Hits(tracks, dets, m, d)[t], t in m[..d]) {
      HitsAt(tracks, dets, m, d, t);
      if t in m[..d] {
        var e :| 0 <= e < d && m[e] == t;
      }
    }
  }

  lemma {:induction false} NoBirths(dets: seq<Detection>, m: seq<int>, nextId: int)
    requires |m| == |dets|
    ensures Births(dets, m, nextId, 0) == []
  {
  }

  lemma BirthStep(tracks: seq<Track>, dets: seq<Detection>, m: seq<int>, d: nat)
    requires |m| == |dets| && MatchOf(|tracks|, m) && d < |dets|
    ensures var now, born := PartlyLabelled(tracks, dets, m, |m|, d), Births(dets, m, |tracks| + 1, d);
      var id := |tracks| + 1 + |born|;
      && |born| == Unmatched(m, d)
      && Births(dets, m, |tracks| + 1, d + 1) == (if m[d] < 0 then born + [Born(id, dets[d])] else born)
      && (m[d] < 0 ==> now[d] == dets[d])
      && PartlyLabelled(tracks, dets, m, |m|, d + 1)
         == if m[d] < 0 then now[d := dets[d].(trackId := id)] else now
  {
  }

  lemma FullyLabelled(tracks: seq<Track>, config: TrackerConfig, dets: seq<Detection>, m: seq<int>)
    requires m == MatchAll(tracks, config, dets)
    ensures PartlyLabelled(tracks, dets, m, |m|, |m|) == Labelled(tracks, config, dets)
  {
  }
}
