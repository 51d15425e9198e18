/** Greedy matching of detections to tracks, and what one update does to the track
    table, as functions of the table before it. */
module Tracking {
  import opened Types
  import opened Geometry

  datatype Track = Track(
    trackId: int,
    classId: int,
    bbox: BBox,
    confidence: real,
    age: int,
    hits: int,
    active: bool)

  /** minHits is carried along but never consulted. */
  datatype TrackerConfig = TrackerConfig(iouThreshold: real, maxAge: int, minHits: int)

  // ----- matching -----

  /** Track t may still take the detection: alive, of its class, not yet matched. */
  predicate Open(tracks: seq<Track>, taken: seq<int>, det: Detection, t: nat)
    requires t < |tracks|
  {
    tracks[t].active && t !in taken && tracks[t].classId == det.classId
  }

  function MatchScore(tracks: seq<Track>, det: Detection, t: nat): real
    requires t < |tracks|
  {
    Iou(tracks[t].bbox, det.bbox)
  }

  /** The running choice after looking at the first n tracks, -1 for none. */
  function Best(tracks: seq<Track>, taken: seq<int>, det: Detection, thr: real, n: nat): (b: int)
    requires n <= |tracks|
    ensures -1 <= b < n
  {
    if n == 0 then -1
    else
      var b := Best(tracks, taken, det, thr, n - 1);
      if Open(tracks, taken, det, n - 1)
         && MatchScore(tracks, det, n - 1) > (if b >= 0 then MatchScore(tracks, det, b) else thr)
      then n - 1 else b
  }

  /** For each of the first d detections, the index of its track or -1. */
  function Matches(tracks: seq<Track>, dets: seq<Detection>, thr: real, d: nat): (m: seq<int>)
    requires d <= |dets|
    ensures |m| == d
    ensures forall e :: 0 <= e < d ==> -1 <= m[e] < |tracks|
  {
    if d == 0 then []
    else
      var m := Matches(tracks, dets, thr, d - 1);
      m + [Best(tracks, m, dets[d - 1], thr, |tracks|)]
  }

  /** b is the track with the highest overlap above the threshold among the live tracks of
      the detection's class that are not yet matched, the lowest index among equals; -1
      exactly when none of them is above the threshold. */
  ghost predicate IsBest(tracks: seq<Track>, taken: seq<int>, det: Detection, thr: real, n: nat, b: int)
    requires n <= |tracks|
  {
    if b < 0 then
      b == -1 && forall t :: 0 <= t < n && tracks[t].active && t !in taken && tracks[t].classId == det.classId ==>
        Iou(tracks[t].bbox, det.bbox) <= thr
    else
      && b < n && tracks[b].active && b !in taken && tracks[b].classId == det.classId
      && Iou(tracks[b].bbox, det.bbox) > thr
      && (forall t :: 0 <= t < n && tracks[t].active && t !in taken && tracks[t].classId == det.classId ==>
            Iou(tracks[t].bbox, det.bbox) <= Iou(tracks[b].bbox, det.bbox))
      && (forall t :: 0 <= t < b && tracks[t].active && t !in taken && tracks[t].classId == det.classId ==>
            Iou(tracks[t].bbox, det.bbox) < Iou(tracks[b].bbox, det.bbox))
  }

  lemma {:induction false} BestIsBest(tracks: seq<Track>, taken: seq<int>, det: Detection, thr: real, n: nat)
    requires n <= |tracks|
    ensures IsBest(tracks, taken, det, thr, n, Best(tracks, taken, det, thr, n))
  {
    hide Iou;
    if n > 0 {
      BestIsBest(tracks, taken, det, thr, n - 1);
    }
  }

  lemma {:induction false} MatchesPrefix(tracks: seq<Track>, dets: seq<Detection>, thr: real, d: nat, n: nat)
    requires d <= n <= |dets|
    ensures Matches(tracks, dets, thr, n)[..d] == Matches(tracks, dets, thr, d)
  {
    if d < n {
      MatchesPrefix(tracks, dets, thr, d, n - 1);
    }
  }

  lemma {:induction false} MatchAt(tracks: seq<Track>, dets: seq<Detection>, thr: real, d: nat)
    requires d < |dets|
    ensures var m := Matches(tracks, dets, thr, |dets|);
      m[d] == Best(tracks, m[..d], dets[d], thr, |tracks|)
      && IsBest(tracks, m[..d], dets[d], thr, |tracks|, m[d])
  {
    hide Best, IsBest;
    MatchesPrefix(tracks, dets, thr, d, |dets|);
    MatchesPrefix(tracks, dets, thr, d + 1, |dets|);
    assert Matches(tracks, dets, thr, |dets|)[..d + 1][d] == Matches(tracks, dets, thr, |dets|)[d];
    BestIsBest(tracks, Matches(tracks, dets, thr, d), dets[d], thr, |tracks|);
  }

  /** The matching theorem, measured on the boxes before the update: the match is
      injective and keeps classes; every detection gets the best track left to it; and
      no unmatched detection overlaps an unmatched live track of its class above the
      threshold. */
  lemma {:induction false} GreedyMatching(tracks: seq<Track>, dets: seq<Detection>, thr: real)
    ensures var m := Matches(tracks, dets, thr, |dets|);
      && (forall d, e :: 0 <= d < e < |dets| && m[d] >= 0 ==> m[d] != m[e])
      && (forall d :: 0 <= d < |dets| && m[d] >= 0 ==>
            tracks[m[d]].active && tracks[m[d]].classId == dets[d].classId)
      && (forall d :: 0 <= d < |dets| ==> IsBest(tracks, m[..d], dets[d], thr, |tracks|, m[d]))
      && (forall d, t | 0 <= d < |dets| && 0 <= t < |tracks| && m[d] == -1 && t !in m
            && tracks[t].active && tracks[t].classId == dets[d].classId :: Iou(tracks[t].bbox, dets[d].bbox) <= thr)
  {
    var m := Matches(tracks, dets, thr, |dets|);
    forall d | 0 <= d < |dets| ensures IsBest(tracks, m[..d], dets[d], thr, |tracks|, m[d]) {
      MatchAt(tracks, dets, thr, d);
    }
    forall d, e | 0 <= d < e < |dets| && m[d] >= 0 ensures m[d] != m[e] {
      assert m[..e][d] == m[d];
    }
    forall d, t | 0 <= d < |dets| && 0 <= t < |tracks| && m[d] == -1 && t !in m
      && tracks[t].active && tracks[t].classId == dets[d].classId
      ensures Iou(tracks[t].bbox, dets[d].bbox) <= thr
    {
      assert IsBest(tracks, m[..d], dets[d], thr, |tracks|, m[d]);
    }
  }

  // ----- one update of the table -----

  function Hit(t: Track, det: Detection): Track
  {
    t.(bbox := det.bbox, confidence := det.confidence, age := 0, hits := t.hits + 1)
  }

  function Older(t: Track, maxAge: int): Track
  {
    t.(age := t.age + 1, active := t.active && t.age + 1 <= maxAge)
  }

  function Born(id: int, det: Detection): Track
  {
    Track(id, det.classId, det.bbox, det.confidence, 0, 1, true)
  }

  ghost predicate MatchOf(n: nat, m: seq<int>)
  {
    && (forall e :: 0 <= e < |m| ==> -1 <= m[e] < n)
    && (forall d, e :: 0 <= d < e < |m| && m[d] >= 0 ==> m[d] != m[e])
  }

  function Hits(tracks: seq<Track>, dets: seq<Detection>, m: seq<int>, d: nat): (r: seq<Track>)
    requires d <= |m| <= |dets| && forall e :: 0 <= e < |m| ==> m[e] < |tracks|
    ensures |r| == |tracks|
  {
    if d == 0 then tracks
    else
      var r := Hits(tracks, dets, m, d - 1);
      if m[d - 1] >= 0 then r[m[d - 1] := Hit(r[m[d - 1]], dets[d - 1])] else r
  }

  /** The first n tracks of a table, aged where they are live and unmatched. */
  function Aged(tracks: seq<Track>, m: seq<int>, maxAge: int, n: nat): (r: seq<Track>)
    requires n <= |tracks|
    ensures |r| == |tracks|
    ensures forall t :: 0 <= t < |r| ==>
      r[t] == if t < n && tracks[t].active && t !in m then Older(tracks[t], maxAge) else tracks[t]
  {
    seq(|tracks|, t requires 0 <= t < |tracks| =>
      if t < n && tracks[t].active && t !in m then Older(tracks[t], maxAge) else tracks[t])
  }

  /** How many of the first d detections found no track. */
  function Unmatched(m: seq<int>, d: nat): nat
    requires d <= |m|
  {
    if d == 0 then 0 else Unmatched(m, d - 1) + if m[d - 1] < 0 then 1 else 0
  }

  function Births(dets: seq<Detection>, m: seq<int>, nextId: int, d: nat): (r: seq<Track>)
    requires d <= |m| <= |dets|
    ensures |r| == Unmatched(m, d)
  {
    if d == 0 then []
    else
      var r := Births(dets, m, nextId, d - 1);
      if m[d - 1] < 0 then r + [Born(nextId + |r|, dets[d - 1])] else r
  }

  function MatchAll(tracks: seq<Track>, config: TrackerConfig, dets: seq<Detection>): (m: seq<int>)
    ensures |m| == |dets| && MatchOf(|tracks|, m)
  {
    GreedyMatching(tracks, dets, config.iouThreshold);
    Matches(tracks, dets, config.iouThreshold, |dets|)
  }

  /** The whole table after an update; ids are handed out from |tracks| + 1. */
  function Advance(tracks: seq<Track>, config: TrackerConfig, dets: seq<Detection>): (r: seq<Track>)
  {
    var m := MatchAll(tracks, config, dets);
    Aged(Hits(tracks, dets, m, |m|), m, config.maxAge, |tracks|) + Births(dets, m, |tracks| + 1, |m|)
  }

  /** The id the d-th detection leaves with. */
  function IdFor(tracks: seq<Track>, m: seq<int>, d: nat): int
    requires d < |m| && m[d] < |tracks|
  {
    if m[d] >= 0 then tracks[m[d]].trackId else |tracks| + 1 + Unmatched(m, d)
  }

  function Labelled(tracks: seq<Track>, config: TrackerConfig, dets: seq<Detection>): (r: seq<Detection>)
    ensures |r| == |dets|
  {
    var m := MatchAll(tracks, config, dets);
    seq(|dets|, d requires 0 <= d < |dets| => dets[d].(trackId := IdFor(tracks, m, d)))
  }

  // ----- pointwise readings -----

  lemma {:induction false} HitsAt(tracks: seq<Track>, dets: seq<Detection>, m: seq<int>, d: nat, t: nat)
    requires d <= |m| <= |dets| && MatchOf(|tracks|, m) && t < |tracks|
    ensures t !in m[..d] ==> Hits(tracks, dets, m, d)[t] == tracks[t]
    ensures forall e :: 0 <= e < d && m[e] == t ==> Hits(tracks, dets, m, d)[t] == Hit(tracks[t], dets[e])
  {
    if d > 0 {
      HitsAt(tracks, dets, m, d - 1, t);
      assert m[..d] == m[..d - 1] + [m[d - 1]];
    }
  }

  lemma {:induction false} UnmatchedMonotone(m: seq<int>, d: nat, e: nat)
    requires d <= e <= |m|
    ensures Unmatched(m, d) <= Unmatched(m, e)
    ensures d < e && m[d] < 0 ==> Unmatched(m, d) < Unmatched(m, e)
  {
    if d < e {
      UnmatchedMonotone(m, d, e - 1);
    }
  }

  lemma {:induction false} BirthAt(dets: seq<Detection>, m: seq<int>, nextId: int, d: nat, e: nat)
    requires e < d <= |m| <= |dets| && m[e] < 0
    ensures Unmatched(m, e) < |Births(dets, m, nextId, d)|
    ensures Births(dets, m, nextId, d)[Unmatched(m, e)] == Born(nextId + Unmatched(m, e), dets[e])
  {
    UnmatchedMonotone(m, e, d);
    if e < d - 1 {
      BirthAt(dets, m, nextId, d - 1, e);
    }
  }

  /** Every new track was started by some detection. */
  lemma BirthFrom(dets: seq<Detection>, m: seq<int>, nextId: int, d: nat, k: nat) returns (e: nat)
    requires d <= |m| <= |dets| && k < |Births(dets, m, nextId, d)|
    ensures e < d && m[e] < 0 && Unmatched(m, e) == k
    ensures Births(dets, m, nextId, d)[k] == Born(nextId + k, dets[e])
  {
    var r := Births(dets, m, nextId, d - 1);
    if k < |r| {
      e := BirthFrom(dets, m, nextId, d - 1, k);
    } else {
      e := d - 1;
    }
  }

  // ----- the table invariant -----

  function CountActive(tracks: seq<Track>): nat
  {
    if tracks == [] then 0
    else CountActive(tracks[..|tracks| - 1]) + if tracks[|tracks| - 1].active then 1 else 0
  }

  lemma {:induction false} CountActiveConcat(a: seq<Track>, b: seq<Track>)
    ensures CountActive(a + b) == CountActive(a) + CountActive(b)
  {
    if b == [] {
      assert a + b == a;
    } else {
      assert (a + b)[..|a + b| - 1] == a + b[..|b| - 1];
      CountActiveConcat(a, b[..|b| - 1]);
    }
  }

  lemma CountActiveSet(s: seq<Track>, t: nat, x: Track)
    requires t < |s|
    ensures CountActive(s[t := x])
         == CountActive(s) - (if s[t].active then 1 else 0) + (if x.active then 1 else 0)
  {
    var front, back := s[..t], s[t + 1..];
    assert s == front + [s[t]] + back;
    assert s[t := x] == front + [x] + back;
    CountActiveConcat(front + [s[t]], back);
    CountActiveConcat(front + [x], back);
    CountActiveOne(front, s[t]);
    CountActiveOne(front, x);
  }

  lemma {:induction false} CountActiveOne(s: seq<Track>, x: Track)
    ensures CountActive(s + [x]) == CountActive(s) + if x.active then 1 else 0
  {
    assert (s + [x])[..|s|] == s;
  }

  function SumHits(tracks: seq<Track>): int
  {
    if tracks == [] then 0 else SumHits(tracks[..|tracks| - 1]) + tracks[|tracks| - 1].hits
  }

  ghost predicate Numbered(tracks: seq<Track>)
  {
    forall k :: 0 <= k < |tracks| ==> tracks[k].trackId == k + 1
  }

  /** How old a track gets: a negative limit retires a track no sooner than at its first
      miss, as a limit of zero does. */
  function Lifetime(maxAge: int): nat { if maxAge > 0 then maxAge else 0 }

  /** Live tracks are within the age limit; a dead one is frozen at the age it died. */
  ghost predicate AgesRight(tracks: seq<Track>, maxAge: int)
  {
    forall k :: 0 <= k < |tracks| ==>
      if tracks[k].active then 0 <= tracks[k].age <= Lifetime(maxAge) else tracks[k].age == Lifetime(maxAge) + 1
  }
}
