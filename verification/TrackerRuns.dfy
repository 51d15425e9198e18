/** What every sequence of updates and resets keeps, and how one update renames the
    detections of a frame. */
module TrackerRuns {
  import opened Types
  import opened Sequences
  import opened Tracking

  // ----- pointwise effect of an update -----

  lemma OldTrackAfter(tracks: seq<Track>, config: TrackerConfig, dets: seq<Detection>, t: nat)
    requires t < |tracks|
    ensures var m, r := MatchAll(tracks, config, dets), Advance(tracks, config, dets);
      && |r| == |tracks| + Unmatched(m, |m|)
      && (forall e :: 0 <= e < |m| && m[e] == t ==> r[t] == Hit(tracks[t], dets[e]))
      && (t !in m ==> r[t] == if tracks[t].active then Older(tracks[t], config.maxAge) else tracks[t])
  {
    hide MatchAll, Hits, Births;
    var m := MatchAll(tracks, config, dets);
    assert m[..|m|] == m;
    HitsAt(tracks, dets, m, |m|, t);
  }

  lemma {:induction false} NewTrackAfter(tracks: seq<Track>, config: TrackerConfig, dets: seq<Detection>, e: nat)
    requires e < |dets| && MatchAll(tracks, config, dets)[e] < 0
    ensures var m, r := MatchAll(tracks, config, dets), Advance(tracks, config, dets);
      var k := |tracks| + Unmatched(m, e);
      k < |r| && r[k] == Born(k + 1, dets[e])
  {
    hide MatchAll, Hits, Births;
    hide Unmatched, Born, Aged;
    var m := MatchAll(tracks, config, dets);
    BirthAt(dets, m, |tracks| + 1, |m|, e);
    var aged, born := Aged(Hits(tracks, dets, m, |m|), m, config.maxAge, |tracks|), Births(dets, m, |tracks| + 1, |m|);
    AppendedAt(aged, born, Unmatched(m, e));
  }

  lemma AppendedAt(a: seq<Track>, b: seq<Track>, k: nat)
    requires k < |b|
    ensures |a| + k < |a + b| && (a + b)[|a| + k] == b[k]
  {
  }

  lemma NewTrackFrom(tracks: seq<Track>, config: TrackerConfig, dets: seq<Detection>, k: nat) returns (e: nat)
    requires |tracks| <= k < |Advance(tracks, config, dets)|
    ensures var m := MatchAll(tracks, config, dets);
      e < |dets| && m[e] < 0 && k == |tracks| + Unmatched(m, e)
    ensures Advance(tracks, config, dets)[k] == Born(k + 1, dets[e])
  {
    hide MatchAll, Hits, Births;
    var m := MatchAll(tracks, config, dets);
    e := BirthFrom(dets, m, |tracks| + 1, |m|, k - |tracks|);
  }

  // ----- sums of hits -----

  lemma {:induction false} SumHitsConcat(a: seq<Track>, b: seq<Track>)
    ensures SumHits(a + b) == SumHits(a) + SumHits(b)
  {
    if b == [] {
      assert a + b == a;
    } else {
      assert (a + b)[..|a + b| - 1] == a + b[..|b| - 1];
      SumHitsConcat(a, b[..|b| - 1]);
    }
  }

  lemma {:induction false} SumHitsOne(s: seq<Track>, x: Track)
    ensures SumHits(s + [x]) == SumHits(s) + x.hits
  {
    assert (s + [x])[..|s|] == s;
  }

  lemma SumHitsSet(s: seq<Track>, t: nat, x: Track)
    requires t < |s|
    ensures SumHits(s[t := x]) == SumHits(s) - s[t].hits + x.hits
  {
    hide SumHits;
    var front, back := s[..t], s[t + 1..];
    SplitAt(s, t);
    SplitAt(s[t := x], t);
    SumHitsConcat(front + [s[t]], back);
    SumHitsConcat(front + [x], back);
    SumHitsOne(front, s[t]);
    SumHitsOne(front, x);
  }

  lemma {:induction false} SumHitsSame(a: seq<Track>, b: seq<Track>)
    requires |a| == |b| && forall k :: 0 <= k < |a| ==> a[k].hits == b[k].hits
    ensures SumHits(a) == SumHits(b)
  {
    if a != [] {
      SumHitsSame(a[..|a| - 1], b[..|b| - 1]);
    }
  }

  lemma {:induction false} SumAfterHits(tracks: seq<Track>, dets: seq<Detection>, m: seq<int>, d: nat)
    requires d <= |m| <= |dets| && MatchOf(|tracks|, m)
    ensures SumHits(Hits(tracks, dets, m, d)) == SumHits(tracks) + d - Unmatched(m, d)
  {
    if d > 0 {
      SumAfterHits(tracks, dets, m, d - 1);
      var r := Hits(tracks, dets, m, d - 1);
      if m[d - 1] >= 0 {
        SumHitsSet(r, m[d - 1], Hit(r[m[d - 1]], dets[d - 1]));
      }
    }
  }

  lemma {:induction false} SumOfBirths(dets: seq<Detection>, m: seq<int>, nextId: int, d: nat)
    requires d <= |m| <= |dets|
    ensures SumHits(Births(dets, m, nextId, d)) == Unmatched(m, d)
  {
    if d > 0 {
      SumOfBirths(dets, m, nextId, d - 1);
      var r := Births(dets, m, nextId, d - 1);
      SumHitsOne(r, Born(nextId + |r|, dets[d - 1]));
    }
  }

  /** Every detection fed adds exactly one hit somewhere. */
  lemma {:induction false} UpdateAddsHits(tracks: seq<Track>, config: TrackerConfig, dets: seq<Detection>)
    ensures SumHits(Advance(tracks, config, dets)) == SumHits(tracks) + |dets|
  {
    hide MatchAll, Hits, Births, SumHits;
    var m := MatchAll(tracks, config, dets);
    SumAfterHits(tracks, dets, m, |m|);
    SumOfBirths(dets, m, |tracks| + 1, |m|);
    var hit := Hits(tracks, dets, m, |m|);
    SumHitsSame(hit, Aged(hit, m, config.maxAge, |tracks|));
    SumHitsConcat(Aged(hit, m, config.maxAge, |tracks|), Births(dets, m, |tracks| + 1, |m|));
  }

  // ----- runs -----

  datatype Command = Update(dets: seq<Detection>) | Reset

  function Step(tracks: seq<Track>, config: TrackerConfig, c: Command): seq<Track>
  {
    match c
    case Update(dets) => Advance(tracks, config, dets)
    case Reset => []
  }

  function Table(config: TrackerConfig, run: seq<Command>): seq<Track>
  {
    if run == [] then [] else Step(Table(config, run[..|run| - 1]), config, run[|run| - 1])
  }

  /** Detections fed since the last reset. */
  function Fed(run: seq<Command>): nat
  {
    if run == [] then 0
    else
      match run[|run| - 1]
      case Update(dets) => Fed(run[..|run| - 1]) + |dets|
      case Reset => 0
  }

  lemma StepKeeps(tracks: seq<Track>, config: TrackerConfig, dets: seq<Detection>)
    requires Numbered(tracks) && AgesRight(tracks, config.maxAge)
    ensures Numbered(Advance(tracks, config, dets)) && AgesRight(Advance(tracks, config, dets), config.maxAge)
  {
    hide MatchAll, Advance, Unmatched;
    var m, r := MatchAll(tracks, config, dets), Advance(tracks, config, dets);
    forall k | 0 <= k < |r|
      ensures r[k].trackId == k + 1
      ensures if r[k].active then 0 <= r[k].age <= Lifetime(config.maxAge) else r[k].age == Lifetime(config.maxAge) + 1
    {
      if k < |tracks| {
        OldTrackAfter(tracks, config, dets, k);
        GreedyMatching(tracks, dets, config.iouThreshold);
        MatchedWereLive(tracks, config, dets, k);
      } else {
        var e := NewTrackFrom(tracks, config, dets, k);
      }
    }
  }

  lemma MatchedWereLive(tracks: seq<Track>, config: TrackerConfig, dets: seq<Detection>, t: nat)
    requires t < |tracks|
    ensures var m := MatchAll(tracks, config, dets);
      t in m ==> tracks[t].active && exists e :: 0 <= e < |m| && m[e] == t && tracks[t].classId == dets[e].classId
  {
    GreedyMatching(tracks, dets, config.iouThreshold);
    var m := MatchAll(tracks, config, dets);
    if t in m {
      var e :| 0 <= e < |m| && m[e] == t;
    }
  }

  /** After any run: ids count from one in table order, live tracks are within the age
      limit, dead ones carry the age they died at, and the hits add up to the
      detections fed. */
  lemma {:induction false} RunInvariant(config: TrackerConfig, run: seq<Command>)
    ensures var tracks := Table(config, run);
      Numbered(tracks) && AgesRight(tracks, config.maxAge) && SumHits(tracks) == Fed(run)
  {
    if run != [] {
      RunInvariant(config, run[..|run| - 1]);
      var tracks := Table(config, run[..|run| - 1]);
      match run[|run| - 1] {
        case Update(dets) =>
          hide Advance;
          StepKeeps(tracks, config, dets);
          UpdateAddsHits(tracks, config, dets);
        case Reset =>
      }
    }
  }

  /** The dead stay dead, whatever is fed afterwards: until a reset, the slot of a dead
      track never changes again. */
  lemma {:induction false} DeadForever(config: TrackerConfig, run: seq<Command>, more: seq<Command>, t: nat)
    requires t < |Table(config, run)| && !Table(config, run)[t].active
    requires forall c :: c in more ==> c.Update?
    ensures t < |Table(config, run + more)| && Table(config, run + more)[t] == Table(config, run)[t]
  {
    hide Advance;
    if more == [] {
      assert run + more == run;
    } else {
      var n := |more| - 1;
      assert (run + more)[..|run + more| - 1] == run + more[..n];
      DeadForever(config, run, more[..n], t);
      assert more[n] in more && (run + more)[|run + more| - 1] == more[n];
      DeadAfter(Table(config, run + more[..n]), config, more[n].dets, t);
    }
  }

  lemma DeadAfter(tracks: seq<Track>, config: TrackerConfig, dets: seq<Detection>, t: nat)
    requires t < |tracks| && !tracks[t].active
    ensures t < |Advance(tracks, config, dets)| && Advance(tracks, config, dets)[t] == tracks[t]
  {
    hide Advance, MatchAll;
    OldTrackAfter(tracks, config, dets, t);
    MatchedWereLive(tracks, config, dets, t);
  }

  // ----- how long a track lives unseen -----

  function TableAfter(tracks: seq<Track>, config: TrackerConfig, updates: seq<seq<Detection>>): seq<Track>
  {
    if updates == [] then tracks
    else Advance(TableAfter(tracks, config, updates[..|updates| - 1]), config, updates[|updates| - 1])
  }

  /** No detection of any of the updates is matched to track t. */
  ghost predicate Missed(tracks: seq<Track>, config: TrackerConfig, updates: seq<seq<Detection>>, t: nat)
  {
    forall k :: 0 <= k < |updates| ==> t !in MatchAll(TableAfter(tracks, config, updates[..k]), config, updates[k])
  }

  /** A track that was just seen outlives as many updates without a match as its age limit
      says and not one more; it counts them, and changes in nothing else. */
  lemma {:induction false} LivesUnseenIff(tracks: seq<Track>, config: TrackerConfig, updates: seq<seq<Detection>>,
      t: nat)
    requires t < |tracks| && tracks[t].active && tracks[t].age == 0 && Missed(tracks, config, updates, t)
    ensures var r, misses := TableAfter(tracks, config, updates), |updates|;
      && t < |r|
      && (r[t].active <==> misses == 0 || misses <= config.maxAge)
      && r[t].age == (if misses <= Lifetime(config.maxAge) then misses else Lifetime(config.maxAge) + 1)
      && r[t] == tracks[t].(age := r[t].age, active := r[t].active)
  {
    hide Advance, MatchAll;
    var n := |updates|;
    if n > 0 {
      var before := updates[..n - 1];
      assert forall k :: 0 <= k < n - 1 ==> before[..k] == updates[..k] && before[k] == updates[k];
      LivesUnseenIff(tracks, config, before, t);
      OldTrackAfter(TableAfter(tracks, config, before), config, updates[n - 1], t);
    }
  }

  // ----- the names a frame leaves with -----

  /** Ids of one frame: an existing track's id when matched, otherwise the next unused
      ids in order of detection. */
  lemma {:induction false} IdsOfFrame(tracks: seq<Track>, config: TrackerConfig, dets: seq<Detection>, d: nat)
    requires Numbered(tracks) && d < |dets|
    ensures var m := MatchAll(tracks, config, dets);
      Labelled(tracks, config, dets)[d]
        == dets[d].(trackId := if m[d] >= 0 then m[d] + 1 else |tracks| + 1 + Unmatched(m, d))
  {
  }

  /** Within a frame every detection gets a different, positive id. */
  lemma IdsDistinct(tracks: seq<Track>, config: TrackerConfig, dets: seq<Detection>)
    requires Numbered(tracks)
    ensures var r := Labelled(tracks, config, dets);
      && (forall d :: 0 <= d < |r| ==> r[d].trackId > 0)
      && (forall d, e :: 0 <= d < e < |r| ==> r[d].trackId != r[e].trackId)
  {
    hide MatchAll, Labelled;
    var m, r := MatchAll(tracks, config, dets), Labelled(tracks, config, dets);
    forall d | 0 <= d < |r| ensures r[d].trackId > 0 {
      IdsOfFrame(tracks, config, dets, d);
    }
    forall d, e | 0 <= d < e < |r| ensures r[d].trackId != r[e].trackId {
      IdsOfFrame(tracks, config, dets, d);
      IdsOfFrame(tracks, config, dets, e);
      UnmatchedMonotone(m, d, e);
    }
  }

  /** The track a detection was named after is in the table, with the detection's class,
      box and confidence, and live. */
  lemma TrackOfDetection(tracks: seq<Track>, config: TrackerConfig, dets: seq<Detection>, d: nat)
    requires Numbered(tracks) && d < |dets|
    ensures var r, id := Advance(tracks, config, dets), Labelled(tracks, config, dets)[d].trackId;
      && 1 <= id <= |r| && r[id - 1].trackId == id && r[id - 1].active && r[id - 1].age == 0
      && r[id - 1].classId == dets[d].classId && r[id - 1].bbox == dets[d].bbox
      && r[id - 1].confidence == dets[d].confidence
  {
    hide MatchAll, Advance, Labelled;
    var m := MatchAll(tracks, config, dets);
    IdsOfFrame(tracks, config, dets, d);
    LiveMatch(tracks, config, dets, d);
    if m[d] >= 0 {
      OldTrackAfter(tracks, config, dets, m[d]);
    } else {
      NewTrackAfter(tracks, config, dets, d);
    }
  }

  lemma LiveMatch(tracks: seq<Track>, config: TrackerConfig, dets: seq<Detection>, d: nat)
    requires d < |dets|
    ensures var m := MatchAll(tracks, config, dets);
      -1 <= m[d] < |tracks| && (m[d] >= 0 ==> tracks[m[d]].active && tracks[m[d]].classId == dets[d].classId)
  {
    GreedyMatching(tracks, dets, config.iouThreshold);
  }
}
