/** The event detector: candidates pile up frame by frame in a growing array and are
    consolidated in place at the end. */
module EventDetection {
  import opened Types
  import opened Sorting
  import opened Events
  import opened Trajectories
  import opened EventAnalysis
  import opened TrajectoryBuilderModule

  const INITIAL_CAPACITY: nat := 512

  /** The next position joins the group of seed i exactly when it matches the seed's key
      and follows the group's last member within the window. */
  lemma {:induction false} JoinsIff(s: seq<Candidate>, window: int, i: nat, last: nat, j: nat)
    requires FrameSorted(s) && i <= last < j < |s|
    requires Root(s, window, i) == i && Root(s, window, last) == i
    requires forall m :: last < m < j ==> Root(s, window, m) != i
    requires Root(s, window, j) >= i
    ensures Root(s, window, j) == i <==> SameKey(s[j], s[i]) && s[j].frame - s[last].frame <= window
  {
    if SameKey(s[j], s[i]) && s[j].frame - s[last].frame <= window {
      CloseSharesRoot(s, window, last, j);
    }
    if Root(s, window, j) == i {
      var p := LastSame(s, j, j);
      assert p >= 0 && Root(s, window, p) == i;
      assert p == last;
    }
  }

  /** g is what the members found before position j have come to. */
  ghost predicate GatheredSoFar(s: seq<Candidate>, window: int, i: nat, j: nat, g: Group)
  {
    j <= |s| && Members(s, window, i, j) != [] && g == Gather(Members(s, window, i, j))
  }

  lemma {:induction false} GatheredSeed(s: seq<Candidate>, window: int, i: nat)
    requires i < |s| && Root(s, window, i) >= i
    ensures Root(s, window, i) == i
    ensures GatheredSoFar(s, window, i, i + 1, Seed(s[i])) && Seed(s[i]).endFrame == s[i].frame
  {
    NoneBeforeSeed(s, window, i, i);
  }

  lemma GatheredSkip(s: seq<Candidate>, window: int, i: nat, j: nat, g: Group)
    requires j < |s| && Root(s, window, j) != i && GatheredSoFar(s, window, i, j, g)
    ensures GatheredSoFar(s, window, i, j + 1, g)
  {
    assert Members(s, window, i, j + 1) == Members(s, window, i, j);
  }

  lemma {:induction false} GatheredJoin(s: seq<Candidate>, window: int, i: nat, j: nat, g: Group)
    requires j < |s| && Root(s, window, j) == i && GatheredSoFar(s, window, i, j, g)
    ensures GatheredSoFar(s, window, i, j + 1, Extend(g, s[j]))
  {
    hide Root, Extend;
    assert Members(s, window, i, j + 1)[..|Members(s, window, i, j)|] == Members(s, window, i, j);
  }

  /** A position that is not a seed seeds nobody. */
  lemma {:induction false} OnlySeedsLead(s: seq<Candidate>, window: int, i: nat)
    requires i < |s| && Root(s, window, i) != i
    ensures forall k :: 0 <= k < |s| ==> Root(s, window, k) != i
  {
    forall k | 0 <= k < |s| ensures Root(s, window, k) != i {
      RootOfRoot(s, window, k);
    }
  }

  lemma {:induction false} NoEventsYet(s: seq<Candidate>, window: int)
    ensures EventsBelow(s, window, 0) == []
  {
  }

  lemma EventsStep(s: seq<Candidate>, window: int, i: nat, g: Group)
    requires i < |s| && Root(s, window, i) == i && GatheredSoFar(s, window, i, |s|, g)
    ensures g.count > 0
    ensures EventsBelow(s, window, i + 1)
         == EventsBelow(s, window, i) + if Confirmed(s[i].etype, g.count) then [EventOf(s[i], g)] else []
  {
    hide EventOf;
    SeedIsFirst(s, window, i, |s|);
    GatherCounts(Members(s, window, i, |s|));
  }

  lemma EventsSkip(s: seq<Candidate>, window: int, i: nat)
    requires i < |s| && Root(s, window, i) != i
    ensures EventsBelow(s, window, i + 1) == EventsBelow(s, window, i)
    ensures forall k :: 0 <= k < |s| ==> Root(s, window, k) != i
  {
    assert EventsBelow(s, window, i) + [] == EventsBelow(s, window, i);
    OnlySeedsLead(s, window, i);
  }

  lemma AtMostOneEach(s: Scene, p: Pair, a: Detection, b: Detection)
    requires p.dist >= 0.0
    ensures |CollisionOf(s, p, a, b)| <= 1 && |NearMissOf(s, p, a, b)| <= 1
  {
    hide CollisionScore, NearMissScore;
  }

  class EventDetector {
    const config: EventConfig
    var candidates: array<Candidate>
    var candCount: nat
    var events: seq<AccidentEvent>
    var finalized: bool

    ghost predicate Valid()
      reads this
    {
      0 < candidates.Length && candCount <= candidates.Length
    }

    function Candidates(): seq<Candidate>
      requires Valid()
      reads this, candidates
    {
      candidates[..candCount]
    }

    constructor (config: EventConfig)
      ensures Valid() && fresh(candidates)
      ensures this.config == config && Candidates() == [] && events == [] && !finalized
    {
      this.config := config;
      var blank := Candidate(NoEvent, 0, 0.0, 0, 0, 0.0, 0.0, 0.0, 0.0, 0.0, BBox(0.0, 0.0, 0.0, 0.0));
      candidates := new Candidate[INITIAL_CAPACITY](_ => blank);
      candCount := 0;
      events := [];
      finalized := false;
    }

    method AddCandidate(c: Candidate)
      requires Valid()
      modifies this`candidates, this`candCount, candidates
      ensures Valid() && (candidates == old(candidates) || fresh(candidates))
      ensures Candidates() == old(Candidates()) + [c]
    {
      if candCount >= candidates.Length {
        var was := candidates;
        var bigger := new Candidate[2 * was.Length](i => c);
        forall i | 0 <= i < candCount {
          bigger[i] := was[i];
        }
        assert bigger[..candCount] == was[..candCount];
        candidates := bigger;
      }
      ghost var before := candidates[..candCount];
      candidates[candCount] := c;
      candCount := candCount + 1;
      assert candidates[..candCount] == before + [c];
    }

    method AddFound(found: seq<Candidate>)
      requires Valid() && |found| <= 1
      modifies this`candidates, this`candCount, candidates
      ensures Valid() && (candidates == old(candidates) || fresh(candidates))
      ensures Candidates() == old(Candidates()) + found
    {
      if found != [] {
        AddCandidate(found[0]);
        assert found == [found[0]];
      }
    }

    /** Pairs one eligible detection with those after it. */
    method AnalyzePairs(s: Scene, dets: seq<Detection>, i: nat)
      requires Valid() && Sound(s.math) && i < |dets| && Eligible(s.store, dets[i])
      modifies this`candidates, this`candCount, candidates
      ensures Valid() && (candidates == old(candidates) || fresh(candidates))
      ensures Candidates() == old(Candidates()) + Row(s, dets, i, |dets|)
    {
      hide Candidates, Sound, CollisionOf, NearMissOf, PairOf, CenterDistance, Eligible;
      ghost var before := Candidates();
      for j := i + 1 to |dets|
        invariant Valid() && (candidates == old(candidates) || fresh(candidates))
        invariant Candidates() == before + Row(s, dets, i, j)
      {
        var a, b := dets[i], dets[j];
        ghost var soFar := Candidates();
        ghost var found := PairCandidates(s, a, b);
        if Eligible(s.store, b) {
          var p := PairOf(s.math, a, b, PathOf(s.store, a), PathOf(s.store, b));
          PairDistances(s.math, a, b, PathOf(s.store, a), PathOf(s.store, b));
          AtMostOneEach(s, p, a, b);
          AddFound(CollisionOf(s, p, a, b));
          AddFound(NearMissOf(s, p, a, b));
        }
        assert Candidates() == soFar + found;
        assert before + (Row(s, dets, i, j) + found) == before + Row(s, dets, i, j) + found;
      }
    }

    /** Reports a vehicle whose latest points are all slow, the last of them in this frame. */
    method AnalyzeStopped(s: Scene, t: Trajectory)
      requires Valid() && (s.config.stoppedMinFrames > 0 || t.points != [])
      modifies this`candidates, this`candCount, candidates
      ensures Valid() && (candidates == old(candidates) || fresh(candidates))
      ensures Candidates() == old(Candidates()) + StoppedOf(s, t)
    {
      hide Candidates, StoppedScore;
      var window := s.config.stoppedMinFrames;
      if !IsVehicle(t.classId) || |t.points| < window {
        assert StoppedOf(s, t) == [];
        return;
      }
      var allSlow := true;
      var j := |t.points| - window;
      while j < |t.points|
        invariant |t.points| - window <= j
        invariant allSlow
        invariant forall k :: |t.points| - window <= k < j && k < |t.points| ==>
          t.points[k].speed <= s.config.stoppedSpeedThreshold
      {
        if t.points[j].speed > s.config.stoppedSpeedThreshold {
          allSlow := false;
          break;
        }
        j := j + 1;
      }
      assert allSlow <==> AllSlow(t.points, s.config.stoppedSpeedThreshold, |t.points| - window);
      if allSlow && Last(t).frame == s.frame {
        var p := Last(t);
        var c := Candidate(StoppedVehicle, s.frame, s.timestamp, t.trackId, -1, StoppedScore(window),
                           0.0, 0.0, 0.0, 0.0, BBox(p.cx - p.w / 2.0, p.cy - p.h / 2.0, p.w, p.h));
        AddCandidate(c);
        assert StoppedOf(s, t) == [c];
      } else {
        assert StoppedOf(s, t) == [];
      }
    }

    /** Judges one frame: pairs of vehicles and single vehicles among the detections,
        then every stored trajectory. */
    method Analyze(tb: TrajectoryBuilder, detections: DetectionList, frame: int, timestamp: real)
      requires Valid() && HasLastPoints(config, tb.store) && Sound(tb.math)
      modifies this`candidates, this`candCount, candidates
      ensures Valid() && (candidates == old(candidates) || fresh(candidates))
      ensures Candidates() == old(Candidates())
           + FrameCandidates(Scene(config, tb.math, tb.store, frame, timestamp), detections.items)
    {
      hide Candidates, Sound, Row, BrakeOf, StoppedOf, Eligible;
      if !config.enabled {
        return;
      }
      var s := Scene(config, tb.math, tb.store, frame, timestamp);
      var dets := detections.items;
      ghost var before := Candidates();
      for i := 0 to |dets|
        invariant Valid() && (candidates == old(candidates) || fresh(candidates))
        invariant Candidates() == before + FromDetections(s, dets, i)
      {
        ghost var soFar := Candidates();
        if Eligible(s.store, dets[i]) {
          AnalyzePairs(s, dets, i);
          BrakeSane(s, dets[i]);
          AddFound(BrakeOf(s, dets[i]));
          assert Candidates() == soFar + (Row(s, dets, i, |dets|) + BrakeOf(s, dets[i]));
        }
        assert Candidates() == before + FromDetections(s, dets, i + 1);
      }
      ghost var pairs := FromDetections(s, dets, |dets|);
      for i := 0 to |s.store|
        invariant Valid() && (candidates == old(candidates) || fresh(candidates))
        invariant Candidates() == before + (pairs + FromStore(s, i))
      {
        AnalyzeStopped(s, s.store[i]);
        assert Candidates() == before + (pairs + FromStore(s, i + 1));
      }
    }

    /** Takes one more candidate into a group. */
    static method Absorb(g: Group, c: Candidate) returns (r: Group)
      ensures r == Extend(g, c) && r.endFrame == c.frame
    {
      r := g.(
        endFrame := c.frame,
        endMs := c.timestamp,
        sumOverlap := g.sumOverlap + c.overlap,
        sumSpeed := g.sumSpeed + c.speedDelta,
        sumDirection := g.sumDirection + c.directionDelta,
        sumProximity := g.sumProximity + c.proximity,
        count := g.count + 1);
      if c.score > g.maxScore {
        r := r.(maxScore := c.score);
      }
      if c.region.x < g.x {
        r := r.(x := c.region.x);
      }
      if c.region.y < g.y {
        r := r.(y := c.region.y);
      }
      if c.region.x + c.region.w > g.x2 {
        r := r.(x2 := c.region.x + c.region.w);
      }
      if c.region.y + c.region.h > g.y2 {
        r := r.(y2 := c.region.y + c.region.h);
      }
    }

    /** Collects the group seeded at position i and marks its members as used. */
    static method Collect(s: seq<Candidate>, window: int, i: nat, used: array<bool>) returns (g: Group)
      requires FrameSorted(s) && i < |s| == used.Length
      requires forall k :: 0 <= k < |s| ==> (used[k] <==> Root(s, window, k) < i)
      requires !used[i]
      modifies used
      ensures GatheredSoFar(s, window, i, |s|, g)
      ensures forall k :: 0 <= k < |s| ==> (used[k] <==> Root(s, window, k) < i + 1)
    {
      hide Root, FrameSorted, Seed, GatheredSoFar, Extend, SameKey;
      GatheredSeed(s, window, i);
      g := Seed(s[i]);
      used[i] := true;
      ghost var last := i;
      for j := i + 1 to |s|
        invariant forall k :: 0 <= k < j ==> (used[k] <==> Root(s, window, k) < i + 1)
        invariant forall k :: j <= k < |s| ==> (used[k] <==> Root(s, window, k) < i)
        invariant i <= last < j && Root(s, window, last) == i && g.endFrame == s[last].frame
        invariant forall m :: last < m < j ==> Root(s, window, m) != i
        invariant GatheredSoFar(s, window, i, j, g)
      {
        if used[j] {
          GatheredSkip(s, window, i, j, g);
        } else {
          JoinsIff(s, window, i, last, j);
          if SameKey(s[j], s[i]) && s[j].frame - g.endFrame <= window {
            GatheredJoin(s, window, i, j, g);
            g := Absorb(g, s[j]);
            used[j] := true;
            last := j;
          } else {
            GatheredSkip(s, window, i, j, g);
          }
        }
      }
    }

    /** Sorts the candidates by frame and appends one event for each confirmed group. */
    method Finalize()
      requires Valid()
      modifies this`events, this`finalized, candidates
      ensures Valid() && finalized
      ensures Candidates() == ByFrame(old(Candidates()))
      ensures events == old(events) + Consolidated(Candidates(), config.temporalWindow)
    {
      ExchangeSort(candidates, candCount, Earlier);
      ByFrameSorts(old(Candidates()));
      AppendEvents();
      finalized := true;
    }

    /** One event for each confirmed group of the sorted candidates. */
    method AppendEvents()
      requires Valid() && FrameSorted(Candidates())
      modifies this`events
      ensures Valid()
      ensures events == old(events) + Consolidated(Candidates(), config.temporalWindow)
    {
      hide EventsBelow, Root, Members, Gather, FrameSorted, EventOf, GatheredSoFar;
      var s, w := Candidates(), config.temporalWindow;
      var used := new bool[candCount](_ => false);
      ghost var emitted := [];
      NoEventsYet(s, w);
      for i := 0 to |s|
        invariant forall k :: 0 <= k < |s| ==> (used[k] <==> Root(s, w, k) < i)
        invariant events == old(events) + emitted && emitted == EventsBelow(s, w, i)
      {
        if !used[i] {
          GatheredSeed(s, w, i);
          var g := Collect(s, w, i, used);
          EventsStep(s, w, i, g);
          if Confirmed(s[i].etype, g.count) {
            emitted := emitted + [EventOf(s[i], g)];
            events := events + [EventOf(s[i], g)];
          }
        } else {
          EventsSkip(s, w, i);
        }
      }
    }

    method Reset()
      requires Valid()
      modifies this`candCount, this`events, this`finalized
      ensures Valid() && Candidates() == [] && events == [] && !finalized
    {
      candCount := 0;
      events := [];
      finalized := false;
    }
  }
}
