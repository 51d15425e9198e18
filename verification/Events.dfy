/** Candidate events and their consolidation into groups, described on sequences
    sorted by frame. */
module Events {
  import opened Types
  import opened Sequences
  import opened Sorting

  datatype EventType =
    | NoEvent | Collision | Rollover | StoppedVehicle
    | NearMiss | Debris | SuddenBrake | WrongWay

  datatype Candidate = Candidate(
    etype: EventType,
    frame: int,
    timestamp: real,
    trackA: int,
    trackB: int,
    score: real,
    overlap: real,
    speedDelta: real,
    directionDelta: real,
    proximity: real,
    region: BBox)

  datatype AccidentEvent = AccidentEvent(
    etype: EventType,
    confidence: real,
    startFrame: int,
    endFrame: int,
    startMs: real,
    endMs: real,
    region: BBox,
    overlap: real,
    speedChange: real,
    directionChange: real,
    proximity: real,
    involved: seq<int>)

  datatype EventConfig = EventConfig(
    enabled: bool,
    collisionIouThreshold: real,
    collisionSpeedDrop: real,
    nearMissDistance: real,
    stoppedSpeedThreshold: real,
    stoppedMinFrames: int,
    suddenBrakeDecel: real,
    confidenceThreshold: real,
    temporalWindow: int,
    wOverlap: real,
    wSpeedChange: real,
    wDirectionChange: real,
    wProximity: real)

  /** The running state of one group while it is being collected. */
  datatype Group = Group(
    endFrame: int,
    endMs: real,
    maxScore: real,
    sumOverlap: real,
    sumSpeed: real,
    sumDirection: real,
    sumProximity: real,
    count: int,
    x: real,
    y: real,
    x2: real,
    y2: real)

  predicate Earlier(a: Candidate, b: Candidate) { a.frame < b.frame }

  predicate SameKey(a: Candidate, b: Candidate)
  {
    a.etype == b.etype && a.trackA == b.trackA && a.trackB == b.trackB
  }

  ghost predicate FrameSorted(s: seq<Candidate>)
  {
    forall p, q :: 0 <= p < q < |s| ==> s[p].frame <= s[q].frame
  }

  function ByFrame(s: seq<Candidate>): seq<Candidate>
  {
    ExchangeFrom(s, 0, Earlier)
  }

  lemma ByFrameSorts(s: seq<Candidate>)
    ensures Permutation(s, ByFrame(s)) && FrameSorted(ByFrame(s))
  {
    ExchangeSorts(s, 0, Earlier);
    var r := ByFrame(s);
    forall p, q | 0 <= p < q < |r| ensures r[p].frame <= r[q].frame {
      assert !Earlier(r[q], r[p]);
    }
  }

  // ----- groups -----

  /** The last position before k that shares the key of position j, or -1. */
  function LastSame(s: seq<Candidate>, j: nat, k: nat): (p: int)
    requires j < |s| && k <= |s|
    ensures -1 <= p < k
    ensures p >= 0 ==> SameKey(s[p], s[j])
    ensures forall q :: p < q < k ==> !SameKey(s[q], s[j])
  {
    if k == 0 then -1
    else if SameKey(s[k - 1], s[j]) then k - 1
    else LastSame(s, j, k - 1)
  }

  /** The seed of the group of position j: go back through candidates of the same key
      while the gap in frames is at most the window. */
  function Root(s: seq<Candidate>, window: int, j: nat): (r: nat)
    requires j < |s|
    ensures r <= j && SameKey(s[r], s[j])
  {
    var p := LastSame(s, j, j);
    if p >= 0 && s[j].frame - s[p].frame <= window then Root(s, window, p) else j
  }

  function Members(s: seq<Candidate>, window: int, i: nat, n: nat): (m: seq<Candidate>)
    requires n <= |s|
  {
    if n == 0 then []
    else Members(s, window, i, n - 1) + if Root(s, window, n - 1) == i then [s[n - 1]] else []
  }

  function Seed(c: Candidate): Group
  {
    Group(c.frame, c.timestamp, c.score, c.overlap, c.speedDelta, c.directionDelta, c.proximity, 1,
          c.region.x, c.region.y, c.region.x + c.region.w, c.region.y + c.region.h)
  }

  function Extend(g: Group, c: Candidate): Group
  {
    Group(
      c.frame,
      c.timestamp,
      if c.score > g.maxScore then c.score else g.maxScore,
      g.sumOverlap + c.overlap,
      g.sumSpeed + c.speedDelta,
      g.sumDirection + c.directionDelta,
      g.sumProximity + c.proximity,
      g.count + 1,
      if c.region.x < g.x then c.region.x else g.x,
      if c.region.y < g.y then c.region.y else g.y,
      if c.region.x + c.region.w > g.x2 then c.region.x + c.region.w else g.x2,
      if c.region.y + c.region.h > g.y2 then c.region.y + c.region.h else g.y2)
  }

  function Gather(ms: seq<Candidate>): Group
    requires ms != []
  {
    if |ms| == 1 then Seed(ms[0]) else Extend(Gather(ms[..|ms| - 1]), ms[|ms| - 1])
  }

  /** A collision must be seen more than once; every other type stands as it is. */
  predicate Confirmed(etype: EventType, count: int)
  {
    !(etype == Collision && count < 2)
  }

  function EventOf(seed: Candidate, g: Group): AccidentEvent
    requires g.count > 0
  {
    AccidentEvent(
      seed.etype, g.maxScore, seed.frame, g.endFrame, seed.timestamp, g.endMs,
      BBox(g.x, g.y, g.x2 - g.x, g.y2 - g.y),
      g.sumOverlap / g.count as real, g.sumSpeed / g.count as real,
      g.sumDirection / g.count as real, g.sumProximity / g.count as real,
      if seed.trackB > 0 then [seed.trackA, seed.trackB] else [seed.trackA])
  }

  lemma {:induction false} GatherCounts(ms: seq<Candidate>)
    requires ms != []
    ensures Gather(ms).count == |ms|
  {
    if |ms| > 1 {
      GatherCounts(ms[..|ms| - 1]);
    }
  }

  /** The event of the group ms, if the group is confirmed. */
  function Emit(ms: seq<Candidate>): seq<AccidentEvent>
  {
    if ms == [] || !Confirmed(ms[0].etype, |ms|) then []
    else
      GatherCounts(ms);
      [EventOf(ms[0], Gather(ms))]
  }

  /** Events of the groups seeded before position i, in order of their seeds. */
  function EventsBelow(s: seq<Candidate>, window: int, i: nat): seq<AccidentEvent>
    requires i <= |s|
  {
    if i == 0 then []
    else
      EventsBelow(s, window, i - 1)
      + if Root(s, window, i - 1) == i - 1 then Emit(Members(s, window, i - 1, |s|)) else []
  }

  function Consolidated(s: seq<Candidate>, window: int): seq<AccidentEvent>
  {
    EventsBelow(s, window, |s|)
  }

  // ----- groups are the connected components of the gap relation -----

  ghost predicate Linked(s: seq<Candidate>, window: int, a: nat, b: nat)
    requires a < |s| && b < |s|
  {
    SameKey(s[a], s[b]) && -window <= s[a].frame - s[b].frame <= window
  }

  ghost predicate Chain(s: seq<Candidate>, window: int, path: seq<nat>)
  {
    && path != []
    && (forall k :: 0 <= k < |path| ==> path[k] < |s|)
    && (forall k :: 0 <= k < |path| - 1 ==> Linked(s, window, path[k], path[k + 1]))
  }

  ghost predicate Connected(s: seq<Candidate>, window: int, a: nat, b: nat)
  {
    exists path :: Chain(s, window, path) && path[0] == a && path[|path| - 1] == b
  }

  lemma {:induction false} RootOfRoot(s: seq<Candidate>, window: int, j: nat)
    requires j < |s|
    ensures Root(s, window, Root(s, window, j)) == Root(s, window, j)
  {
    var p := LastSame(s, j, j);
    if p >= 0 && s[j].frame - s[p].frame <= window {
      RootOfRoot(s, window, p);
    }
  }

  /** Two candidates of one key that are close enough share a seed, whatever lies
      between them. */
  lemma {:induction false} CloseSharesRoot(s: seq<Candidate>, window: int, a: nat, b: nat)
    requires FrameSorted(s) && a < b < |s|
    requires SameKey(s[a], s[b]) && s[b].frame - s[a].frame <= window
    ensures Root(s, window, a) == Root(s, window, b)
  {
    var p := LastSame(s, b, b);
    assert a <= p;
    if a < p {
      CloseSharesRoot(s, window, a, p);
    }
  }

  /** A group holds every candidate of its key between two of its members. */
  lemma {:induction false} GroupContiguous(s: seq<Candidate>, window: int, m: nat, a: nat)
    requires m <= a < |s| && Root(s, window, a) <= m && SameKey(s[m], s[a])
    ensures Root(s, window, m) == Root(s, window, a)
  {
    if m < a {
      var p := LastSame(s, a, a);
      assert m <= p;
      GroupContiguous(s, window, m, p);
    }
  }

  lemma {:induction false} ChainSharesRoot(s: seq<Candidate>, window: int, path: seq<nat>)
    requires FrameSorted(s) && Chain(s, window, path)
    ensures Root(s, window, path[0]) == Root(s, window, path[|path| - 1])
  {
    if |path| > 1 {
      var n := |path|;
      var a, b := path[n - 2], path[n - 1];
      assert Linked(s, window, path[n - 2], path[n - 2 + 1]);
      if a < b {
        CloseSharesRoot(s, window, a, b);
      } else if b < a {
        CloseSharesRoot(s, window, b, a);
      }
      ChainSharesRoot(s, window, path[..n - 1]);
    }
  }

  lemma ChainToRoot(s: seq<Candidate>, window: int, j: nat) returns (path: seq<nat>)
    requires FrameSorted(s) && j < |s|
    ensures Chain(s, window, path) && path[0] == j && path[|path| - 1] == Root(s, window, j)
  {
    var p := LastSame(s, j, j);
    if p >= 0 && s[j].frame - s[p].frame <= window {
      var rest := ChainToRoot(s, window, p);
      path := [j] + rest;
      assert Linked(s, window, j, p);
      forall k | 0 <= k < |path| - 1 ensures Linked(s, window, path[k], path[k + 1]) {
        if k > 0 {
          assert path[k] == rest[k - 1] && path[k + 1] == rest[k];
        }
      }
    } else {
      path := [j];
    }
  }

  lemma ChainReversed(s: seq<Candidate>, window: int, path: seq<nat>) returns (back: seq<nat>)
    requires Chain(s, window, path)
    ensures Chain(s, window, back) && back[0] == path[|path| - 1] && back[|back| - 1] == path[0]
  {
    var n := |path|;
    back := seq(n, k requires 0 <= k < n => path[n - 1 - k]);
    forall k | 0 <= k < n - 1 ensures Linked(s, window, back[k], back[k + 1]) {
      assert Linked(s, window, path[n - 2 - k], path[n - 2 - k + 1]);
    }
  }

  /** Two candidates land in one group exactly when a chain of candidates of one key,
      with successive gaps of at most the window, joins them. */
  lemma {:induction false} GroupsAreComponents(s: seq<Candidate>, window: int, a: nat, b: nat)
    requires FrameSorted(s) && a < |s| && b < |s|
    ensures Root(s, window, a) == Root(s, window, b) <==> Connected(s, window, a, b)
  {
    if Connected(s, window, a, b) {
      var path :| Chain(s, window, path) && path[0] == a && path[|path| - 1] == b;
      ChainSharesRoot(s, window, path);
    }
    if Root(s, window, a) == Root(s, window, b) {
      var p := ChainToRoot(s, window, a);
      var q := ChainToRoot(s, window, b);
      var back := ChainReversed(s, window, q);
      var path := p + back[1..];
      forall k | 0 <= k < |path| - 1 ensures Linked(s, window, path[k], path[k + 1]) {
        if k < |p| - 1 {
          assert Linked(s, window, p[k], p[k + 1]);
        } else {
          var m := k - |p| + 1;
          assert path[k] == back[m] && path[k + 1] == back[m + 1];
          assert Linked(s, window, back[m], back[m + 1]);
        }
      }
      assert Chain(s, window, path) && path[0] == a && path[|path| - 1] == b;
    }
  }

  /** Groups of one key do not overlap in time: the later one starts more than the
      window after the earlier one ended. */
  lemma {:induction false} GroupsApart(s: seq<Candidate>, window: int, a: nat, b: nat)
    requires FrameSorted(s) && a < |s| && b < |s| && SameKey(s[a], s[b])
    requires Root(s, window, a) < Root(s, window, b)
    ensures a < b && s[b].frame - s[a].frame > window
  {
    if b < a {
      var r := Root(s, window, b);
      RootOfRoot(s, window, b);
      GroupContiguous(s, window, b, a);
      assert false;
    }
    if s[b].frame - s[a].frame <= window {
      CloseSharesRoot(s, window, a, b);
    }
  }

  // ----- membership -----

  ghost predicate InGroup(s: seq<Candidate>, window: int, i: nat, n: nat, c: Candidate)
    requires n <= |s|
  {
    exists k :: 0 <= k < n && Root(s, window, k) == i && s[k] == c
  }

  lemma InGroupStep(s: seq<Candidate>, window: int, i: nat, n: nat, c: Candidate)
    requires 0 < n <= |s|
    ensures InGroup(s, window, i, n, c)
       <==> InGroup(s, window, i, n - 1, c) || (Root(s, window, n - 1) == i && s[n - 1] == c)
  {
    hide Root;
    if InGroup(s, window, i, n, c) {
      var k :| 0 <= k < n && Root(s, window, k) == i && s[k] == c;
      assert k < n - 1 ==> InGroup(s, window, i, n - 1, c);
    }
  }

  lemma NoGroupYet(s: seq<Candidate>, window: int, i: nat, c: Candidate)
    ensures !InGroup(s, window, i, 0, c)
  {
  }

  lemma {:induction false} MemberIs(s: seq<Candidate>, window: int, i: nat, n: nat, c: Candidate)
    requires n <= |s|
    ensures c in Members(s, window, i, n) <==> InGroup(s, window, i, n, c)
  {
    hide Root, InGroup;
    if n == 0 {
      NoGroupYet(s, window, i, c);
    } else {
      MemberIs(s, window, i, n - 1, c);
      InGroupStep(s, window, i, n, c);
    }
  }

  lemma {:induction false} MembersAre(s: seq<Candidate>, window: int, i: nat, n: nat)
    requires n <= |s|
    ensures forall c :: c in Members(s, window, i, n) <==> InGroup(s, window, i, n, c)
  {
    forall c ensures c in Members(s, window, i, n) <==> InGroup(s, window, i, n, c) {
      MemberIs(s, window, i, n, c);
    }
  }

  lemma {:induction false} MembersSorted(s: seq<Candidate>, window: int, i: nat, n: nat)
    requires n <= |s| && FrameSorted(s)
    ensures FrameSorted(Members(s, window, i, n))
  {
    if n > 0 {
      MembersSorted(s, window, i, n - 1);
      MembersAre(s, window, i, n - 1);
      var before := Members(s, window, i, n - 1);
      forall p | 0 <= p < |before| ensures before[p].frame <= s[n - 1].frame {
        assert before[p] in before;
      }
    }
  }

  lemma {:induction false} NoneBeforeSeed(s: seq<Candidate>, window: int, i: nat, n: nat)
    requires n <= i && n <= |s|
    ensures Members(s, window, i, n) == []
  {
    if n > 0 {
      NoneBeforeSeed(s, window, i, n - 1);
    }
  }

  /** Nothing precedes the seed, so the seed is the first member of its group. */
  lemma {:induction false} SeedIsFirst(s: seq<Candidate>, window: int, i: nat, n: nat)
    requires i < n <= |s| && Root(s, window, i) == i
    ensures Members(s, window, i, n) != [] && Members(s, window, i, n)[0] == s[i]
  {
    if n == i + 1 {
      NoneBeforeSeed(s, window, i, i);
    } else {
      SeedIsFirst(s, window, i, n - 1);
    }
  }

  // ----- groups partition the candidates -----

  /** Total size of the groups seeded before i, counting only the first n candidates. */
  function SizeBelow(s: seq<Candidate>, window: int, i: nat, n: nat): nat
    requires n <= |s|
  {
    if i == 0 then 0 else SizeBelow(s, window, i - 1, n) + |Members(s, window, i - 1, n)|
  }

  lemma SizeStep(s: seq<Candidate>, window: int, i: nat, n: nat)
    requires 0 < n <= |s|
    ensures SizeBelow(s, window, i, n) == SizeBelow(s, window, i, n - 1) + if Root(s, window, n - 1) < i then 1 else 0
  {
    if i > 0 {
      SizeStep(s, window, i - 1, n);
    }
  }

  lemma {:induction false} SizesOfPrefix(s: seq<Candidate>, window: int, n: nat)
    requires n <= |s|
    ensures SizeBelow(s, window, |s|, n) == n
  {
    if n > 0 {
      SizesOfPrefix(s, window, n - 1);
      SizeStep(s, window, |s|, n);
    } else {
      NoSizes(s, window, |s|);
    }
  }

  lemma {:induction false} NoSizes(s: seq<Candidate>, window: int, i: nat)
    ensures SizeBelow(s, window, i, 0) == 0
  {
    if i > 0 {
      NoSizes(s, window, i - 1);
    }
  }

  /** The groups use up the candidates, each exactly once. */
  lemma {:induction false} GroupSizesAddUp(s: seq<Candidate>, window: int)
    ensures SizeBelow(s, window, |s|, |s|) == |s|
  {
    SizesOfPrefix(s, window, |s|);
  }

  // ----- which groups become events -----

  ghost predicate EventFor(s: seq<Candidate>, window: int, i: nat, e: AccidentEvent)
  {
    && i < |s| && Root(s, window, i) == i
    && Emit(Members(s, window, i, |s|)) == [e]
  }

  lemma {:induction false} EventsCome(s: seq<Candidate>, window: int, n: nat)
    requires n <= |s|
    ensures forall e :: e in EventsBelow(s, window, n) <==> exists i :: 0 <= i < n && EventFor(s, window, i, e)
  {
    if n > 0 {
      EventsCome(s, window, n - 1);
      var before := EventsBelow(s, window, n - 1);
      forall e ensures e in EventsBelow(s, window, n) <==> exists i :: 0 <= i < n && EventFor(s, window, i, e) {
        if exists i :: 0 <= i < n && EventFor(s, window, i, e) {
          var i :| 0 <= i < n && EventFor(s, window, i, e);
          assert i < n - 1 ==> e in before;
        }
        if e in EventsBelow(s, window, n) && e !in before {
          assert EventFor(s, window, n - 1, e);
        }
      }
    }
  }

  /** Two events, in the order they come, are those of two seeds in that order. */
  lemma SeedsInOrder(s: seq<Candidate>, window: int, n: nat, p: nat, q: nat) returns (i: nat, j: nat)
    requires n <= |s| && p < q < |EventsBelow(s, window, n)|
    ensures i < j < n
    ensures EventFor(s, window, i, EventsBelow(s, window, n)[p]) && EventFor(s, window, j, EventsBelow(s, window, n)[q])
  {
    hide Root, Members, Emit;
    var before := EventsBelow(s, window, n - 1);
    EmitAtMostOne(Members(s, window, n - 1, |s|));
    if q < |before| {
      i, j := SeedsInOrder(s, window, n - 1, p, q);
    } else {
      EventsCome(s, window, n - 1);
      assert before[p] in before;
      i :| 0 <= i < n - 1 && EventFor(s, window, i, before[p]);
      j := n - 1;
    }
  }

  lemma EmitAtMostOne(ms: seq<Candidate>)
    ensures Emit(ms) == [] || Emit(ms) == [Emit(ms)[0]]
  {
  }

  /** Every candidate is accounted for: its group has an event, unless the group is a
      collision seen once. */
  lemma {:induction false} EveryCandidateAccounted(s: seq<Candidate>, window: int, k: nat)
    requires k < |s|
    ensures var ms := Members(s, window, Root(s, window, k), |s|);
      if s[k].etype == Collision && |ms| < 2 then Emit(ms) == []
      else exists e :: e in Consolidated(s, window) && Emit(ms) == [e]
  {
    var i := Root(s, window, k);
    RootOfRoot(s, window, k);
    SeedIsFirst(s, window, i, |s|);
    EventsCome(s, window, |s|);
    var ms := Members(s, window, i, |s|);
    if !(s[k].etype == Collision && |ms| < 2) {
      assert EventFor(s, window, i, Emit(ms)[0]);
    }
  }
}
