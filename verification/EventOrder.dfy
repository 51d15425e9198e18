/** The events do not depend on the order in which candidates were recorded: every
    group is named by a value, its key and the frame it starts at, that can be read
    off the set of candidates. */
module EventOrder {
  import opened Sequences
  import opened Events
  import opened EventAggregation

  datatype GroupId = GroupId(etype: EventType, trackA: int, trackB: int, start: int)

  ghost function Universe(s: seq<Candidate>): set<Candidate>
  {
    set c | c in s
  }

  ghost function FramesOf(all: set<Candidate>, c: Candidate): set<int>
  {
    set d | d in all && SameKey(d, c) :: d.frame
  }

  ghost predicate IsMaxBelow(frames: set<int>, f: int, m: int)
  {
    m in frames && m < f && forall g :: g in frames && g < f ==> g <= m
  }

  lemma MaxBelowExists(frames: set<int>, f: int, g: int)
    requires g in frames && g < f
    ensures exists m :: IsMaxBelow(frames, f, m)
    decreases f - g
  {
    if !IsMaxBelow(frames, f, g) {
      var h :| h in frames && h < f && h > g;
      MaxBelowExists(frames, f, h);
    }
  }

  /** Steps down through the frames while the next lower one is within the window. */
  ghost function StartFrame(frames: set<int>, window: int, f: int): int
    decreases |set g | g in frames && g < f|
  {
    if exists g :: g in frames && f - window <= g < f then
      var g :| g in frames && f - window <= g < f;
      MaxBelowExists(frames, f, g);
      var m :| IsMaxBelow(frames, f, m);
      FewerBelow(frames, m, f);
      StartFrame(frames, window, m)
    else f
  }

  lemma FewerBelow(frames: set<int>, m: int, f: int)
    requires m in frames && m < f
    ensures |set g | g in frames && g < m| < |set g | g in frames && g < f|
  {
    var a, b := set g | g in frames && g < m, set g | g in frames && g < f;
    assert a <= b - {m};
    SubsetSize(a, b - {m});
  }

  lemma SubsetSize<T>(a: set<T>, b: set<T>)
    requires a <= b
    ensures |a| <= |b|
  {
    assert b == a + (b - a);
  }

  ghost function IdOf(all: set<Candidate>, window: int, c: Candidate): GroupId
  {
    GroupId(c.etype, c.trackA, c.trackB, StartFrame(FramesOf(all, c), window, c.frame))
  }

  lemma FrameWitness(s: seq<Candidate>, c: Candidate, g: int) returns (q: nat)
    requires g in FramesOf(Universe(s), c)
    ensures q < |s| && SameKey(s[q], c) && s[q].frame == g
  {
    var d :| d in Universe(s) && SameKey(d, c) && d.frame == g;
    q :| 0 <= q < |s| && s[q] == d;
  }

  lemma FrameOccurs(s: seq<Candidate>, c: Candidate, q: nat)
    requires q < |s| && SameKey(s[q], c)
    ensures s[q].frame in FramesOf(Universe(s), c)
  {
    assert s[q] in Universe(s);
  }

  lemma {:induction false} StartFrameSteps(frames: set<int>, window: int, f: int, m: int)
    requires IsMaxBelow(frames, f, m) && f - window <= m
    ensures StartFrame(frames, window, f) == StartFrame(frames, window, m)
  {
    assert m in frames && f - window <= m < f;
    assert forall n :: IsMaxBelow(frames, f, n) ==> n == m;
  }

  lemma {:induction false} StartFrameStays(frames: set<int>, window: int, f: int)
    requires forall g :: g in frames && g < f ==> g < f - window
    ensures StartFrame(frames, window, f) == f
  {
  }

  /** The frame of the last candidate of the same key bounds all lower frames. */
  lemma {:induction false} LowerFrames(s: seq<Candidate>, k: nat, g: int)
    requires FrameSorted(s) && k < |s|
    requires g in FramesOf(Universe(s), s[k]) && g < s[k].frame
    ensures LastSame(s, k, k) >= 0 && g <= s[LastSame(s, k, k)].frame
  {
    var q := FrameWitness(s, s[k], g);
    assert q < k;
  }

  /** The seed of a group is at the frame named by the group's value. */
  lemma {:induction false} SeedFrame(s: seq<Candidate>, window: int, k: nat)
    requires FrameSorted(s) && window >= 0 && k < |s|
    ensures s[Root(s, window, k)].frame == StartFrame(FramesOf(Universe(s), s[k]), window, s[k].frame)
  {
    hide StartFrame, FramesOf, Universe;
    var p := LastSame(s, k, k);
    var frames, f := FramesOf(Universe(s), s[k]), s[k].frame;
    forall g | g in frames && g < f ensures p >= 0 && g <= s[p].frame {
      LowerFrames(s, k, g);
    }
    if p >= 0 && f - s[p].frame <= window {
      SeedFrame(s, window, p);
      SameFrames(Universe(s), s[p], s[k]);
      FrameOccurs(s, s[k], p);
      if s[p].frame < f {
        assert IsMaxBelow(frames, f, s[p].frame);
        StartFrameSteps(frames, window, f, s[p].frame);
      }
    } else {
      StartFrameStays(frames, window, f);
    }
  }

  lemma SameFrames(all: set<Candidate>, a: Candidate, b: Candidate)
    requires SameKey(a, b)
    ensures FramesOf(all, a) == FramesOf(all, b)
  {
  }

  lemma {:induction false} GroupByValue(s: seq<Candidate>, window: int, i: nat, k: nat)
    requires FrameSorted(s) && window >= 0 && i < |s| && k < |s| && Root(s, window, i) == i
    ensures Root(s, window, k) == i <==> IdOf(Universe(s), window, s[k]) == IdOf(Universe(s), window, s[i])
  {
    hide StartFrame, FramesOf, Universe, Root;
    RootBefore(s, window, k);
    SeedFrame(s, window, i);
    SeedFrame(s, window, k);
    var r := Root(s, window, k);
    if r == i {
      SameFrames(Universe(s), s[k], s[i]);
    }
    if IdOf(Universe(s), window, s[k]) == IdOf(Universe(s), window, s[i]) {
      SameFrameSharesRoot(s, window, r, i);
    }
  }

  lemma {:induction false} SameFrameSharesRoot(s: seq<Candidate>, window: int, a: nat, b: nat)
    requires FrameSorted(s) && window >= 0 && a < |s| && b < |s|
    requires SameKey(s[a], s[b]) && s[a].frame == s[b].frame
    ensures Root(s, window, a) == Root(s, window, b)
  {
    if a < b {
      CloseSharesRoot(s, window, a, b);
    } else if b < a {
      CloseSharesRoot(s, window, b, a);
    }
  }

  lemma {:induction false} RootBefore(s: seq<Candidate>, window: int, k: nat)
    requires k < |s|
    ensures Root(s, window, k) <= k && SameKey(s[Root(s, window, k)], s[k])
    ensures Root(s, window, Root(s, window, k)) == Root(s, window, k)
  {
    RootOfRoot(s, window, k);
  }

  ghost function HasId(all: set<Candidate>, window: int, id: GroupId): Candidate -> bool
  {
    c => IdOf(all, window, c) == id
  }

  lemma {:induction false} MembersByValue(s: seq<Candidate>, window: int, i: nat, n: nat)
    requires FrameSorted(s) && window >= 0 && i < |s| && Root(s, window, i) == i && n <= |s|
    ensures Members(s, window, i, n)
         == Filter(s[..n], HasId(Universe(s), window, IdOf(Universe(s), window, s[i])))
  {
    hide Root, Universe, IdOf, FrameSorted;
    if n > 0 {
      MembersByValue(s, window, i, n - 1);
      GroupByValue(s, window, i, n - 1);
      assert s[..n][..n - 1] == s[..n - 1] && s[..n][n - 1] == s[n - 1];
    }
  }

  // ----- the events by group value -----

  ghost function EventsOfId(s: seq<Candidate>, window: int): GroupId -> seq<AccidentEvent>
  {
    id => Emit(Filter(s, HasId(Universe(s), window, id)))
  }

  /** The values of the groups seeded before position i. */
  ghost function Ids(s: seq<Candidate>, window: int, i: nat): seq<GroupId>
    requires i <= |s|
  {
    if i == 0 then []
    else
      Ids(s, window, i - 1)
      + if Root(s, window, i - 1) == i - 1 then [IdOf(Universe(s), window, s[i - 1])] else []
  }

  lemma {:induction false} EventsByValue(s: seq<Candidate>, window: int, i: nat)
    requires FrameSorted(s) && window >= 0 && i <= |s|
    ensures EventsBelow(s, window, i) == FlatMap(Ids(s, window, i), EventsOfId(s, window))
  {
    hide Root, Universe, IdOf, FrameSorted, Emit, FlatMap, Members, EventsOfId;
    if i > 0 {
      EventsByValue(s, window, i - 1);
      var before := Ids(s, window, i - 1);
      if Root(s, window, i - 1) == i - 1 {
        var id := IdOf(Universe(s), window, s[i - 1]);
        GroupEvents(s, window, i - 1);
        FlatMapSnoc(before, id, EventsOfId(s, window));
      } else {
        assert before + [] == before;
        assert EventsBelow(s, window, i - 1) + [] == EventsBelow(s, window, i - 1);
      }
    } else {
      FlatMapNone(EventsOfId(s, window));
    }
  }

  lemma FlatMapNone<T, U>(f: T -> seq<U>)
    ensures FlatMap([], f) == []
  {
  }

  lemma {:induction false} GroupEvents(s: seq<Candidate>, window: int, i: nat)
    requires FrameSorted(s) && window >= 0 && i < |s| && Root(s, window, i) == i
    ensures EventsOfId(s, window)(IdOf(Universe(s), window, s[i])) == Emit(Members(s, window, i, |s|))
  {
    hide Root, Universe, IdOf, FrameSorted, Emit, Members;
    MembersByValue(s, window, i, |s|);
    assert s[..|s|] == s;
  }

  ghost predicate NamesGroup(s: seq<Candidate>, window: int, n: nat, id: GroupId)
    requires n <= |s|
  {
    exists k :: 0 <= k < n && IdOf(Universe(s), window, s[k]) == id
  }

  lemma {:induction false} IdsAre(s: seq<Candidate>, window: int, i: nat, id: GroupId)
    requires FrameSorted(s) && window >= 0 && i <= |s|
    ensures id in Ids(s, window, i) <==> NamesGroup(s, window, i, id)
  {
    hide Universe, IdOf, FrameSorted, Root;
    if i > 0 {
      IdsAre(s, window, i - 1, id);
      RootBefore(s, window, i - 1);
      GroupByValue(s, window, Root(s, window, i - 1), i - 1);
      if NamesGroup(s, window, i, id) {
        var k :| 0 <= k < i && IdOf(Universe(s), window, s[k]) == id;
        if k < i - 1 {
          assert NamesGroup(s, window, i - 1, id);
        } else if Root(s, window, k) < k {
          assert IdOf(Universe(s), window, s[Root(s, window, k)]) == id;
          assert NamesGroup(s, window, i - 1, id);
        }
      }
    }
  }

  lemma {:induction false} GroupIdsDistinct(s: seq<Candidate>, window: int, i: nat)
    requires FrameSorted(s) && window >= 0 && i <= |s|
    ensures Distinct(Ids(s, window, i))
  {
    hide Universe, IdOf, FrameSorted, Root;
    if i > 0 {
      GroupIdsDistinct(s, window, i - 1);
      if Root(s, window, i - 1) == i - 1 {
        var id := IdOf(Universe(s), window, s[i - 1]);
        IdsAre(s, window, i - 1, id);
        if NamesGroup(s, window, i - 1, id) {
          var k :| 0 <= k < i - 1 && IdOf(Universe(s), window, s[k]) == id;
          GroupByValue(s, window, i - 1, k);
          RootBefore(s, window, k);
        }
      }
    }
  }

  lemma {:induction false} IdsPermute(s: seq<Candidate>, t: seq<Candidate>, window: int)
    requires FrameSorted(s) && FrameSorted(t) && Permutation(s, t) && window >= 0
    ensures Universe(s) == Universe(t)
    ensures Permutation(Ids(s, window, |s|), Ids(t, window, |t|))
  {
    PermutationLength(s, t);
    assert Universe(s) == Universe(t);
    var a, b := Ids(s, window, |s|), Ids(t, window, |t|);
    GroupIdsDistinct(s, window, |s|);
    GroupIdsDistinct(t, window, |t|);
    forall id: GroupId ensures multiset(a)[id] == multiset(b)[id] {
      IdsAre(s, window, |s|, id);
      IdsAre(t, window, |t|, id);
      NamesInBoth(s, t, window, id);
      NamesInBoth(t, s, window, id);
      DistinctCounts(a, id);
      DistinctCounts(b, id);
    }
    assert multiset(a) == multiset(b);
  }

  lemma NamesInBoth(s: seq<Candidate>, t: seq<Candidate>, window: int, id: GroupId)
    requires Permutation(s, t) && Universe(s) == Universe(t)
    ensures NamesGroup(s, window, |s|, id) ==> NamesGroup(t, window, |t|, id)
  {
    PermutationLength(s, t);
    if NamesGroup(s, window, |s|, id) {
      var k :| 0 <= k < |s| && IdOf(Universe(s), window, s[k]) == id;
      assert s[k] in t;
      var q :| 0 <= q < |t| && t[q] == s[k];
    }
  }

  // ----- equal groups make equal events -----

  /** Candidates of one frame carry one timestamp. */
  ghost predicate Clocked(s: seq<Candidate>)
  {
    forall c, d :: c in s && d in s && c.frame == d.frame ==> c.timestamp == d.timestamp
  }

  lemma LargestUnique(v: real, w: real, ms: seq<Candidate>, ns: seq<Candidate>, f: Candidate -> real)
    requires Largest(v, ms, f) && Largest(w, ns, f) && forall c :: c in ms <==> c in ns
    ensures v == w
  {
  }

  lemma SmallestUnique(v: real, w: real, ms: seq<Candidate>, ns: seq<Candidate>, f: Candidate -> real)
    requires Smallest(v, ms, f) && Smallest(w, ns, f) && forall c :: c in ms <==> c in ns
    ensures v == w
  {
  }

  lemma EndsAgree(ms: seq<Candidate>, ns: seq<Candidate>)
    requires ms != [] && Permutation(ms, ns) && FrameSorted(ms) && FrameSorted(ns) && Clocked(ms)
    ensures ns != []
    ensures ms[0].frame == ns[0].frame && ms[0].timestamp == ns[0].timestamp
    ensures var m, n := ms[|ms| - 1], ns[|ns| - 1]; m.frame == n.frame && m.timestamp == n.timestamp
  {
    PermutationLength(ms, ns);
    assert ns[0] in ms && ms[0] in ns && ns[|ns| - 1] in ms && ms[|ms| - 1] in ns;
    var a :| 0 <= a < |ms| && ms[a] == ns[0];
    var b :| 0 <= b < |ns| && ns[b] == ms[0];
    var c :| 0 <= c < |ms| && ms[c] == ns[|ns| - 1];
    var d :| 0 <= d < |ns| && ns[d] == ms[|ms| - 1];
  }

  lemma {:induction false} GathersAgree(ms: seq<Candidate>, ns: seq<Candidate>)
    requires ms != [] && ns != [] && Permutation(ms, ns) && FrameSorted(ms) && FrameSorted(ns) && Clocked(ms)
    ensures Gather(ms) == Gather(ns)
  {
    hide Largest, Smallest, Sum, Gather, FrameSorted;
    PermutationLength(ms, ns);
    EndsAgree(ms, ns);
    GatherSummarises(ms);
    GatherSummarises(ns);
    var g, h := Gather(ms), Gather(ns);
    LargestUnique(g.maxScore, h.maxScore, ms, ns, ScoreOf);
    SmallestUnique(g.x, h.x, ms, ns, Left);
    SmallestUnique(g.y, h.y, ms, ns, Top);
    LargestUnique(g.x2, h.x2, ms, ns, Right);
    LargestUnique(g.y2, h.y2, ms, ns, Bottom);
    SumPermutation(ms, ns, OverlapOf);
    SumPermutation(ms, ns, SpeedOf);
    SumPermutation(ms, ns, DirectionOf);
    SumPermutation(ms, ns, ProximityOf);
  }

  lemma EmitsAgree(ms: seq<Candidate>, ns: seq<Candidate>)
    requires Permutation(ms, ns) && FrameSorted(ms) && FrameSorted(ns) && Clocked(ms)
    requires forall c, d :: c in ms && d in ms ==> SameKey(c, d)
    ensures Emit(ms) == Emit(ns)
  {
    hide Gather, FrameSorted, Clocked;
    PermutationLength(ms, ns);
    if ms != [] {
      EndsAgree(ms, ns);
      GathersAgree(ms, ns);
      GatherCounts(ms);
      assert ns[0] in ms && ms[0] in ms;
      assert EventOf(ms[0], Gather(ms)) == EventOf(ns[0], Gather(ms));
    }
  }

  lemma {:induction false} FilterSorted(s: seq<Candidate>, p: Candidate -> bool)
    requires FrameSorted(s)
    ensures FrameSorted(Filter(s, p))
  {
    if s != [] {
      var s' := s[..|s| - 1];
      FilterSorted(s', p);
      FilterMember(s', p);
      forall c | c in Filter(s', p) ensures c.frame <= s[|s| - 1].frame {
        assert c in s';
      }
    }
  }

  lemma EventsOfIdAgree(s: seq<Candidate>, t: seq<Candidate>, window: int, id: GroupId)
    requires FrameSorted(s) && FrameSorted(t) && Permutation(s, t) && Universe(s) == Universe(t) && Clocked(s)
    ensures EventsOfId(s, window)(id) == EventsOfId(t, window)(id)
  {
    var p := HasId(Universe(s), window, id);
    FilterPermutation(s, t, p);
    FilterSorted(s, p);
    FilterSorted(t, p);
    FilterMember(s, p);
    EmitsAgree(Filter(s, p), Filter(t, p));
  }

  // ----- a negative window -----

  ghost function Alone(): Candidate -> seq<AccidentEvent>
  {
    c => Emit([c])
  }

  lemma {:induction false} AlwaysSeed(s: seq<Candidate>, window: int, k: nat)
    requires FrameSorted(s) && window < 0 && k < |s|
    ensures Root(s, window, k) == k
  {
  }

  lemma {:induction false} OnlyItself(s: seq<Candidate>, window: int, i: nat, n: nat)
    requires FrameSorted(s) && window < 0 && i < |s| && n <= |s|
    ensures Members(s, window, i, n) == if i < n then [s[i]] else []
  {
    hide Root, FrameSorted;
    if n > 0 {
      OnlyItself(s, window, i, n - 1);
      AlwaysSeed(s, window, n - 1);
    }
  }

  /** With a negative window nothing is ever merged. */
  lemma {:induction false} NothingMerges(s: seq<Candidate>, window: int, i: nat)
    requires FrameSorted(s) && window < 0 && i <= |s|
    ensures EventsBelow(s, window, i) == FlatMap(s[..i], Alone())
  {
    hide Root, Members, Emit, FrameSorted, FlatMap, Alone;
    if i > 0 {
      NothingMerges(s, window, i - 1);
      AlwaysSeed(s, window, i - 1);
      OnlyItself(s, window, i - 1, |s|);
      assert s[..i] == s[..i - 1] + [s[i - 1]];
      FlatMapSnoc(s[..i - 1], s[i - 1], Alone());
      AloneEmits(s[i - 1]);
    } else {
      FlatMapNone(Alone());
    }
  }

  lemma AloneEmits(c: Candidate)
    ensures Alone()(c) == Emit([c])
  {
    hide Emit;
  }

  // ----- the theorem -----

  /** Recording the same candidates in another order yields the same events. */
  lemma ConsolidationIgnoresOrder(a: seq<Candidate>, b: seq<Candidate>, window: int)
    requires Permutation(a, b) && Clocked(a)
    ensures Permutation(Consolidated(ByFrame(a), window), Consolidated(ByFrame(b), window))
  {
    hide FlatMap, Ids, EventsOfId, EventsBelow, FrameSorted, ByFrame, Universe;
    var s, t := ByFrame(a), ByFrame(b);
    ByFrameSorts(a);
    ByFrameSorts(b);
    PermutationLength(a, s);
    if window >= 0 {
      EventsByValue(s, window, |s|);
      EventsByValue(t, window, |t|);
      IdsPermute(s, t, window);
      FlatMapPermutation(Ids(s, window, |s|), Ids(t, window, |t|), EventsOfId(s, window));
      forall id | id in Ids(t, window, |t|) ensures EventsOfId(s, window)(id) == EventsOfId(t, window)(id) {
        EventsOfIdAgree(s, t, window, id);
      }
      FlatMapAgree(Ids(t, window, |t|), EventsOfId(s, window), EventsOfId(t, window));
    } else {
      NothingMerges(s, window, |s|);
      NothingMerges(t, window, |t|);
      assert s[..|s|] == s && t[..|t|] == t;
      FlatMapPermutation(s, t, Alone());
    }
  }
}
