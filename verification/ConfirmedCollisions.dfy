/** Why a confirmed collision spans time. */
module ConfirmedCollisions {
  import opened Sequences
  import opened Events
  import opened EventAnalysis
  import opened EventAggregation

  ghost predicate CollisionsNamed(cs: seq<Candidate>)
  {
    forall c :: c in cs && c.etype == Collision ==> c.trackA > 0 && c.trackB > 0 && c.trackA != c.trackB
  }

  lemma {:induction false} MembersClashFree(s: seq<Candidate>, window: int, i: nat, n: nat)
    requires ClashFree(s) && n <= |s|
    ensures ClashFree(Members(s, window, i, n))
  {
    hide Root, Clash, ClashFree;
    NoClashYet();
    if n > 0 {
      MembersClashFree(s, window, i, n - 1);
      var before, c := Members(s, window, i, n - 1), s[n - 1];
      OneIsClashFree(c);
      forall x | x in before ensures !Clash(x, c) {
        var k := MemberPosition(s, window, i, n - 1, x);
        PositionsApart(s, k, n - 1);
      }
      ClashFreeConcat(before, [c]);
      assert before + [] == before;
    }
  }

  lemma MemberPosition(s: seq<Candidate>, window: int, i: nat, n: nat, c: Candidate) returns (k: nat)
    requires n <= |s| && c in Members(s, window, i, n)
    ensures k < n && s[k] == c
  {
    hide Root, Members;
    MemberIs(s, window, i, n, c);
    k :| 0 <= k < n && Root(s, window, k) == i && s[k] == c;
  }

  lemma NoClashYet()
    ensures ClashFree([])
  {
  }

  lemma OneIsClashFree(c: Candidate)
    ensures ClashFree([c])
  {
  }

  lemma PositionsApart(s: seq<Candidate>, p: nat, q: nat)
    requires ClashFree(s) && p < q < |s|
    ensures !Clash(s[p], s[q])
  {
  }

  lemma SortedClashFree(log: seq<Candidate>)
    requires ClashFree(log)
    ensures ClashFree(ByFrame(log))
  {
    ByFrameSorts(log);
    PermutationKeepsApart(log, ByFrame(log), Clash);
  }

  /** If no frame reported an ordered pair twice, every collision event involves two
      different named objects and ends strictly later than it starts. */
  lemma CollisionSpansTime(log: seq<Candidate>, window: int, e: AccidentEvent)
    requires ClashFree(log) && CollisionsNamed(log)
    requires e in Consolidated(ByFrame(log), window) && e.etype == Collision
    ensures e.startFrame < e.endFrame
    ensures |e.involved| == 2 && e.involved[0] != e.involved[1] && e.involved[0] > 0 && e.involved[1] > 0
  {
    hide Root, Members, ByFrame, EventOf, Gather, Largest, SmallestBox, Sum;
    var s := ByFrame(log);
    ByFrameSorts(log);
    PermutationLength(log, s);
    SortedClashFree(log);
    EventsCome(s, window, |s|);
    var i :| 0 <= i < |s| && EventFor(s, window, i, e);
    var ms := Members(s, window, i, |s|);
    SeedIsFirst(s, window, i, |s|);
    MembersClashFree(s, window, i, |s|);
    MembersSorted(s, window, i, |s|);
    GatherCounts(ms);
    EventKept(s[i], ms);
    GroupSpan(s, window, i);
    assert ms[0] in ms && ms[|ms| - 1] in ms;
    assert !Clash(ms[0], ms[|ms| - 1]);
  }

  lemma {:induction false} EventKept(c: Candidate, ms: seq<Candidate>)
    requires ms != [] && Gather(ms).count == |ms|
    ensures var e := EventOf(c, Gather(ms));
      && e.etype == c.etype && e.startFrame == c.frame && e.endFrame == ms[|ms| - 1].frame
      && e.involved == if c.trackB > 0 then [c.trackA, c.trackB] else [c.trackA]
  {
  }

  // ----- which pairs get an event -----

  /** A report that track a collided with track b, in this order. */
  predicate Reports(c: Candidate, a: int, b: int)
  {
    c.etype == Collision && c.trackA == a && c.trackB == b
  }

  lemma SecondMember(s: seq<Candidate>, window: int, i: nat, n: nat) returns (q: nat)
    requires n <= |s| && |Members(s, window, i, n)| >= 2
    ensures i < q < n && Root(s, window, q) == i
  {
    hide Root;
    if Root(s, window, n - 1) == i {
      q := n - 1;
      if n - 1 <= i {
        NoneBeforeSeed(s, window, i, n - 1);
      }
    } else {
      q := SecondMember(s, window, i, n - 1);
    }
  }

  lemma {:induction false} SomeMember(s: seq<Candidate>, window: int, i: nat, p: nat, n: nat)
    requires p < n <= |s| && Root(s, window, p) == i
    ensures |Members(s, window, i, n)| >= 1
  {
    hide Root;
    if p < n - 1 {
      SomeMember(s, window, i, p, n - 1);
    }
  }

  lemma {:induction false} TwoMembers(s: seq<Candidate>, window: int, i: nat, p: nat, q: nat, n: nat)
    requires p < q < n <= |s| && Root(s, window, p) == i && Root(s, window, q) == i
    ensures |Members(s, window, i, n)| >= 2
  {
    hide Root;
    if q < n - 1 {
      TwoMembers(s, window, i, p, q, n - 1);
    } else {
      SomeMember(s, window, i, p, q);
    }
  }

  ghost predicate HasCollision(events: seq<AccidentEvent>, a: int, b: int)
  {
    exists e :: e in events && e.etype == Collision && e.involved == [a, b]
  }

  ghost predicate ReportedTwice(s: seq<Candidate>, window: int, a: int, b: int)
  {
    exists p, q :: 0 <= p < q < |s| && Reports(s[p], a, b) && Reports(s[q], a, b) && s[q].frame - s[p].frame <= window
  }

  /** A group of two or more starts with two candidates of its key within the window. */
  lemma EventNeedsTwo(s: seq<Candidate>, window: int, a: int, b: int, e: AccidentEvent)
    requires e in Consolidated(s, window) && e.etype == Collision && e.involved == [a, b]
    ensures ReportedTwice(s, window, a, b)
  {
    EventsCome(s, window, |s|);
    var i :| 0 <= i < |s| && EventFor(s, window, i, e);
    EventStart(s, window, i, e);
    SeedIsFirst(s, window, i, |s|);
    var q := SecondMember(s, window, i, |s|);
    var p := LastSame(s, q, q);
    assert Reports(s[i], a, b) && SameKey(s[Root(s, window, q)], s[q]);
    assert Reports(s[p], a, b) && Reports(s[q], a, b);
  }

  lemma TwoMakeEvent(s: seq<Candidate>, window: int, a: int, b: int)
    requires FrameSorted(s) && b > 0 && ReportedTwice(s, window, a, b)
    ensures HasCollision(Consolidated(s, window), a, b)
  {
    hide Consolidated, Gather;
    var p, q :| 0 <= p < q < |s| && Reports(s[p], a, b) && Reports(s[q], a, b) && s[q].frame - s[p].frame <= window;
    CloseSharesRoot(s, window, p, q);
    var i := Root(s, window, p);
    TwoMembers(s, window, i, p, q, |s|);
    EveryCandidateAccounted(s, window, p);
    var e :| e in Consolidated(s, window) && Emit(Members(s, window, i, |s|)) == [e];
    RootOfRoot(s, window, p);
    EventStart(s, window, i, e);
  }

  /** A collision event of an ordered pair comes out exactly when two reports of that
      ordered pair lie within the window of each other. */
  lemma CollisionEventIff(s: seq<Candidate>, window: int, a: int, b: int)
    requires FrameSorted(s) && b > 0
    ensures HasCollision(Consolidated(s, window), a, b) <==> ReportedTwice(s, window, a, b)
  {
    hide Consolidated, ReportedTwice;
    if HasCollision(Consolidated(s, window), a, b) {
      var e :| e in Consolidated(s, window) && e.etype == Collision && e.involved == [a, b];
      EventNeedsTwo(s, window, a, b, e);
    }
    if ReportedTwice(s, window, a, b) {
      TwoMakeEvent(s, window, a, b);
    }
  }

  /** Reports of an ordered pair from two frames within the window, in a log of any order. */
  ghost predicate ReportedNear(log: seq<Candidate>, window: int, a: int, b: int)
  {
    exists c, d :: c in log && d in log && Reports(c, a, b) && Reports(d, a, b) && c.frame < d.frame <= c.frame + window
  }

  lemma NearIffTwice(s: seq<Candidate>, window: int, a: int, b: int)
    requires FrameSorted(s) && ClashFree(s)
    ensures ReportedNear(s, window, a, b) <==> ReportedTwice(s, window, a, b)
  {
    if ReportedNear(s, window, a, b) {
      var c, d :| c in s && d in s && Reports(c, a, b) && Reports(d, a, b) && c.frame < d.frame <= c.frame + window;
      var p :| 0 <= p < |s| && s[p] == c;
      var q :| 0 <= q < |s| && s[q] == d;
      assert p < q;
    }
    if ReportedTwice(s, window, a, b) {
      var p, q :| 0 <= p < q < |s| && Reports(s[p], a, b) && Reports(s[q], a, b) && s[q].frame - s[p].frame <= window;
      PositionsApart(s, p, q);
      assert s[p] in s && s[q] in s && s[p].frame < s[q].frame;
    }
  }

  lemma SameReports(log: seq<Candidate>, s: seq<Candidate>, window: int, a: int, b: int)
    requires forall c :: c in log <==> c in s
    ensures ReportedNear(log, window, a, b) <==> ReportedNear(s, window, a, b)
  {
  }

  /** For a log in which no frame reported an ordered pair twice. */
  lemma CollisionOfLogIff(log: seq<Candidate>, window: int, a: int, b: int)
    requires ClashFree(log) && b > 0
    ensures HasCollision(Consolidated(ByFrame(log), window), a, b) <==> ReportedNear(log, window, a, b)
  {
    hide Consolidated, ClashFree, FrameSorted, ByFrame, HasCollision, ReportedNear, ReportedTwice;
    var s := ByFrame(log);
    ByFrameSorts(log);
    SortedClashFree(log);
    PermutationLength(log, s);
    SameReports(log, s, window, a, b);
    NearIffTwice(s, window, a, b);
    CollisionEventIff(s, window, a, b);
  }
}
