/** Events are grouped by the ordered pair of tracks. When would grouping by the
    unordered pair have made no difference? */
module EventPairs {
  import opened Events

  /** The candidate with the lower of two tracks first. */
  function Oriented(c: Candidate): Candidate
  {
    if 0 < c.trackB < c.trackA then c.(trackA := c.trackB, trackB := c.trackA) else c
  }

  function OrientedAll(s: seq<Candidate>): (r: seq<Candidate>)
    ensures |r| == |s|
  {
    seq(|s|, k requires 0 <= k < |s| => Oriented(s[k]))
  }

  /** No pair is reported both ways round within the window. */
  ghost predicate OneWay(s: seq<Candidate>, window: int)
  {
    forall a, b :: 0 <= a < b < |s| && SameKey(Oriented(s[a]), Oriented(s[b])) && s[b].frame - s[a].frame <= window ==>
      SameKey(s[a], s[b])
  }

  lemma {:induction false} LastSameOriented(s: seq<Candidate>, j: nat)
    requires j < |s|
    ensures LastSame(s, j, j) <= LastSame(OrientedAll(s), j, j)
  {
    var p := LastSame(s, j, j);
    assert p >= 0 ==> SameKey(OrientedAll(s)[p], OrientedAll(s)[j]);
  }

  lemma {:induction false} RootOriented(s: seq<Candidate>, window: int, j: nat)
    requires FrameSorted(s) && OneWay(s, window) && j < |s|
    ensures Root(OrientedAll(s), window, j) == Root(s, window, j)
  {
    var p := LastSame(OrientedAll(s), j, j);
    LastSameOriented(s, j);
    if p >= 0 && s[j].frame - s[p].frame <= window {
      assert SameKey(s[p], s[j]);
      RootOriented(s, window, p);
    }
  }

  lemma OrientedSorted(s: seq<Candidate>)
    requires FrameSorted(s)
    ensures FrameSorted(OrientedAll(s))
  {
  }

  /** Grouping by unordered pairs forms the same groups exactly when no pair is reported
      both ways round within the window. */
  lemma {:induction false} SameGroupsIff(s: seq<Candidate>, window: int)
    requires FrameSorted(s)
    ensures (forall j :: 0 <= j < |s| ==> Root(OrientedAll(s), window, j) == Root(s, window, j)) <==> OneWay(s, window)
  {
    if OneWay(s, window) {
      forall j | 0 <= j < |s| ensures Root(OrientedAll(s), window, j) == Root(s, window, j) {
        RootOriented(s, window, j);
      }
    } else {
      var a, b :| 0 <= a < b < |s| && SameKey(Oriented(s[a]), Oriented(s[b])) && s[b].frame - s[a].frame <= window
        && !SameKey(s[a], s[b]);
      OrientedSorted(s);
      CloseSharesRoot(OrientedAll(s), window, a, b);
      assert SameKey(s[Root(s, window, a)], s[a]) && SameKey(s[Root(s, window, b)], s[b]);
    }
  }

  // ----- the events -----

  function OrientedEvent(e: AccidentEvent): AccidentEvent
  {
    if |e.involved| == 2 && 0 < e.involved[1] < e.involved[0] then e.(involved := [e.involved[1], e.involved[0]]) else e
  }

  function OrientedEvents(es: seq<AccidentEvent>): seq<AccidentEvent>
  {
    seq(|es|, k requires 0 <= k < |es| => OrientedEvent(es[k]))
  }

  lemma {:induction false} MembersOriented(s: seq<Candidate>, window: int, i: nat, n: nat)
    requires FrameSorted(s) && OneWay(s, window) && n <= |s|
    ensures Members(OrientedAll(s), window, i, n) == OrientedAll(Members(s, window, i, n))
  {
    hide Root, OneWay, Oriented;
    if n > 0 {
      MembersOriented(s, window, i, n - 1);
      RootOriented(s, window, n - 1);
    }
  }

  lemma {:induction false} GatherOriented(ms: seq<Candidate>)
    requires ms != []
    ensures Gather(OrientedAll(ms)) == Gather(ms)
  {
    if |ms| > 1 {
      GatherOriented(ms[..|ms| - 1]);
      assert OrientedAll(ms)[..|ms| - 1] == OrientedAll(ms[..|ms| - 1]);
    }
  }

  lemma EmitOriented(ms: seq<Candidate>)
    ensures Emit(OrientedAll(ms)) == OrientedEvents(Emit(ms))
  {
    hide Gather;
    if ms != [] {
      GatherOriented(ms);
      GatherCounts(ms);
    }
  }

  lemma {:induction false} EventsOriented(s: seq<Candidate>, window: int, i: nat)
    requires FrameSorted(s) && OneWay(s, window) && i <= |s|
    ensures EventsBelow(OrientedAll(s), window, i) == OrientedEvents(EventsBelow(s, window, i))
  {
    hide Root, OneWay, Members, Emit, OrientedEvent;
    if i > 0 {
      EventsOriented(s, window, i - 1);
      RootOriented(s, window, i - 1);
      MembersOriented(s, window, i - 1, |s|);
      EmitOriented(Members(s, window, i - 1, |s|));
    }
  }

  /** Then the events are the same too, but for the order in which they name two objects. */
  lemma SameEventsOneWay(s: seq<Candidate>, window: int)
    requires FrameSorted(s) && OneWay(s, window)
    ensures Consolidated(OrientedAll(s), window) == OrientedEvents(Consolidated(s, window))
  {
    EventsOriented(s, window, |s|);
  }
}
