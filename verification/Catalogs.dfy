/** The catalog as a function of everything recorded: what a single pass over the whole
    log would report for each class. */
module Catalogs {
  import opened Types
  import opened Sequences

  /** The largest finite double, the neutral first-seen time. */
  const DBL_MAX: real := 179769313486231570814527423731704356798070567525844996598917476803157260780028538760589558632766878171540458953514382464234321326889464182768467546703537516986049910576551282076245490090389328944075868508455133942304583236903222948165808559332123348274797826204144723168738177180919299881250404026184124858368.0

  datatype CatalogEntry = CatalogEntry(
    classId: int,
    totalDetections: nat,
    totalUniqueTracks: nat,
    firstSeen: real,
    lastSeen: real)

  function CountOf(log: seq<Detection>, c: int): nat
  {
    if log == [] then 0
    else CountOf(log[..|log| - 1], c) + if log[|log| - 1].classId == c then 1 else 0
  }

  /** The distinct positive track ids seen with class c. */
  function TracksOf(log: seq<Detection>, c: int): set<int>
  {
    set d | d in log && d.classId == c && d.trackId > 0 :: d.trackId
  }

  function FirstSeen(log: seq<Detection>, c: int): real
  {
    if log == [] then DBL_MAX
    else
      var d, before := log[|log| - 1], FirstSeen(log[..|log| - 1], c);
      if d.classId == c && d.timestamp < before then d.timestamp else before
  }

  function LastSeen(log: seq<Detection>, c: int): real
  {
    if log == [] then -1.0
    else
      var d, before := log[|log| - 1], LastSeen(log[..|log| - 1], c);
      if d.classId == c && d.timestamp > before then d.timestamp else before
  }

  function EntryOf(log: seq<Detection>, c: int): CatalogEntry
  {
    CatalogEntry(c, CountOf(log, c), |TracksOf(log, c)|, FirstSeen(log, c), LastSeen(log, c))
  }

  /** Entries of the classes below n that occur, in ascending order. */
  function EntriesBelow(log: seq<Detection>, n: nat): seq<CatalogEntry>
  {
    if n == 0 then []
    else EntriesBelow(log, n - 1) + if CountOf(log, n - 1) > 0 then [EntryOf(log, n - 1)] else []
  }

  /** One more than the largest class id that occurs. */
  function ClassBound(log: seq<Detection>): nat
  {
    if log == [] then 0
    else
      var before, c := ClassBound(log[..|log| - 1]), log[|log| - 1].classId;
      if c >= before then c + 1 else before
  }

  function CatalogOf(log: seq<Detection>): seq<CatalogEntry>
  {
    EntriesBelow(log, ClassBound(log))
  }

  ghost predicate Seen(log: seq<Detection>, c: int)
  {
    exists d :: d in log && d.classId == c
  }

  ghost predicate Listed(entries: seq<CatalogEntry>, c: int)
  {
    exists e :: e in entries && e.classId == c
  }

  lemma {:induction false} CountPositive(log: seq<Detection>, c: int)
    ensures CountOf(log, c) > 0 <==> Seen(log, c)
  {
    if log != [] {
      SplitLast(log);
      CountPositive(log[..|log| - 1], c);
      if Seen(log, c) {
        var d :| d in log && d.classId == c;
        assert d in log[..|log| - 1] || d == log[|log| - 1];
      }
    }
  }

  lemma {:induction false} BoundCovers(log: seq<Detection>)
    ensures forall d :: d in log ==> d.classId < ClassBound(log)
    ensures ClassBound(log) > 0 ==> exists d :: d in log && d.classId == ClassBound(log) - 1
  {
    if log != [] {
      var before := log[..|log| - 1];
      BoundCovers(before);
      SplitLast(log);
      assert log[|log| - 1] in log;
    }
  }

  /** Classes beyond those that occur add nothing. */
  lemma {:induction false} EntriesSettle(log: seq<Detection>, n: nat, m: nat)
    requires n <= m && forall d :: d in log ==> d.classId < n
    ensures EntriesBelow(log, m) == EntriesBelow(log, n)
  {
    if n < m {
      EntriesSettle(log, n, m - 1);
      CountPositive(log, m - 1);
    }
  }

  lemma {:induction false} EntriesAreCatalog(log: seq<Detection>, n: nat)
    requires forall d :: d in log ==> d.classId < n
    ensures EntriesBelow(log, n) == CatalogOf(log)
  {
    BoundCovers(log);
    assert ClassBound(log) <= n;
    EntriesSettle(log, ClassBound(log), n);
  }

  // ----- what the catalog lists -----

  ghost predicate Ascending(entries: seq<CatalogEntry>)
  {
    forall i, j :: 0 <= i < j < |entries| ==> entries[i].classId < entries[j].classId
  }

  lemma {:induction false} EntriesListed(log: seq<Detection>, n: nat)
    ensures Ascending(EntriesBelow(log, n))
    ensures forall e :: e in EntriesBelow(log, n) <==>
      0 <= e.classId < n && e == EntryOf(log, e.classId) && CountOf(log, e.classId) > 0
  {
    if n > 0 {
      EntriesListed(log, n - 1);
      var before := EntriesBelow(log, n - 1);
      forall i | 0 <= i < |before| ensures before[i].classId < n - 1 {
        assert before[i] in before;
      }
    }
  }

  /** The catalog lists exactly the classes seen, once each and in ascending order,
      each with its true figures. */
  lemma CatalogExact(log: seq<Detection>)
    requires forall d :: d in log ==> d.classId >= 0
    ensures Ascending(CatalogOf(log))
    ensures forall e :: e in CatalogOf(log) ==> e == EntryOf(log, e.classId)
    ensures forall c :: Listed(CatalogOf(log), c) <==> Seen(log, c)
  {
    EntriesListed(log, ClassBound(log));
    BoundCovers(log);
    forall c ensures Listed(CatalogOf(log), c) <==> Seen(log, c) {
      CountPositive(log, c);
      if Seen(log, c) {
        assert EntryOf(log, c) in CatalogOf(log);
      }
    }
  }

  function SumTotals(entries: seq<CatalogEntry>): nat
  {
    if entries == [] then 0 else SumTotals(entries[..|entries| - 1]) + entries[|entries| - 1].totalDetections
  }

  function CountBelow(log: seq<Detection>, n: nat): nat
  {
    if n == 0 then 0 else CountBelow(log, n - 1) + CountOf(log, n - 1)
  }

  lemma {:induction false} TotalsAreCounts(log: seq<Detection>, n: nat)
    ensures SumTotals(EntriesBelow(log, n)) == CountBelow(log, n)
  {
    if n > 0 {
      TotalsAreCounts(log, n - 1);
      var before := EntriesBelow(log, n - 1);
      if CountOf(log, n - 1) > 0 {
        assert (before + [EntryOf(log, n - 1)])[..|before|] == before;
      } else {
        assert before + [] == before;
      }
    }
  }

  lemma {:induction false} CountBelowStep(log: seq<Detection>, d: Detection, n: nat)
    ensures CountBelow(log + [d], n) == CountBelow(log, n) + if 0 <= d.classId < n then 1 else 0
  {
    assert (log + [d])[..|log|] == log;
    if n > 0 {
      CountBelowStep(log, d, n - 1);
    }
  }

  lemma {:induction false} CountAll(log: seq<Detection>, n: nat)
    requires forall d :: d in log ==> 0 <= d.classId < n
    ensures CountBelow(log, n) == |log|
  {
    if log == [] {
      CountNone(n);
    } else {
      SplitLast(log);
      assert log[|log| - 1] in log;
      CountAll(log[..|log| - 1], n);
      CountBelowStep(log[..|log| - 1], log[|log| - 1], n);
    }
  }

  lemma {:induction false} CountNone(n: nat)
    ensures CountBelow([], n) == 0
  {
    if n > 0 {
      CountNone(n - 1);
    }
  }

  /** No detection is lost or counted twice. */
  lemma TotalsAddUp(log: seq<Detection>)
    requires forall d :: d in log ==> d.classId >= 0
    ensures SumTotals(CatalogOf(log)) == |log|
  {
    BoundCovers(log);
    TotalsAreCounts(log, ClassBound(log));
    CountAll(log, ClassBound(log));
  }

  // ----- the figures of an entry -----

  lemma {:induction false} CountIsFilter(log: seq<Detection>, c: int)
    ensures CountOf(log, c) == |Filter(log, (d: Detection) => d.classId == c)|
  {
    if log != [] {
      CountIsFilter(log[..|log| - 1], c);
    }
  }

  ghost predicate IsFirst(log: seq<Detection>, c: int, t: real)
  {
    && t <= DBL_MAX
    && (forall d :: d in log && d.classId == c ==> t <= d.timestamp)
    && (t == DBL_MAX || exists d :: d in log && d.classId == c && d.timestamp == t)
  }

  ghost predicate IsLast(log: seq<Detection>, c: int, t: real)
  {
    && t >= -1.0
    && (forall d :: d in log && d.classId == c ==> t >= d.timestamp)
    && (t == -1.0 || exists d :: d in log && d.classId == c && d.timestamp == t)
  }

  lemma {:induction false} SeenTimes(log: seq<Detection>, c: int)
    ensures IsFirst(log, c, FirstSeen(log, c)) && IsLast(log, c, LastSeen(log, c))
  {
    if log != [] {
      var before, d := log[..|log| - 1], log[|log| - 1];
      SeenTimes(before, c);
      SplitLast(log);
      assert forall x :: x in log <==> x in before || x == d;
    }
  }

  /** The reported times are the true extremes of a class that occurs exactly when the
      true latest time is at least -1 and the true earliest at most the largest double. */
  lemma {:induction false} SeenTimesTrue(log: seq<Detection>, c: int, lo: real, hi: real)
    requires exists d :: d in log && d.classId == c && d.timestamp == lo
    requires exists d :: d in log && d.classId == c && d.timestamp == hi
    requires forall d :: d in log && d.classId == c ==> lo <= d.timestamp <= hi
    ensures FirstSeen(log, c) == lo <==> lo <= DBL_MAX
    ensures LastSeen(log, c) == hi <==> hi >= -1.0
  {
    SeenTimes(log, c);
  }

  /** A class seen only at time -5 is reported as last seen at -1. */
  lemma SeenBeforeMinusOne(d: Detection)
    requires d.classId >= 0 && d.timestamp == -5.0
    ensures LastSeen([d], d.classId) == -1.0 && FirstSeen([d], d.classId) == -5.0
    ensures exists e :: e in CatalogOf([d]) && e.classId == d.classId && e.lastSeen == -1.0
  {
    assert [d][..0] == [];
    assert LastSeen([], d.classId) == -1.0 && FirstSeen([], d.classId) == DBL_MAX;
    CatalogExact([d]);
    assert d in [d] && Seen([d], d.classId);
    assert Listed(CatalogOf([d]), d.classId);
    var e :| e in CatalogOf([d]) && e.classId == d.classId;
    assert e == EntryOf([d], d.classId);
  }

  /** The figures of an entry, told from the record: the detections of its class, their
      different positive names, and the first and the last of their times. */
  lemma {:induction false} EntryTold(log: seq<Detection>, e: CatalogEntry)
    requires e in CatalogOf(log) && forall d :: d in log ==> d.classId >= 0
    ensures var own := Filter(log, (d: Detection) => d.classId == e.classId);
      && own != [] && e.totalDetections == |own|
      && e.totalUniqueTracks == |set d | d in own && d.trackId > 0 :: d.trackId|
    ensures IsFirst(log, e.classId, e.firstSeen) && IsLast(log, e.classId, e.lastSeen)
  {
    CatalogExact(log);
    CountIsFilter(log, e.classId);
    SeenTimes(log, e.classId);
    var own := Filter(log, (d: Detection) => d.classId == e.classId);
    FilterMember(log, (d: Detection) => d.classId == e.classId);
    assert TracksOf(log, e.classId) == set d | d in own && d.trackId > 0 :: d.trackId;
    assert Listed(CatalogOf(log), e.classId);
  }

  // ----- the order of detections does not matter -----

  lemma {:induction false} EntriesPermute(a: seq<Detection>, b: seq<Detection>, n: nat)
    requires Permutation(a, b)
    ensures EntriesBelow(a, n) == EntriesBelow(b, n)
  {
    if n > 0 {
      EntriesPermute(a, b, n - 1);
      EntryPermutes(a, b, n - 1);
    }
  }

  lemma {:induction false} EntryPermutes(a: seq<Detection>, b: seq<Detection>, c: int)
    requires Permutation(a, b)
    ensures EntryOf(a, c) == EntryOf(b, c) && CountOf(a, c) == CountOf(b, c)
  {
    PermutationLength(a, b);
    var p := (d: Detection) => d.classId == c;
    CountIsFilter(a, c);
    CountIsFilter(b, c);
    FilterPermutation(a, b, p);
    PermutationLength(Filter(a, p), Filter(b, p));
    assert TracksOf(a, c) == TracksOf(b, c);
    SeenTimes(a, c);
    SeenTimes(b, c);
  }

  /** Recording the same detections in another order builds the same catalog. */
  lemma CatalogIgnoresOrder(a: seq<Detection>, b: seq<Detection>)
    requires Permutation(a, b)
    ensures CatalogOf(a) == CatalogOf(b)
  {
    PermutationLength(a, b);
    BoundCovers(a);
    BoundCovers(b);
    assert ClassBound(a) == ClassBound(b);
    EntriesPermute(a, b, ClassBound(a));
  }

  // ----- unique objects -----

  function SumUnique(entries: seq<CatalogEntry>): nat
  {
    if entries == [] then 0 else SumUnique(entries[..|entries| - 1]) + entries[|entries| - 1].totalUniqueTracks
  }

  ghost function TracksBelow(log: seq<Detection>, n: nat): set<int>
  {
    set d | d in log && 0 <= d.classId < n && d.trackId > 0 :: d.trackId
  }

  /** A track is never seen with two classes. */
  ghost predicate OneClassPerTrack(log: seq<Detection>)
  {
    forall d, e :: d in log && e in log && d.trackId == e.trackId > 0 ==> d.classId == e.classId
  }

  lemma TracksSplit(log: seq<Detection>, n: nat)
    requires OneClassPerTrack(log)
    ensures |TracksBelow(log, n + 1)| == |TracksBelow(log, n)| + |TracksOf(log, n)|
    ensures CountOf(log, n) == 0 ==> TracksOf(log, n) == {}
  {
    var a, b := TracksBelow(log, n), TracksOf(log, n);
    assert TracksBelow(log, n + 1) == a + b;
    assert a !! b;
    CountPositive(log, n);
  }

  lemma {:induction false} UniqueSnoc(entries: seq<CatalogEntry>, e: CatalogEntry)
    ensures SumUnique(entries + [e]) == SumUnique(entries) + e.totalUniqueTracks
  {
    assert (entries + [e])[..|entries|] == entries;
  }

  lemma {:induction false} UniqueBelow(log: seq<Detection>, n: nat)
    requires OneClassPerTrack(log)
    ensures SumUnique(EntriesBelow(log, n)) == |TracksBelow(log, n)|
  {
    hide TracksBelow, TracksOf, OneClassPerTrack, SumUnique, CountOf, FirstSeen, LastSeen;
    NoTracks(log);
    if n > 0 {
      UniqueBelow(log, n - 1);
      TracksSplit(log, n - 1);
      UniqueSnoc(EntriesBelow(log, n - 1), EntryOf(log, n - 1));
      assert EntriesBelow(log, n - 1) + [] == EntriesBelow(log, n - 1);
    }
  }

  lemma NoTracks(log: seq<Detection>)
    ensures TracksBelow(log, 0) == {} && SumUnique([]) == 0
  {
  }

  /** With one class per track, the unique counts add up to the number of tracks seen. */
  lemma UniqueAddUp(log: seq<Detection>)
    requires OneClassPerTrack(log) && forall d :: d in log ==> d.classId >= 0
    ensures SumUnique(CatalogOf(log)) == |set d | d in log && d.trackId > 0 :: d.trackId|
  {
    BoundCovers(log);
    UniqueBelow(log, ClassBound(log));
    assert TracksBelow(log, ClassBound(log)) == set d | d in log && d.trackId > 0 :: d.trackId;
  }
}
