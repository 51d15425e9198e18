/** The catalog builder: per-class accumulators in a list that grows when a new class
    id turns up. */
module CatalogBuilderModule {
  import opened Types
  import opened Sequences
  import opened Catalogs

  datatype Accumulator = Accumulator(
    classId: int,
    totalDetections: int,
    trackIds: seq<int>,
    firstSeen: real,
    lastSeen: real)

  function Blank(c: int): Accumulator { Accumulator(c, 0, [], DBL_MAX, -1.0) }

  /** An accumulator holds the figures of its class over the log. */
  ghost predicate Reflects(acc: Accumulator, c: int, log: seq<Detection>)
  {
    && acc.classId == c && acc.totalDetections == CountOf(log, c)
    && Distinct(acc.trackIds) && (set id | id in acc.trackIds) == TracksOf(log, c)
    && acc.firstSeen == FirstSeen(log, c) && acc.lastSeen == LastSeen(log, c)
  }

  class CatalogBuilder {
    var classes: seq<Accumulator>
    var totalDetections: int
    ghost var log: seq<Detection>

    ghost predicate Valid()
      reads this
    {
      && totalDetections == |log|
      && (forall c :: 0 <= c < |classes| ==> Reflects(classes[c], c, log))
      && (forall d :: d in log ==> 0 <= d.classId < |classes|)
    }

    constructor (numClasses: int)
      ensures Valid() && log == []
    {
      var n := if numClasses > 0 then numClasses else 256;
      classes := seq(n, c => Blank(c));
      totalDetections := 0;
      log := [];
    }

    method HasTrackId(acc: Accumulator, trackId: int) returns (found: bool)
      ensures found <==> trackId in acc.trackIds
    {
      for i := 0 to |acc.trackIds|
        invariant trackId !in acc.trackIds[..i]
      {
        if acc.trackIds[i] == trackId {
          return true;
        }
      }
      found := false;
    }

    /** Makes room for class cid, 63 classes beyond it included. */
    method Grow(cid: int)
      requires Valid() && cid >= 0
      modifies this`classes
      ensures Valid() && cid < |classes|
    {
      hide CountOf, FirstSeen, LastSeen, TracksOf, Distinct;
      if cid >= |classes| {
        var n := |classes|;
        UnseenBeyond(log, n);
        classes := classes + seq(cid + 64 - n, k requires 0 <= k => Blank(n + k));
      }
    }

    /** Takes in one detection. */
    method AddOne(det: Detection)
      requires Valid() && det.classId >= 0
      modifies this
      ensures Valid() && log == old(log) + [det]
    {
      hide Reflects;
      Grow(det.classId);
      var acc := classes[det.classId];
      acc := acc.(totalDetections := acc.totalDetections + 1);
      totalDetections := totalDetections + 1;
      if det.timestamp < acc.firstSeen {
        acc := acc.(firstSeen := det.timestamp);
      }
      if det.timestamp > acc.lastSeen {
        acc := acc.(lastSeen := det.timestamp);
      }
      var known := HasTrackId(acc, det.trackId);
      if det.trackId > 0 && !known {
        acc := acc.(trackIds := acc.trackIds + [det.trackId]);
      }
      Absorbed(classes[det.classId], log, det);
      forall c | 0 <= c < |classes| && c != det.classId ensures Reflects(classes[c], c, log + [det]) {
        Unaffected(classes[c], c, log, det);
      }
      classes := classes[det.classId := acc];
      log := log + [det];
    }

    method Add(detections: DetectionList)
      requires Valid() && forall d :: d in detections.items ==> d.classId >= 0
      modifies this
      ensures Valid() && log == old(log) + detections.items
    {
      for i := 0 to |detections.items|
        invariant Valid() && log == old(log) + detections.items[..i]
      {
        AddOne(detections.items[i]);
        assert detections.items[..i + 1] == detections.items[..i] + [detections.items[i]];
      }
    }

    /** The incremental catalog is the one a batch pass over the log would give. */
    method Build() returns (entries: seq<CatalogEntry>)
      requires Valid()
      ensures entries == CatalogOf(log)
    {
      hide CountOf, FirstSeen, LastSeen, TracksOf;
      entries := [];
      for c := 0 to |classes|
        invariant entries == EntriesBelow(log, c)
      {
        var acc := classes[c];
        assert Reflects(acc, c, log);
        DistinctSize(acc.trackIds);
        if acc.totalDetections != 0 {
          entries := entries + [CatalogEntry(acc.classId, acc.totalDetections, |acc.trackIds|, acc.firstSeen,
            acc.lastSeen)];
        }
      }
      EntriesAreCatalog(log, |classes|);
    }

    method Reset()
      requires Valid()
      modifies this
      ensures Valid() && log == []
    {
      hide CountOf, FirstSeen, LastSeen, TracksOf, Distinct;
      ghost var before := classes;
      for c := 0 to |classes|
        invariant |classes| == |before|
        invariant forall k :: 0 <= k < c ==> classes[k] == Blank(k)
        invariant forall k :: c <= k < |classes| ==> classes[k] == before[k]
      {
        assert Reflects(before[c], c, old(log));
        classes := classes[c := classes[c].(totalDetections := 0, trackIds := [], firstSeen := DBL_MAX,
          lastSeen := -1.0)];
      }
      totalDetections := 0;
      log := [];
      UnseenBeyond([], 0);
    }
  }

  lemma DistinctSize(s: seq<int>)
    requires Distinct(s)
    ensures |set id | id in s| == |s|
  {
    if s != [] {
      var front, last := s[..|s| - 1], s[|s| - 1];
      DistinctSize(front);
      assert (set id | id in s) == (set id | id in front) + {last};
    } else {
      assert (set id | id in s) == {};
    }
  }

  lemma UnseenBeyond(log: seq<Detection>, n: nat)
    requires forall d :: d in log ==> d.classId < n
    ensures forall c :: c >= n ==> Reflects(Blank(c), c, log)
  {
    forall c | c >= n ensures Reflects(Blank(c), c, log) {
      CountPositive(log, c);
      SeenTimes(log, c);
      assert TracksOf(log, c) == {};
    }
  }

  /** An accumulator after one more detection of its class. */
  function Taken(acc: Accumulator, det: Detection): Accumulator
  {
    Accumulator(
      acc.classId,
      acc.totalDetections + 1,
      if det.trackId > 0 && det.trackId !in acc.trackIds then acc.trackIds + [det.trackId] else acc.trackIds,
      if det.timestamp < acc.firstSeen then det.timestamp else acc.firstSeen,
      if det.timestamp > acc.lastSeen then det.timestamp else acc.lastSeen)
  }

  lemma TracksAfter(log: seq<Detection>, det: Detection)
    ensures TracksOf(log + [det], det.classId)
         == TracksOf(log, det.classId) + if det.trackId > 0 then {det.trackId} else {}
  {
  }

  lemma IdsAfter(ids: seq<int>, x: int)
    requires Distinct(ids) && x !in ids
    ensures Distinct(ids + [x]) && (set id | id in ids + [x]) == (set id | id in ids) + {x}
  {
  }

  lemma KnownId(ids: seq<int>, x: int)
    requires x in ids
    ensures (set id | id in ids) + {x} == (set id | id in ids)
  {
  }

  lemma Absorbed(acc: Accumulator, log: seq<Detection>, det: Detection)
    requires Reflects(acc, det.classId, log)
    ensures Reflects(Taken(acc, det), det.classId, log + [det])
  {
    hide TracksOf, Distinct;
    assert (log + [det])[..|log|] == log;
    TracksAfter(log, det);
    if det.trackId in acc.trackIds {
      KnownId(acc.trackIds, det.trackId);
    } else if det.trackId > 0 {
      IdsAfter(acc.trackIds, det.trackId);
    }
  }

  lemma Unaffected(acc: Accumulator, c: int, log: seq<Detection>, det: Detection)
    requires Reflects(acc, c, log) && c != det.classId
    ensures Reflects(acc, c, log + [det])
  {
    assert (log + [det])[..|log|] == log;
    assert TracksOf(log + [det], c) == TracksOf(log, c);
  }
}
