/** Reading predictions out of the raw output of the model, in either layout. */
module Decoding {
  import opened Types
  import opened Geometry
  import opened Letterbox
  import opened Nms

  datatype PostConfig = PostConfig(
    confidenceThreshold: real,
    iouThreshold: real,
    maxDetections: int,
    numClasses: int)

  datatype Layout = Layout(numPreds: int, predDim: int, transposed: bool)

  /** The shape decides the layout: more rows than columns means one prediction a row. */
  function LayoutOf(dim1: int, dim2: int): Layout
  {
    if dim1 > dim2 then Layout(dim1, dim2, false) else Layout(dim2, dim1, true)
  }

  function ClassOffset(config: PostConfig, l: Layout): int
  {
    if l.predDim == config.numClasses + 5 then 5 else 4
  }

  /** The buffer has the size its shape says and holds a column for every class. */
  ghost predicate Readable(raw: seq<real>, l: Layout, config: PostConfig)
  {
    && l.numPreds >= 0 && config.numClasses >= 0
    && |raw| == l.numPreds * l.predDim
    && ClassOffset(config, l) + config.numClasses <= l.predDim
  }

  function Position(l: Layout, i: int, c: int): int
  {
    if l.transposed then c * l.numPreds + i else i * l.predDim + c
  }

  /** Every read of a prediction is inside the buffer. */
  lemma ReadInRange(raw: seq<real>, l: Layout, config: PostConfig, i: int, c: int)
    requires Readable(raw, l, config) && 0 <= i < l.numPreds && 0 <= c < l.predDim
    ensures 0 <= Position(l, i, c) < |raw|
  {
    if l.transposed {
      DigitsBound(c, l.predDim, l.numPreds, i);
    } else {
      DigitsBound(i, l.numPreds, l.predDim, c);
    }
  }

  function Value(raw: seq<real>, l: Layout, config: PostConfig, i: int, c: int): real
    requires Readable(raw, l, config) && 0 <= i < l.numPreds && 0 <= c < l.predDim
  {
    ReadInRange(raw, l, config, i, c);
    raw[Position(l, i, c)]
  }

  function Objectness(raw: seq<real>, l: Layout, config: PostConfig, i: int): real
    requires Readable(raw, l, config) && 0 <= i < l.numPreds
  {
    if l.predDim == config.numClasses + 5 then Value(raw, l, config, i, 4) else 1.0
  }

  function ClassScore(raw: seq<real>, l: Layout, config: PostConfig, i: int, c: int): real
    requires Readable(raw, l, config) && 0 <= i < l.numPreds && 0 <= c < config.numClasses
  {
    Value(raw, l, config, i, ClassOffset(config, l) + c)
  }

  datatype Choice = Choice(cls: int, score: real)

  /** The running best class after the first n. */
  function BestClass(raw: seq<real>, l: Layout, config: PostConfig, i: int, n: int): Choice
    requires Readable(raw, l, config) && 0 <= i < l.numPreds && 0 <= n <= config.numClasses
    decreases n
  {
    if n == 0 then Choice(0, -1.0)
    else
      var best := BestClass(raw, l, config, i, n - 1);
      var score := ClassScore(raw, l, config, i, n - 1);
      if score > best.score then Choice(n - 1, score) else best
  }

  ghost predicate IsArgmax(raw: seq<real>, l: Layout, config: PostConfig, i: int, n: int, b: Choice)
    requires Readable(raw, l, config) && 0 <= i < l.numPreds && 0 <= n <= config.numClasses
  {
    && (forall c :: 0 <= c < n ==> ClassScore(raw, l, config, i, c) <= b.score)
    && if b.score > -1.0 then
      && 0 <= b.cls < n && ClassScore(raw, l, config, i, b.cls) == b.score
      && forall c :: 0 <= c < b.cls ==> ClassScore(raw, l, config, i, c) < b.score
    else b == Choice(0, -1.0)
  }

  /** The choice is the first class of the highest score, unless no score exceeds -1,
      when it is class 0 with score -1. */
  lemma {:induction false} BestClassIsArgmax(raw: seq<real>, l: Layout, config: PostConfig, i: int, n: int)
    requires Readable(raw, l, config) && 0 <= i < l.numPreds && 0 <= n <= config.numClasses
    ensures IsArgmax(raw, l, config, i, n, BestClass(raw, l, config, i, n))
    decreases n
  {
    hide Value, Readable;
    if n > 0 {
      BestClassIsArgmax(raw, l, config, i, n - 1);
    }
  }

  function BoxOf(raw: seq<real>, l: Layout, config: PostConfig, i: int): BBox
    requires Readable(raw, l, config) && 0 <= i < l.numPreds
  {
    var cx, cy := Value(raw, l, config, i, 0), Value(raw, l, config, i, 1);
    var w, h := Value(raw, l, config, i, 2), Value(raw, l, config, i, 3);
    BBox(cx - w / 2.0, cy - h / 2.0, w, h)
  }

  function Placed(b: BBox, fit: Option<Fit>): BBox
    requires fit.Some? ==> fit.value.ratio != 0.0
  {
    if fit.Some? then ToSource(b, fit.value.padX, fit.value.padY, fit.value.ratio) else b
  }

  datatype Stamp = Stamp(frame: int, timestamp: real)

  function ConfidenceOf(raw: seq<real>, l: Layout, config: PostConfig, i: int): real
    requires Readable(raw, l, config) && 0 <= i < l.numPreds
  {
    Objectness(raw, l, config, i) * BestClass(raw, l, config, i, config.numClasses).score
  }

  function DecodeOne(raw: seq<real>, l: Layout, config: PostConfig, fit: Option<Fit>, at: Stamp,
      i: int): Option<Detection>
    requires Readable(raw, l, config) && 0 <= i < l.numPreds
    requires fit.Some? ==> fit.value.ratio != 0.0
  {
    var confidence := ConfidenceOf(raw, l, config, i);
    if confidence < config.confidenceThreshold then None
    else Some(Detection(at.frame, at.timestamp, BestClass(raw, l, config, i, config.numClasses).cls,
                        confidence, Placed(BoxOf(raw, l, config, i), fit), -1))
  }

  function Cap(config: PostConfig): nat
  {
    if config.maxDetections > 0 then config.maxDetections else 1000
  }

  function Snoc(s: seq<Detection>, d: Option<Detection>): seq<Detection>
  {
    if d.Some? then s + [d.value] else s
  }

  /** Candidates among the first n predictions, stopping once the buffer is full. */
  function Collected(raw: seq<real>, l: Layout, config: PostConfig, fit: Option<Fit>, at: Stamp,
      n: int): (r: seq<Detection>)
    requires Readable(raw, l, config) && 0 <= n <= l.numPreds
    requires fit.Some? ==> fit.value.ratio != 0.0
    ensures |r| <= Cap(config)
    decreases n
  {
    if n == 0 then []
    else
      var r := Collected(raw, l, config, fit, at, n - 1);
      if |r| >= Cap(config) then r else Snoc(r, DecodeOne(raw, l, config, fit, at, n - 1))
  }

  function DetectionsOf(raw: seq<real>, l: Layout, config: PostConfig, fit: Option<Fit>, at: Stamp): seq<Detection>
    requires Readable(raw, l, config)
    requires fit.Some? ==> fit.value.ratio != 0.0
  {
    Run(Collected(raw, l, config, fit, at, l.numPreds), config.iouThreshold)
  }

  // ----- the cap -----

  function Uncapped(raw: seq<real>, l: Layout, config: PostConfig, fit: Option<Fit>, at: Stamp, n: int): seq<Detection>
    requires Readable(raw, l, config) && 0 <= n <= l.numPreds
    requires fit.Some? ==> fit.value.ratio != 0.0
    decreases n
  {
    if n == 0 then []
    else Snoc(Uncapped(raw, l, config, fit, at, n - 1), DecodeOne(raw, l, config, fit, at, n - 1))
  }

  /** The cap is the number asked for, or 1000; it keeps the first passing predictions in
      index order, however confident the later ones are. */
  lemma {:induction false} CapKeepsFirst(raw: seq<real>, l: Layout, config: PostConfig, fit: Option<Fit>, at: Stamp,
      n: int)
    requires Readable(raw, l, config) && 0 <= n <= l.numPreds
    requires fit.Some? ==> fit.value.ratio != 0.0
    ensures var all := Uncapped(raw, l, config, fit, at, n);
      var cap := if config.maxDetections > 0 then config.maxDetections else 1000;
      Collected(raw, l, config, fit, at, n) == if |all| <= cap then all else all[..cap]
    decreases n
  {
    hide DecodeOne, Readable;
    if n > 0 {
      CapKeepsFirst(raw, l, config, fit, at, n - 1);
    }
  }

  /** Nothing is lost to the cap exactly when at most that many predictions pass. */
  lemma {:induction false} CapLosesNoneIff(raw: seq<real>, l: Layout, config: PostConfig, fit: Option<Fit>, at: Stamp)
    requires Readable(raw, l, config)
    requires fit.Some? ==> fit.value.ratio != 0.0
    ensures var all := Uncapped(raw, l, config, fit, at, l.numPreds);
      Collected(raw, l, config, fit, at, l.numPreds) == all <==> |all| <= Cap(config)
  {
    CapKeepsFirst(raw, l, config, fit, at, l.numPreds);
  }

  const CROWD_LAYOUT: Layout := Layout(1001, 5, false)

  function CrowdConfig(max: int): PostConfig { PostConfig(0.5, 0.5, max, 1) }

  /** One prediction more than fit in the buffer, all passing, the last the most confident. */
  function Crowd(): (raw: seq<real>)
    ensures forall max :: Readable(raw, CROWD_LAYOUT, CrowdConfig(max))
  {
    seq(5005, k => if k == 5004 then 0.95 else 0.9)
  }

  lemma CrowdPasses(max: int, at: Stamp, i: int)
    requires 0 <= i < 1001
    ensures var one := DecodeOne(Crowd(), CROWD_LAYOUT, CrowdConfig(max), None, at, i);
      one.Some? && one.value.confidence == if i == 1000 then 0.95 else 0.9
  {
    assert ClassScore(Crowd(), CROWD_LAYOUT, CrowdConfig(max), i, 0) == if i == 1000 then 0.95 else 0.9;
    assert BestClass(Crowd(), CROWD_LAYOUT, CrowdConfig(max), i, 0) == Choice(0, -1.0);
  }

  lemma {:induction false} CrowdCounted(max: int, at: Stamp, n: int)
    requires 0 <= n <= 1001
    ensures var all := Uncapped(Crowd(), CROWD_LAYOUT, CrowdConfig(max), None, at, n);
      |all| == n && forall k :: 0 <= k < n ==> all[k].confidence == if k == 1000 then 0.95 else 0.9
    decreases n
  {
    hide Crowd, DecodeOne;
    if n > 0 {
      CrowdCounted(max, at, n - 1);
      CrowdPasses(max, at, n - 1);
    }
  }

  /** Of these 1001 predictions the most confident one is lost, both with room for a thousand
      and when no number is asked for. */
  lemma {:induction false} BestIsLost(max: int, at: Stamp)
    requires max == 1000 || max <= 0
    ensures var all := Uncapped(Crowd(), CROWD_LAYOUT, CrowdConfig(max), None, at, 1001);
      var kept := Collected(Crowd(), CROWD_LAYOUT, CrowdConfig(max), None, at, 1001);
      && |all| == 1001 && all[1000] !in kept
      && forall d :: d in kept ==> d.confidence < all[1000].confidence
  {
    hide Crowd;
    CrowdCounted(max, at, 1001);
    CapKeepsFirst(Crowd(), CROWD_LAYOUT, CrowdConfig(max), None, at, 1001);
  }

  // ----- what a detection guarantees -----

  lemma DecodedSane(raw: seq<real>, l: Layout, config: PostConfig, fit: Option<Fit>, at: Stamp, i: int)
    requires Readable(raw, l, config) && 0 <= i < l.numPreds
    requires fit.Some? ==> fit.value.ratio != 0.0
    ensures DecodeOne(raw, l, config, fit, at, i).Some? ==>
      Fresh(DecodeOne(raw, l, config, fit, at, i).value, config, at)
  {
    hide BoxOf, Placed, ClassScore, Objectness, BestClass, ConfidenceOf;
    BestClassIsArgmax(raw, l, config, i, config.numClasses);
  }

  ghost predicate Fresh(d: Detection, config: PostConfig, at: Stamp)
  {
    && (0 <= d.classId < config.numClasses || d.classId == 0) && d.confidence >= config.confidenceThreshold
    && d.trackId == -1 && d.frame == at.frame && d.timestamp == at.timestamp
  }

  lemma {:induction false} CollectedSane(raw: seq<real>, l: Layout, config: PostConfig, fit: Option<Fit>, at: Stamp,
      n: int)
    requires Readable(raw, l, config) && 0 <= n <= l.numPreds
    requires fit.Some? ==> fit.value.ratio != 0.0
    ensures forall d :: d in Collected(raw, l, config, fit, at, n) ==> Fresh(d, config, at)
    decreases n
  {
    hide DecodeOne, Readable;
    if n > 0 {
      CollectedSane(raw, l, config, fit, at, n - 1);
      DecodedSane(raw, l, config, fit, at, n - 1);
    }
  }

  lemma DetectionsSane(raw: seq<real>, l: Layout, config: PostConfig, fit: Option<Fit>, at: Stamp)
    requires Readable(raw, l, config)
    requires fit.Some? ==> fit.value.ratio != 0.0
    ensures forall d :: d in DetectionsOf(raw, l, config, fit, at) ==> Fresh(d, config, at)
  {
    hide Collected, Run;
    CollectedSane(raw, l, config, fit, at, l.numPreds);
    NmsTheorem(Collected(raw, l, config, fit, at, l.numPreds), config.iouThreshold);
  }

  // ----- layouts -----

  /** Two buffers hold one matrix of predictions. */
  ghost predicate SameMatrix(a: seq<real>, la: Layout, b: seq<real>, lb: Layout, config: PostConfig)
    requires Readable(a, la, config) && Readable(b, lb, config)
  {
    && la.numPreds == lb.numPreds && la.predDim == lb.predDim
    && forall i, c :: 0 <= i < la.numPreds && 0 <= c < la.predDim ==>
      Value(a, la, config, i, c) == Value(b, lb, config, i, c)
  }

  lemma {:induction false} SameBest(a: seq<real>, la: Layout, b: seq<real>, lb: Layout, config: PostConfig, i: int,
      n: int)
    requires Readable(a, la, config) && Readable(b, lb, config) && SameMatrix(a, la, b, lb, config)
    requires 0 <= i < la.numPreds && 0 <= n <= config.numClasses
    ensures BestClass(a, la, config, i, n) == BestClass(b, lb, config, i, n)
    decreases n
  {
    hide Value;
    if n > 0 {
      SameBest(a, la, b, lb, config, i, n - 1);
    }
  }

  lemma SameDecoded(a: seq<real>, la: Layout, b: seq<real>, lb: Layout, config: PostConfig, fit: Option<Fit>,
      at: Stamp, i: int)
    requires Readable(a, la, config) && Readable(b, lb, config) && SameMatrix(a, la, b, lb, config)
    requires 0 <= i < la.numPreds && (fit.Some? ==> fit.value.ratio != 0.0)
    ensures DecodeOne(a, la, config, fit, at, i) == DecodeOne(b, lb, config, fit, at, i)
  {
    hide Value, BestClass, Placed;
    SameBest(a, la, b, lb, config, i, config.numClasses);
    assert BoxOf(a, la, config, i) == BoxOf(b, lb, config, i);
    assert Objectness(a, la, config, i) == Objectness(b, lb, config, i);
    assert ConfidenceOf(a, la, config, i) == ConfidenceOf(b, lb, config, i);
  }

  lemma {:induction false} SameCollected(a: seq<real>, la: Layout, b: seq<real>, lb: Layout, config: PostConfig,
      fit: Option<Fit>, at: Stamp, n: int)
    requires Readable(a, la, config) && Readable(b, lb, config) && SameMatrix(a, la, b, lb, config)
    requires 0 <= n <= la.numPreds && (fit.Some? ==> fit.value.ratio != 0.0)
    ensures Collected(a, la, config, fit, at, n) == Collected(b, lb, config, fit, at, n)
    decreases n
  {
    hide DecodeOne;
    if n > 0 {
      SameCollected(a, la, b, lb, config, fit, at, n - 1);
      SameDecoded(a, la, b, lb, config, fit, at, n - 1);
    }
  }

  /** With more predictions than columns, the row-major and the transposed buffer of one
      matrix decode to the same detections. */
  lemma LayoutIndependent(rows: seq<real>, cols: seq<real>, n: int, d: int, config: PostConfig, fit: Option<Fit>,
      at: Stamp)
    requires n > d && (fit.Some? ==> fit.value.ratio != 0.0)
    requires Readable(rows, LayoutOf(n, d), config) && Readable(cols, LayoutOf(d, n), config)
    requires forall i, c :: 0 <= i < n && 0 <= c < d ==>
      Value(rows, Layout(n, d, false), config, i, c) == Value(cols, Layout(n, d, true), config, i, c)
    ensures DetectionsOf(rows, LayoutOf(n, d), config, fit, at) == DetectionsOf(cols, LayoutOf(d, n), config, fit, at)
  {
    hide Collected, Run, Value;
    SameCollected(rows, Layout(n, d, false), cols, Layout(n, d, true), config, fit, at, n);
  }

  // ----- letterbox -----

  lemma DecodeCommutes(raw: seq<real>, l: Layout, config: PostConfig, fit: Fit, at: Stamp, i: int)
    requires Readable(raw, l, config) && 0 <= i < l.numPreds && fit.ratio > 0.0
    ensures var plain := DecodeOne(raw, l, config, None, at, i);
      DecodeOne(raw, l, config, Some(fit), at, i)
        == if plain.Some? then Some(DetToSource(plain.value, fit.padX, fit.padY, fit.ratio)) else None
  {
    hide BestClass, BoxOf, ConfidenceOf, Readable;
  }

  lemma {:induction false} CollectCommutes(raw: seq<real>, l: Layout, config: PostConfig, fit: Fit, at: Stamp, n: int)
    requires Readable(raw, l, config) && 0 <= n <= l.numPreds && fit.ratio > 0.0
    ensures Collected(raw, l, config, Some(fit), at, n)
         == AllToSource(Collected(raw, l, config, None, at, n), fit.padX, fit.padY, fit.ratio)
    decreases n
  {
    hide DecodeOne, Readable, DetToSource;
    if n > 0 {
      CollectCommutes(raw, l, config, fit, at, n - 1);
      DecodeCommutes(raw, l, config, fit, at, n - 1);
    }
  }

  /** Undoing the letterbox before suppression gives what undoing it afterwards would. */
  lemma UnletterboxCommutes(raw: seq<real>, l: Layout, config: PostConfig, fit: Fit, at: Stamp)
    requires Readable(raw, l, config) && fit.ratio > 0.0
    ensures DetectionsOf(raw, l, config, Some(fit), at)
         == AllToSource(DetectionsOf(raw, l, config, None, at), fit.padX, fit.padY, fit.ratio)
  {
    hide Collected, Run, AllToSource;
    CollectCommutes(raw, l, config, fit, at, l.numPreds);
    NmsCommutesWithUnletterbox(Collected(raw, l, config, None, at, l.numPreds), config.iouThreshold, fit.padX,
      fit.padY, fit.ratio);
  }

  /** The model sees a source box through the letterbox; decoding its prediction gives
      the source box back. */
  lemma BoxRoundTrip(o: Options, f: Frame, b: BBox, raw: seq<real>, l: Layout, config: PostConfig, i: int)
    requires Letterbox.Usable(o) && f.width > 0 && f.height > 0
    requires Readable(raw, l, config) && 0 <= i < l.numPreds
    requires var g, seen := FitOf(o, f), ToModel(b, FitOf(o, f).padX, FitOf(o, f).padY, FitOf(o, f).ratio);
      && Value(raw, l, config, i, 0) == seen.x + seen.w / 2.0 && Value(raw, l, config, i, 1) == seen.y + seen.h / 2.0
      && Value(raw, l, config, i, 2) == seen.w && Value(raw, l, config, i, 3) == seen.h
    ensures FitOf(o, f).ratio > 0.0 && Placed(BoxOf(raw, l, config, i), Some(FitOf(o, f))) == b
  {
    hide Value, FitOf, ToModel, ToSource, Readable;
    SourceInvertsPlacement(o, f, b);
  }
}
