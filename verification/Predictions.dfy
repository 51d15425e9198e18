/** What the decoder makes of a raw output, told from the matrix of predictions it holds. */
module Predictions {
  import opened Types
  import opened Letterbox
  import opened Geometry
  import opened Nms
  import opened Overlaps
  import opened Decoding

  // ----- the matrix in the buffer -----

  /** The rows of a matrix one after the other. */
  function Flat(rows: seq<seq<real>>): seq<real>
  {
    if rows == [] then [] else rows[0] + Flat(rows[1..])
  }

  lemma {:induction false} FlatEntry(rows: seq<seq<real>>, d: nat, i: nat, c: nat)
    requires i < |rows| && c < d && forall r :: r in rows ==> |r| == d
    ensures |Flat(rows)| == |rows| * d && 0 <= i * d + c < |Flat(rows)|
    ensures Flat(rows)[i * d + c] == rows[i][c]
  {
    assert |rows[0]| == d;
    FlatSize(rows, d);
    DigitsBound(i, |rows|, d, c);
    if i > 0 {
      FlatEntry(rows[1..], d, i - 1, c);
      assert i * d + c == d + ((i - 1) * d + c);
    }
  }

  lemma OneMoreRow(n: nat, d: nat)
    ensures n * d + d == (n + 1) * d
  {
  }

  lemma {:induction false} FlatSize(rows: seq<seq<real>>, d: nat)
    requires forall r :: r in rows ==> |r| == d
    ensures |Flat(rows)| == |rows| * d
  {
    if rows != [] {
      FlatSize(rows[1..], d);
      assert |rows[0]| == d;
      OneMoreRow(|rows| - 1, d);
    }
  }

  /** A buffer of more rows than columns holds a prediction a row; any other buffer, a square
      one too, holds a prediction a column. */
  lemma {:induction false} ReadsMatrix(m: seq<seq<real>>, d: nat, config: PostConfig, i: nat, c: nat)
    requires forall r :: r in m ==> |r| == d
    requires Readable(Flat(m), LayoutOf(|m|, d), config)
    ensures |m| > d && i < |m| && c < d ==> Value(Flat(m), LayoutOf(|m|, d), config, i, c) == m[i][c]
    ensures |m| <= d && i < d && c < |m| ==> Value(Flat(m), LayoutOf(|m|, d), config, i, c) == m[c][i]
  {
    if |m| > d && i < |m| && c < d {
      FlatEntry(m, d, i, c);
    }
    if |m| <= d && i < d && c < |m| {
      FlatEntry(m, d, c, i);
    }
  }

  /** The columns of prediction i. */
  function Columns(raw: seq<real>, l: Layout, config: PostConfig, i: int): (row: seq<real>)
    requires Readable(raw, l, config) && 0 <= i < l.numPreds
    ensures |row| == l.predDim >= config.numClasses + 4
  {
    seq(l.predDim, c requires 0 <= c < l.predDim => Value(raw, l, config, i, c))
  }

  // ----- class and confidence -----

  /** cls is the first of the highest scores, unless no score exceeds -1. */
  ghost predicate Highest(scores: seq<real>, cls: int, score: real)
  {
    && (forall v :: v in scores ==> v <= score)
    && if exists v :: v in scores && v > -1.0 then
         0 <= cls < |scores| && scores[cls] == score && forall c :: 0 <= c < cls ==> scores[c] < score
       else cls == 0 && score == -1.0
  }

  /** A prediction of four columns and its class scores is as confident as its highest score.
      With exactly one column more, that column is how sure the model is that there is
      anything, and scales the score. */
  ghost predicate Scored(row: seq<real>, classes: int, cls: int, confidence: real)
    requires 0 <= classes && |row| >= classes + 4
  {
    if |row| == classes + 5 then exists score :: Highest(row[5..], cls, score) && confidence == row[4] * score
    else Highest(row[4..4 + classes], cls, confidence)
  }

  lemma HighestOnce(scores: seq<real>, c: int, s: real, d: int, t: real)
    requires Highest(scores, c, s) && Highest(scores, d, t)
    ensures c == d && s == t
  {
    if exists v :: v in scores && v > -1.0 {
      assert scores[c] in scores && scores[d] in scores;
    }
  }

  lemma ScoredOnce(row: seq<real>, classes: int, c: int, s: real, d: int, t: real)
    requires 0 <= classes && |row| >= classes + 4 && Scored(row, classes, c, s) && Scored(row, classes, d, t)
    ensures c == d && s == t
  {
    hide Highest;
    if |row| == classes + 5 {
      var p :| Highest(row[5..], c, p) && s == row[4] * p;
      var q :| Highest(row[5..], d, q) && t == row[4] * q;
      HighestOnce(row[5..], c, p, d, q);
    } else {
      HighestOnce(row[4..4 + classes], c, s, d, t);
    }
  }

  lemma {:induction false} BestIsHighest(raw: seq<real>, l: Layout, config: PostConfig, i: int)
    requires Readable(raw, l, config) && 0 <= i < l.numPreds
    ensures var off, best := ClassOffset(config, l), BestClass(raw, l, config, i, config.numClasses);
      Highest(Columns(raw, l, config, i)[off..off + config.numClasses], best.cls, best.score)
  {
    hide Value, BestClass;
    BestClassIsArgmax(raw, l, config, i, config.numClasses);
    var off, best := ClassOffset(config, l), BestClass(raw, l, config, i, config.numClasses);
    var scores := Columns(raw, l, config, i)[off..off + config.numClasses];
    forall c | 0 <= c < config.numClasses ensures scores[c] == ClassScore(raw, l, config, i, c) {
      assert scores[c] == Columns(raw, l, config, i)[off + c];
    }
    if best.score > -1.0 {
      assert scores[best.cls] in scores;
    }
  }

  lemma {:induction false} ConfidenceScored(raw: seq<real>, l: Layout, config: PostConfig, i: int)
    requires Readable(raw, l, config) && 0 <= i < l.numPreds
    ensures Scored(Columns(raw, l, config, i), config.numClasses,
                   BestClass(raw, l, config, i, config.numClasses).cls, ConfidenceOf(raw, l, config, i))
  {
    hide Value, BestClass, Highest;
    BestIsHighest(raw, l, config, i);
    var row, k := Columns(raw, l, config, i), config.numClasses;
    if |row| == k + 5 {
      assert row[5..5 + k] == row[5..];
    } else {
      assert ConfidenceOf(raw, l, config, i) == BestClass(raw, l, config, i, k).score;
    }
  }

  /** The box, seen through the letterbox again, has the predicted centre and size. */
  ghost predicate Predicted(b: BBox, fit: Option<Fit>, row: seq<real>)
    requires |row| >= 4
  {
    var seen := if fit.Some? then ToModel(b, fit.value.padX, fit.value.padY, fit.value.ratio) else b;
    seen.x + seen.w / 2.0 == row[0] && seen.y + seen.h / 2.0 == row[1] && seen.w == row[2] && seen.h == row[3]
  }

  lemma BoxPredicted(raw: seq<real>, l: Layout, config: PostConfig, fit: Option<Fit>, i: int)
    requires Readable(raw, l, config) && 0 <= i < l.numPreds && (fit.Some? ==> fit.value.ratio > 0.0)
    ensures Predicted(Placed(BoxOf(raw, l, config, i), fit), fit, Columns(raw, l, config, i))
  {
    hide Value, ToModel, ToSource, Readable, BoxOf;
    var box := BoxOf(raw, l, config, i);
    if fit.Some? {
      ToSourceInvertsToModel(box, fit.value.padX, fit.value.padY, fit.value.ratio);
    }
    BoxCentred(raw, l, config, i);
  }

  lemma BoxCentred(raw: seq<real>, l: Layout, config: PostConfig, i: int)
    requires Readable(raw, l, config) && 0 <= i < l.numPreds
    ensures Predicted(BoxOf(raw, l, config, i), None, Columns(raw, l, config, i))
  {
    hide Value;
  }

  /** A prediction becomes a detection exactly when its confidence is not below the threshold;
      the detection has that confidence, the class of the highest score and the predicted
      box. */
  lemma PredictionRead(raw: seq<real>, l: Layout, config: PostConfig, fit: Option<Fit>, at: Stamp, i: int, cls: int,
      confidence: real)
    requires Readable(raw, l, config) && 0 <= i < l.numPreds && (fit.Some? ==> fit.value.ratio > 0.0)
    requires Scored(Columns(raw, l, config, i), config.numClasses, cls, confidence)
    ensures var one := DecodeOne(raw, l, config, fit, at, i);
      if confidence < config.confidenceThreshold then one == None
      else
        && one.Some? && one.value.classId == cls && one.value.confidence == confidence && one.value.trackId == -1
        && one.value.frame == at.frame && one.value.timestamp == at.timestamp
        && Predicted(one.value.bbox, fit, Columns(raw, l, config, i))
  {
    hide Columns, Predicted, Scored, BoxOf, Placed, ConfidenceOf, BestClass;
    ConfidenceScored(raw, l, config, i);
    ScoredOnce(Columns(raw, l, config, i), config.numClasses, cls, confidence,
      BestClass(raw, l, config, i, config.numClasses).cls, ConfidenceOf(raw, l, config, i));
    BoxPredicted(raw, l, config, fit, i);
  }

  lemma ScoredBelow(row: seq<real>, classes: int, cls: int, confidence: real, thr: real)
    requires 0 <= classes && |row| == classes + 5 && Scored(row, classes, cls, confidence) && thr > 0.0
    requires row[4] >= 0.0 && forall v :: v in row[5..] ==> row[4] * v < thr
    ensures confidence < thr
  {
    var scores, sure := row[5..], row[4];
    var score :| Highest(scores, cls, score) && confidence == sure * score;
    if exists v :: v in scores && v > -1.0 {
      assert score in scores;
    }
  }

  /** Where the model is sure of nothing, no class score makes a detection. */
  lemma BackgroundIgnored(raw: seq<real>, l: Layout, config: PostConfig, fit: Option<Fit>, at: Stamp, i: int)
    requires Readable(raw, l, config) && 0 <= i < l.numPreds && (fit.Some? ==> fit.value.ratio > 0.0)
    requires config.confidenceThreshold > 0.0 && l.predDim == config.numClasses + 5
    requires var row := Columns(raw, l, config, i);
      row[4] >= 0.0 && forall v :: v in row[5..] ==> row[4] * v < config.confidenceThreshold
    ensures DecodeOne(raw, l, config, fit, at, i) == None
  {
    hide Columns, BestClass, ConfidenceOf, BoxOf, Placed, Predicted, Scored;
    ConfidenceScored(raw, l, config, i);
    ScoredBelow(Columns(raw, l, config, i), config.numClasses, BestClass(raw, l, config, i, config.numClasses).cls,
      ConfidenceOf(raw, l, config, i), config.confidenceThreshold);
  }

  /** An output that is sure of nothing anywhere has no detections. */
  lemma NothingSeen(raw: seq<real>, l: Layout, config: PostConfig, fit: Option<Fit>, at: Stamp)
    requires Readable(raw, l, config) && (fit.Some? ==> fit.value.ratio > 0.0)
    requires config.confidenceThreshold > 0.0 && l.predDim == config.numClasses + 5
    requires forall i :: 0 <= i < l.numPreds ==> Columns(raw, l, config, i)[4] == 0.0
    ensures DetectionsOf(raw, l, config, fit, at) == []
  {
    hide Columns, DecodeOne, Uncapped;
    forall i | 0 <= i < l.numPreds ensures DecodeOne(raw, l, config, fit, at, i) == None {
      BackgroundIgnored(raw, l, config, fit, at, i);
    }
    DetectionsComplete(raw, l, config, fit, at);
    var kept := DetectionsOf(raw, l, config, fit, at);
    FirstIsMember(kept);
  }

  lemma FirstIsMember(s: seq<Detection>)
    ensures s == [] || s[0] in s
  {
  }

  // ----- the detections of a frame -----

  ghost predicate Passes(raw: seq<real>, l: Layout, config: PostConfig, fit: Option<Fit>, at: Stamp, i: int,
      d: Detection)
    requires Readable(raw, l, config) && (fit.Some? ==> fit.value.ratio != 0.0)
  {
    0 <= i < l.numPreds && DecodeOne(raw, l, config, fit, at, i) == Some(d)
  }

  lemma {:induction false} UncappedIs(raw: seq<real>, l: Layout, config: PostConfig, fit: Option<Fit>, at: Stamp,
      n: int, d: Detection)
    requires Readable(raw, l, config) && 0 <= n <= l.numPreds && (fit.Some? ==> fit.value.ratio != 0.0)
    ensures d in Uncapped(raw, l, config, fit, at, n) <==>
      exists i :: 0 <= i < n && Passes(raw, l, config, fit, at, i, d)
    decreases n
  {
    hide DecodeOne, Readable;
    if n > 0 {
      UncappedIs(raw, l, config, fit, at, n - 1, d);
      if DecodeOne(raw, l, config, fit, at, n - 1) == Some(d) {
        assert Passes(raw, l, config, fit, at, n - 1, d);
      }
    }
  }

  /** The detections of a frame are predictions that pass, no two of a class overlapping by
      more than the share allowed. Unless more predictions pass than the buffer holds,
      every other prediction that passes overlaps one of its class, at least as confident,
      by more than that. */
  lemma {:induction false} DetectionsComplete(raw: seq<real>, l: Layout, config: PostConfig, fit: Option<Fit>,
      at: Stamp)
    requires Readable(raw, l, config) && (fit.Some? ==> fit.value.ratio != 0.0)
    ensures var kept := DetectionsOf(raw, l, config, fit, at);
      && (forall d :: d in kept ==> exists i :: Passes(raw, l, config, fit, at, i, d))
      && (forall p, q :: 0 <= p < q < |kept| && kept[p].classId == kept[q].classId ==>
            !ExceedsShare(kept[p].bbox, kept[q].bbox, config.iouThreshold))
    ensures var kept := DetectionsOf(raw, l, config, fit, at);
      |Uncapped(raw, l, config, fit, at, l.numPreds)| <= Cap(config) ==>
        forall i, d :: Passes(raw, l, config, fit, at, i, d) && d !in kept ==>
          exists k :: k in kept && k.classId == d.classId && k.confidence >= d.confidence
                      && ExceedsShare(k.bbox, d.bbox, config.iouThreshold)
  {
    hide Uncapped, Collected, Run, DecodeOne, ExceedsShare;
    var all, kept := Uncapped(raw, l, config, fit, at, l.numPreds), DetectionsOf(raw, l, config, fit, at);
    var cs := Collected(raw, l, config, fit, at, l.numPreds);
    CapKeepsFirst(raw, l, config, fit, at, l.numPreds);
    SuppressionByAreas(cs, config.iouThreshold);
    forall d | d in kept ensures exists i :: Passes(raw, l, config, fit, at, i, d) {
      assert d in cs;
      assert d in all;
      UncappedIs(raw, l, config, fit, at, l.numPreds, d);
      var i :| 0 <= i < l.numPreds && Passes(raw, l, config, fit, at, i, d);
    }
    if |all| <= Cap(config) {
      forall i, d | Passes(raw, l, config, fit, at, i, d) && d !in kept
        ensures exists k :: k in kept && k.classId == d.classId && k.confidence >= d.confidence
                            && ExceedsShare(k.bbox, d.bbox, config.iouThreshold)
      {
        UncappedIs(raw, l, config, fit, at, l.numPreds, d);
        assert d in cs;
      }
    }
  }
}
