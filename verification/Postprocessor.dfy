/** From raw model output to the detections of a frame. */
module Postprocessor {
  import opened Types
  import opened Sorting
  import opened Letterbox
  import opened Nms
  import opened Decoding

  /** Once the buffer is full, later predictions are not looked at. */
  lemma {:induction false} FullStaysFull(raw: seq<real>, l: Layout, config: PostConfig, fit: Option<Fit>, at: Stamp,
      i: int, n: int)
    requires Readable(raw, l, config) && 0 <= i <= n <= l.numPreds
    requires fit.Some? ==> fit.value.ratio != 0.0
    requires |Collected(raw, l, config, fit, at, i)| >= Cap(config)
    ensures Collected(raw, l, config, fit, at, n) == Collected(raw, l, config, fit, at, i)
    decreases n - i
  {
    hide DecodeOne, Readable;
    if i < n {
      FullStaysFull(raw, l, config, fit, at, i, n - 1);
    }
  }

  /** The inner loop over the classes of one prediction. */
  method FindBestClass(raw: seq<real>, l: Layout, config: PostConfig, i: int) returns (bestCls: int, bestScore: real)
    requires Readable(raw, l, config) && 0 <= i < l.numPreds
    ensures Choice(bestCls, bestScore) == BestClass(raw, l, config, i, config.numClasses)
  {
    hide ClassScore;
    bestCls, bestScore := 0, -1.0;
    for c := 0 to config.numClasses
      invariant Choice(bestCls, bestScore) == BestClass(raw, l, config, i, c)
    {
      var score := ClassScore(raw, l, config, i, c);
      if score > bestScore {
        bestScore, bestCls := score, c;
      }
    }
  }

  /** Fills the candidate buffer; n entries are in use afterwards. */
  method Collect(raw: seq<real>, l: Layout, config: PostConfig, fit: Option<Fit>, at: Stamp,
      candidates: array<Detection>)
    returns (n: nat)
    requires Readable(raw, l, config) && (fit.Some? ==> fit.value.ratio != 0.0)
    requires candidates.Length == Cap(config)
    modifies candidates
    ensures n <= candidates.Length && candidates[..n] == Collected(raw, l, config, fit, at, l.numPreds)
  {
    hide Objectness, BestClass, BoxOf, Placed, Cap;
    n := 0;
    var i := 0;
    while i < l.numPreds && n < candidates.Length
      invariant 0 <= i <= l.numPreds && n <= candidates.Length
      invariant candidates[..n] == Collected(raw, l, config, fit, at, i)
    {
      var bestCls, bestScore := FindBestClass(raw, l, config, i);
      var confidence := Objectness(raw, l, config, i) * bestScore;
      assert confidence == ConfidenceOf(raw, l, config, i);
      if confidence >= config.confidenceThreshold {
        var box := Placed(BoxOf(raw, l, config, i), fit);
        candidates[n] := Detection(at.frame, at.timestamp, bestCls, confidence, box, -1);
        n := n + 1;
        assert candidates[..n] == candidates[..n - 1] + [candidates[n - 1]];
      }
      i := i + 1;
    }
    if i < l.numPreds {
      FullStaysFull(raw, l, config, fit, at, i, l.numPreds);
    }
  }

  method PostprocessDetections(raw: seq<real>, dim1: int, dim2: int, fit: Option<Fit>, config: PostConfig, at: Stamp,
                               out: DetectionList)
    requires Readable(raw, LayoutOf(dim1, dim2), config) && (fit.Some? ==> fit.value.ratio != 0.0)
    modifies out
    ensures out.items == old(out.items) + DetectionsOf(raw, LayoutOf(dim1, dim2), config, fit, at)
  {
    hide Collected, Kernel, IsKept, SelectFrom, Readable;
    var l := LayoutOf(dim1, dim2);
    var blank := Detection(0, 0.0, 0, 0.0, BBox(0.0, 0.0, 0.0, 0.0), -1);
    var candidates := new Detection[Cap(config)](_ => blank);
    var n := Collect(raw, l, config, fit, at, candidates);
    var keep := new bool[n](_ => true);
    Suppress(candidates, n, config.iouThreshold, keep);
    ghost var s := candidates[..n];
    NothingKept(config.iouThreshold);
    for i := 0 to n
      invariant candidates[..n] == s
      invariant forall j :: 0 <= j < n ==> keep[j] == IsKept(s, config.iouThreshold, j)
      invariant out.items == old(out.items) + Kernel(s[..i], config.iouThreshold)
    {
      KernelStep(s, config.iouThreshold, i);
      if keep[i] {
        out.Add(candidates[i]);
      }
      assert out.items == old(out.items) + Kernel(s[..i + 1], config.iouThreshold);
    }
    assert s[..n] == s;
  }

  lemma {:induction false} NothingKept(thr: real)
    ensures Kernel([], thr) == []
  {
  }
}
