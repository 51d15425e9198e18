/** What the scores of a comparison mean, told from the figures of the runs. */
module ScoreMeanings {
  import opened Geometry
  import opened Sequences
  import opened Sorting
  import opened Comparison

  /** Of two runs the one with the lower latency, memory or stability figure scores higher
      there, and the one with the higher throughput, robustness or consistency. */
  lemma BetterFigureScoresHigher(ms: seq<Metrics>, a: nat, b: nat)
    requires a < |ms| && b < |ms|
    ensures Score(ms, Latency, a) > Score(ms, Latency, b) <==> ms[a].latency < ms[b].latency
    ensures Score(ms, Memory, a) > Score(ms, Memory, b) <==> ms[a].memory < ms[b].memory
    ensures Score(ms, Stability, a) > Score(ms, Stability, b) <==> ms[a].stability < ms[b].stability
    ensures Score(ms, Throughput, a) > Score(ms, Throughput, b) <==> ms[a].throughput > ms[b].throughput
    ensures Score(ms, Robustness, a) > Score(ms, Robustness, b) <==> ms[a].robustness > ms[b].robustness
    ensures Score(ms, Consistency, a) > Score(ms, Consistency, b) <==> ms[a].consistency > ms[b].consistency
  {
    hide Score;
    forall k: Metric
      ensures StrictlyBetter(ms[a], ms[b], k) ==> Score(ms, k, a) > Score(ms, k, b)
      ensures NoWorse(ms[b], ms[a], k) ==> Score(ms, k, b) >= Score(ms, k, a)
    {
      ScoreFollowsMetric(ms, k, a, b);
      ScoreFollowsMetric(ms, k, b, a);
    }
  }

  lemma {:induction false} ExtremesAttained(ms: seq<Metrics>, k: Metric, n: nat)
    requires 0 < n <= |ms|
    ensures exists i :: 0 <= i < n && MetricOf(ms[i], k) == Least(ms, k, n)
    ensures exists i :: 0 <= i < n && MetricOf(ms[i], k) == Greatest(ms, k, n)
  {
    hide MetricOf;
    if n > 1 {
      ExtremesAttained(ms, k, n - 1);
      var p :| 0 <= p < n - 1 && MetricOf(ms[p], k) == Least(ms, k, n - 1);
      var q :| 0 <= q < n - 1 && MetricOf(ms[q], k) == Greatest(ms, k, n - 1);
      assert MetricOf(ms[n - 1], k) == MetricOf(ms[n - 1], k);
    } else {
      assert MetricOf(ms[0], k) == Least(ms, k, 1) == Greatest(ms, k, 1);
    }
  }

  /** Run p has the lowest figure of metric k and run q the highest. */
  ghost predicate Spans(ms: seq<Metrics>, k: Metric, p: nat, q: nat)
  {
    p < |ms| && q < |ms| && forall i :: 0 <= i < |ms| ==> MetricOf(ms[p], k) <= MetricOf(ms[i], k) <= MetricOf(ms[q], k)
  }

  lemma {:induction false} SpanIs(ms: seq<Metrics>, k: Metric, p: nat, q: nat)
    requires Spans(ms, k, p, q)
    ensures Least(ms, k, |ms|) == MetricOf(ms[p], k) && Greatest(ms, k, |ms|) == MetricOf(ms[q], k)
  {
    hide MetricOf;
    Extremes(ms, k, |ms|);
    ExtremesAttained(ms, k, |ms|);
  }

  /** Scores divide the range of a metric in proportion, the worst figure at zero and the
      best at one; where all figures are equal every run scores one. */
  lemma ScoreInProportion(ms: seq<Metrics>, k: Metric, p: nat, q: nat, i: nat)
    requires Spans(ms, k, p, q) && i < |ms|
    ensures var low, high, x := MetricOf(ms[p], k), MetricOf(ms[q], k), MetricOf(ms[i], k);
      if low == high then Score(ms, k, i) == 1.0
      else if k in {Latency, Memory, Stability} then Score(ms, k, i) * (high - low) == high - x
      else Score(ms, k, i) * (high - low) == x - low
  {
    hide MetricOf, Least, Greatest;
    SpanIs(ms, k, p, q);
    var low, high, x := MetricOf(ms[p], k), MetricOf(ms[q], k), MetricOf(ms[i], k);
    if low < high {
      ScaleBack(high - x, high - low);
      ScaleBack(x - low, high - low);
    }
  }

  lemma DeltaInPercent(s: ScoredRun, baseline: real)
    requires baseline > 0.0
    ensures WithDelta(s, baseline).delta * baseline == (s.composite - baseline) * 100.0
  {
    ScaleBack(s.composite - baseline, baseline);
  }

  /** The six scores of a ranked run are those of the run it names, its composite is their
      weighted sum, its delta the percentage by which it differs from the composite at the
      baseline's place, and a baseline out of range means the first place. */
  lemma RankedRunIs(ms: seq<Metrics>, w: Weights, baseline: int, p: nat)
    requires p < |ms| && |ms| >= 2
    ensures var out := ComparisonOf(ms, w, baseline);
      && out.Compared? && |out.runs| == |ms|
      && out.baselineIdx == (if 0 <= baseline < |ms| then baseline else 0)
      && var s, base := out.runs[p], out.runs[out.baselineIdx].composite;
         && 0 <= s.run < |ms|
         && s.latency == Score(ms, Latency, s.run) && s.throughput == Score(ms, Throughput, s.run)
         && s.memory == Score(ms, Memory, s.run) && s.stability == Score(ms, Stability, s.run)
         && s.robustness == Score(ms, Robustness, s.run) && s.consistency == Score(ms, Consistency, s.run)
         && s.composite == w.latency * s.latency + w.throughput * s.throughput + w.memory * s.memory
                           + w.stability * s.stability + w.robustness * s.robustness + w.consistency * s.consistency
         && (base > 0.0 ==> s.delta * base == (s.composite - base) * 100.0)
  {
    hide Score, ExchangeFrom, WithDelta, Composite;
    var s, r := AllScored(ms, w), Ranked(ms, w);
    ExchangeSorts(s, 0, Better);
    PermutationLength(s, r);
    assert r[p] in s;
    var k :| 0 <= k < |s| && s[k] == r[p];
    var b := BaselineIndex(baseline, |ms|);
    DeltaOnly(r[p], r[b].composite);
    DeltaOnly(r[b], r[b].composite);
    if r[b].composite > 0.0 {
      DeltaInPercent(r[p], r[b].composite);
    }
    SumOfParts(w, Scored(ms, w, k));
  }

  lemma SumOfParts(w: Weights, s: ScoredRun)
    ensures Composite(w, s.latency, s.throughput, s.memory, s.stability, s.robustness, s.consistency)
         == w.latency * s.latency + w.throughput * s.throughput + w.memory * s.memory
            + w.stability * s.stability + w.robustness * s.robustness + w.consistency * s.consistency
  {
  }

  /** A preset weighs the metric it is named after more than any other, and the balanced one
      keeps its weights within 0.02 of one another. */
  lemma PresetsFavour(k: Metric, j: Metric)
    ensures k != Latency ==> WeightOf(LowLatency(), k) < WeightOf(LowLatency(), Latency)
    ensures k != Throughput ==> WeightOf(HighThroughput(), k) < WeightOf(HighThroughput(), Throughput)
    ensures k != Memory ==> WeightOf(CostEfficient(), k) < WeightOf(CostEfficient(), Memory)
    ensures WeightOf(Balanced(), k) - WeightOf(Balanced(), j) <= 0.02
  {
  }
}
