/** Ranking runs by a weighted score of six normalised metrics. */
module Comparison {
  import opened Geometry
  import opened Sequences
  import opened Sorting

  /** The six raw figures of one run. */
  datatype Metrics = Metrics(
    latency: real,
    throughput: real,
    memory: real,
    stability: real,
    robustness: real,
    consistency: real)

  datatype Metric = Latency | Throughput | Memory | Stability | Robustness | Consistency

  datatype Weights = Weights(
    latency: real,
    throughput: real,
    memory: real,
    stability: real,
    robustness: real,
    consistency: real)

  /** A run, named by its position in the input, with its scores. */
  datatype ScoredRun = ScoredRun(
    run: int,
    latency: real,
    throughput: real,
    memory: real,
    stability: real,
    robustness: real,
    consistency: real,
    composite: real,
    delta: real)

  function LowLatency(): Weights { Weights(0.35, 0.15, 0.10, 0.15, 0.15, 0.10) }
  function HighThroughput(): Weights { Weights(0.15, 0.35, 0.10, 0.10, 0.15, 0.15) }
  function CostEfficient(): Weights { Weights(0.15, 0.15, 0.25, 0.15, 0.15, 0.15) }
  function Balanced(): Weights { Weights(0.18, 0.18, 0.16, 0.16, 0.16, 0.16) }

  function MetricOf(m: Metrics, k: Metric): real
  {
    match k
    case Latency => m.latency
    case Throughput => m.throughput
    case Memory => m.memory
    case Stability => m.stability
    case Robustness => m.robustness
    case Consistency => m.consistency
  }

  /** Latency, memory and stability are better when lower. */
  predicate LowerIsBetter(k: Metric) { k == Latency || k == Memory || k == Stability }

  function Least(ms: seq<Metrics>, k: Metric, n: nat): real
    requires 0 < n <= |ms|
  {
    if n == 1 then MetricOf(ms[0], k) else Min(MetricOf(ms[n - 1], k), Least(ms, k, n - 1))
  }

  function Greatest(ms: seq<Metrics>, k: Metric, n: nat): real
    requires 0 < n <= |ms|
  {
    if n == 1 then MetricOf(ms[0], k) else Max(MetricOf(ms[n - 1], k), Greatest(ms, k, n - 1))
  }

  lemma {:induction false} Extremes(ms: seq<Metrics>, k: Metric, n: nat)
    requires 0 < n <= |ms|
    ensures forall i :: 0 <= i < n ==> Least(ms, k, n) <= MetricOf(ms[i], k) <= Greatest(ms, k, n)
  {
    hide MetricOf;
    if n > 1 {
      Extremes(ms, k, n - 1);
    }
  }

  function NormalizeLower(val: real, lo: real, hi: real): real
  {
    if hi <= lo then 1.0 else (hi - val) / (hi - lo)
  }

  function NormalizeHigher(val: real, lo: real, hi: real): real
  {
    if hi <= lo then 1.0 else (val - lo) / (hi - lo)
  }

  function Normalize(k: Metric, val: real, lo: real, hi: real): real
  {
    if LowerIsBetter(k) then NormalizeLower(val, lo, hi) else NormalizeHigher(val, lo, hi)
  }

  function Score(ms: seq<Metrics>, k: Metric, i: nat): real
    requires i < |ms|
  {
    Normalize(k, MetricOf(ms[i], k), Least(ms, k, |ms|), Greatest(ms, k, |ms|))
  }

  function Part(weight: real, score: real): real { weight * score }

  function Composite(w: Weights, lat: real, thr: real, mem: real, sta: real, rob: real, con: real): real
  {
    Part(w.latency, lat) + Part(w.throughput, thr) + Part(w.memory, mem)
    + Part(w.stability, sta) + Part(w.robustness, rob) + Part(w.consistency, con)
  }

  function CompositeOf(ms: seq<Metrics>, w: Weights, i: nat): real
    requires i < |ms|
  {
    Composite(w, Score(ms, Latency, i), Score(ms, Throughput, i), Score(ms, Memory, i),
              Score(ms, Stability, i), Score(ms, Robustness, i), Score(ms, Consistency, i))
  }

  function Scored(ms: seq<Metrics>, w: Weights, i: nat): ScoredRun
    requires i < |ms|
  {
    ScoredRun(i, Score(ms, Latency, i), Score(ms, Throughput, i), Score(ms, Memory, i),
              Score(ms, Stability, i), Score(ms, Robustness, i), Score(ms, Consistency, i),
              CompositeOf(ms, w, i), 0.0)
  }

  function AllScored(ms: seq<Metrics>, w: Weights): (r: seq<ScoredRun>)
    ensures |r| == |ms|
  {
    seq(|ms|, i requires 0 <= i < |ms| => Scored(ms, w, i))
  }

  predicate Better(a: ScoredRun, b: ScoredRun) { a.composite > b.composite }

  function Ranked(ms: seq<Metrics>, w: Weights): (r: seq<ScoredRun>)
    ensures |r| == |ms|
  {
    ExchangeFrom(AllScored(ms, w), 0, Better)
  }

  /** Percentage by which a run differs from the baseline, when that is positive. */
  function WithDelta(s: ScoredRun, baseline: real): ScoredRun
  {
    if baseline > 0.0 then s.(delta := (s.composite - baseline) / baseline * 100.0) else s
  }

  datatype Outcome = InvalidArgument | Compared(runs: seq<ScoredRun>, baselineIdx: int)

  function BaselineIndex(baseline: int, count: nat): int
  {
    if 0 <= baseline < count then baseline else 0
  }

  function ComparisonOf(ms: seq<Metrics>, w: Weights, baseline: int): Outcome
  {
    if |ms| < 2 then InvalidArgument
    else
      var r, b := Ranked(ms, w), BaselineIndex(baseline, |ms|);
      Compared(seq(|r|, i requires 0 <= i < |r| => WithDelta(r[i], r[b].composite)), b)
  }

  // ----- the algorithm -----

  /** Folds one metric over all runs. */
  method FindRange(ms: seq<Metrics>, k: Metric) returns (lo: real, hi: real)
    requires ms != []
    ensures lo == Least(ms, k, |ms|) && hi == Greatest(ms, k, |ms|)
  {
    hide MetricOf;
    lo, hi := MetricOf(ms[0], k), MetricOf(ms[0], k);
    for i := 1 to |ms|
      invariant lo == Least(ms, k, i) && hi == Greatest(ms, k, i)
    {
      if MetricOf(ms[i], k) < lo {
        lo := MetricOf(ms[i], k);
      }
      if MetricOf(ms[i], k) > hi {
        hi := MetricOf(ms[i], k);
      }
    }
  }

  method ScoreRuns(ms: seq<Metrics>, w: Weights) returns (scored: array<ScoredRun>)
    requires ms != []
    ensures fresh(scored) && scored.Length == |ms| && scored[..] == AllScored(ms, w)
  {
    hide MetricOf, Normalize, Least, Greatest, Composite;
    var latMin, latMax := FindRange(ms, Latency);
    var thrMin, thrMax := FindRange(ms, Throughput);
    var memMin, memMax := FindRange(ms, Memory);
    var staMin, staMax := FindRange(ms, Stability);
    var robMin, robMax := FindRange(ms, Robustness);
    var conMin, conMax := FindRange(ms, Consistency);
    scored := new ScoredRun[|ms|](_ => ScoredRun(0, 0.0, 0.0, 0.0, 0.0, 0.0, 0.0, 0.0, 0.0));
    for i := 0 to |ms|
      invariant forall j :: 0 <= j < i ==> scored[j] == Scored(ms, w, j)
    {
      var lat := Normalize(Latency, MetricOf(ms[i], Latency), latMin, latMax);
      var thr := Normalize(Throughput, MetricOf(ms[i], Throughput), thrMin, thrMax);
      var mem := Normalize(Memory, MetricOf(ms[i], Memory), memMin, memMax);
      var sta := Normalize(Stability, MetricOf(ms[i], Stability), staMin, staMax);
      var rob := Normalize(Robustness, MetricOf(ms[i], Robustness), robMin, robMax);
      var con := Normalize(Consistency, MetricOf(ms[i], Consistency), conMin, conMax);
      scored[i] := ScoredRun(i, lat, thr, mem, sta, rob, con, Composite(w, lat, thr, mem, sta, rob, con), 0.0);
    }
  }

  method Execute(ms: seq<Metrics>, w: Weights, baseline: int) returns (out: Outcome)
    ensures out == ComparisonOf(ms, w, baseline)
  {
    hide Scored, Better, WithDelta;
    if |ms| < 2 {
      return InvalidArgument;
    }
    var scored := ScoreRuns(ms, w);
    assert scored[..|ms|] == scored[..];
    ExchangeSort(scored, |ms|, Better);
    assert scored[..|ms|] == scored[..] == Ranked(ms, w);
    var b := if baseline >= 0 && baseline < |ms| then baseline else 0;
    var baselineScore := scored[b].composite;
    ghost var ranked := scored[..];
    for i := 0 to |ms|
      invariant forall j :: 0 <= j < i ==> scored[j] == WithDelta(ranked[j], baselineScore)
      invariant forall j :: i <= j < |ms| ==> scored[j] == ranked[j]
    {
      scored[i] := WithDelta(scored[i], baselineScore);
    }
    out := Compared(scored[..], b);
  }

  // ----- normalised scores -----

  lemma NormalizeInUnit(k: Metric, val: real, lo: real, hi: real)
    requires lo <= val <= hi
    ensures 0.0 <= Normalize(k, val, lo, hi) <= 1.0
  {
    if lo < hi {
      QuotientInUnit(hi - val, hi - lo);
      QuotientInUnit(val - lo, hi - lo);
    }
  }

  lemma ScoresInUnit(ms: seq<Metrics>, k: Metric, i: nat)
    requires i < |ms|
    ensures 0.0 <= Score(ms, k, i) <= 1.0
  {
    hide Normalize, MetricOf, Least, Greatest;
    Extremes(ms, k, |ms|);
    NormalizeInUnit(k, MetricOf(ms[i], k), Least(ms, k, |ms|), Greatest(ms, k, |ms|));
  }

  ghost predicate NonNegative(w: Weights)
  {
    && w.latency >= 0.0 && w.throughput >= 0.0 && w.memory >= 0.0
    && w.stability >= 0.0 && w.robustness >= 0.0 && w.consistency >= 0.0
  }

  function Total(w: Weights): real
  {
    w.latency + w.throughput + w.memory + w.stability + w.robustness + w.consistency
  }

  lemma PresetsSumToOne()
    ensures NonNegative(LowLatency()) && Total(LowLatency()) == 1.0
    ensures NonNegative(HighThroughput()) && Total(HighThroughput()) == 1.0
    ensures NonNegative(CostEfficient()) && Total(CostEfficient()) == 1.0
    ensures NonNegative(Balanced()) && Total(Balanced()) == 1.0
  {
  }

  lemma PartBounds(w: real, x: real)
    requires w >= 0.0 && 0.0 <= x <= 1.0
    ensures 0.0 <= Part(w, x) <= w
  {
    PartOrder(w, x, 0.0);
    PartOrder(w, 1.0, x);
  }

  lemma PartOrder(w: real, x: real, y: real)
    requires w >= 0.0 && x >= y
    ensures Part(w, x) >= Part(w, y)
    ensures w > 0.0 && x > y ==> Part(w, x) > Part(w, y)
  {
    if w > 0.0 && x > y {
      var k := ProductPositive(w, x - y);
      assert k == Part(w, x) - Part(w, y);
    }
  }

  lemma CompositeInRange(w: Weights, lat: real, thr: real, mem: real, sta: real, rob: real, con: real)
    requires NonNegative(w)
    requires 0.0 <= lat <= 1.0 && 0.0 <= thr <= 1.0 && 0.0 <= mem <= 1.0
    requires 0.0 <= sta <= 1.0 && 0.0 <= rob <= 1.0 && 0.0 <= con <= 1.0
    ensures 0.0 <= Composite(w, lat, thr, mem, sta, rob, con) <= Total(w)
  {
    hide Part;
    PartBounds(w.latency, lat);
    PartBounds(w.throughput, thr);
    PartBounds(w.memory, mem);
    PartBounds(w.stability, sta);
    PartBounds(w.robustness, rob);
    PartBounds(w.consistency, con);
  }

  /** With non-negative weights a composite score lies between zero and their sum; for
      each preset that is the unit interval. */
  lemma CompositesInRange(ms: seq<Metrics>, w: Weights, i: nat)
    requires i < |ms| && NonNegative(w)
    ensures 0.0 <= CompositeOf(ms, w, i) <= Total(w)
  {
    hide Score, Composite;
    ScoresInUnit(ms, Latency, i);
    ScoresInUnit(ms, Throughput, i);
    ScoresInUnit(ms, Memory, i);
    ScoresInUnit(ms, Stability, i);
    ScoresInUnit(ms, Robustness, i);
    ScoresInUnit(ms, Consistency, i);
    CompositeInRange(w, Score(ms, Latency, i), Score(ms, Throughput, i), Score(ms, Memory, i),
                     Score(ms, Stability, i), Score(ms, Robustness, i), Score(ms, Consistency, i));
  }

  // ----- the ranking -----

  /** The result lists every run once, by falling composite score, each with the scores
      computed for it. The baseline is whatever run the sort put at the requested index;
      when it scored anything, deltas have the sign of the difference from it. */
  lemma RankingOrdered(ms: seq<Metrics>, w: Weights, baseline: int)
    requires |ms| >= 2
    ensures Permutation(AllScored(ms, w), Ranked(ms, w))
    ensures var out := ComparisonOf(ms, w, baseline);
      && |out.runs| == |ms| && 0 <= out.baselineIdx < |ms|
      && (forall i :: 0 <= i < |ms| ==> out.runs[i].(delta := 0.0) == Ranked(ms, w)[i])
      && (forall i, j :: 0 <= i < j < |ms| ==> out.runs[i].composite >= out.runs[j].composite)
      && (forall i :: 0 <= i < |ms| ==> DeltaFaithful(out.runs[i], out.runs[out.baselineIdx].composite))
  {
    hide AllScored, WithDelta, DeltaFaithful, ExchangeFrom;
    var s, r := AllScored(ms, w), Ranked(ms, w);
    ExchangeSorts(s, 0, Better);
    var out := ComparisonOf(ms, w, baseline);
    forall i | 0 <= i < |ms| ensures out.runs[i].(delta := 0.0) == r[i] {
      RankedUndecided(ms, w, i);
      DeltaOnly(r[i], r[out.baselineIdx].composite);
    }
    DeltaOnly(r[out.baselineIdx], r[out.baselineIdx].composite);
    forall i | 0 <= i < |ms| ensures DeltaFaithful(out.runs[i], out.runs[out.baselineIdx].composite) {
      RankedUndecided(ms, w, i);
      DeltaSign(r[i], r[out.baselineIdx].composite);
    }
    forall i, j | 0 <= i < j < |ms| ensures out.runs[i].composite >= out.runs[j].composite {
      assert !Better(r[j], r[i]);
      DeltaOnly(r[i], r[out.baselineIdx].composite);
      DeltaOnly(r[j], r[out.baselineIdx].composite);
    }
  }

  /** A delta is positive, zero or negative as the run beats, ties or trails the baseline;
      it stays zero throughout when the baseline scored nothing. */
  ghost predicate DeltaFaithful(s: ScoredRun, baseline: real)
  {
    if baseline > 0.0 then
      && (s.delta > 0.0 <==> s.composite > baseline)
      && (s.delta == 0.0 <==> s.composite == baseline)
    else s.delta == 0.0
  }

  lemma DeltaSign(s: ScoredRun, baseline: real)
    requires s.delta == 0.0
    ensures DeltaFaithful(WithDelta(s, baseline), baseline)
  {
    if baseline > 0.0 {
      ShareOrder(0.0, s.composite - baseline, baseline);
      ShareOrder(s.composite - baseline, 0.0, baseline);
    }
  }

  lemma DeltaOnly(s: ScoredRun, baseline: real)
    ensures WithDelta(s, baseline).(delta := s.delta) == s
    ensures WithDelta(s, baseline).composite == s.composite && WithDelta(s, baseline).run == s.run
  {
  }

  lemma RankedUndecided(ms: seq<Metrics>, w: Weights, i: nat)
    requires i < |ms|
    ensures Ranked(ms, w)[i].delta == 0.0
  {
    hide Scored, ExchangeFrom;
    var s, r := AllScored(ms, w), Ranked(ms, w);
    ExchangeSorts(s, 0, Better);
    PermutationLength(s, r);
    assert r[i] in s;
    var k :| 0 <= k < |s| && s[k] == r[i];
    ScoredPlain(ms, w, k);
  }

  lemma ScoredPlain(ms: seq<Metrics>, w: Weights, i: nat)
    requires i < |ms|
    ensures Scored(ms, w, i).delta == 0.0 && Scored(ms, w, i).run == i
    ensures Scored(ms, w, i).composite == CompositeOf(ms, w, i)
  {
    hide Score, Composite;
  }

  // ----- where a run ends up -----

  function Beyond(c: real): ScoredRun -> bool { (s: ScoredRun) => s.composite > c }

  function Level(c: real): ScoredRun -> bool { (s: ScoredRun) => s.composite >= c }

  /** How many of the first n runs score strictly above run b. */
  function RunsAbove(ms: seq<Metrics>, w: Weights, b: nat, n: nat): nat
    requires b < |ms| && n <= |ms|
  {
    if n == 0 then 0
    else RunsAbove(ms, w, b, n - 1) + if CompositeOf(ms, w, n - 1) > CompositeOf(ms, w, b) then 1 else 0
  }

  /** How many of the first n runs score as run b does, itself included. */
  function RunsLevel(ms: seq<Metrics>, w: Weights, b: nat, n: nat): nat
    requires b < |ms| && n <= |ms|
  {
    if n == 0 then 0
    else RunsLevel(ms, w, b, n - 1) + if CompositeOf(ms, w, n - 1) == CompositeOf(ms, w, b) then 1 else 0
  }

  lemma {:induction false} CountsAreFilters(ms: seq<Metrics>, w: Weights, b: nat, n: nat)
    requires b < |ms| && n <= |ms|
    ensures var c := CompositeOf(ms, w, b);
      && RunsAbove(ms, w, b, n) == |Filter(AllScored(ms, w)[..n], Beyond(c))|
      && RunsAbove(ms, w, b, n) + RunsLevel(ms, w, b, n) == |Filter(AllScored(ms, w)[..n], Level(c))|
  {
    hide CompositeOf, Score;
    if n > 0 {
      CountsAreFilters(ms, w, b, n - 1);
      ScoredPlain(ms, w, n - 1);
      var s := AllScored(ms, w);
      assert s[..n][..n - 1] == s[..n - 1] && s[..n][n - 1] == Scored(ms, w, n - 1);
    }
  }

  lemma {:induction false} FilterAtMost(s: seq<ScoredRun>, p: ScoredRun -> bool, k: nat)
    requires k <= |s| && forall q :: k <= q < |s| ==> !p(s[q])
    ensures |Filter(s, p)| <= k
  {
    if s != [] {
      FilterAtMost(s[..|s| - 1], p, if k < |s| then k else k - 1);
    }
  }

  lemma {:induction false} FilterAtLeast(s: seq<ScoredRun>, p: ScoredRun -> bool, k: nat)
    requires k <= |s| && forall q :: 0 <= q < k ==> p(s[q])
    ensures |Filter(s, p)| >= k
  {
    if s != [] {
      FilterAtLeast(s[..|s| - 1], p, if k < |s| then k else k - 1);
    }
  }

  /** A run is ranked behind all that score above it, and before all that score below. */
  lemma {:induction false} RankCounts(ms: seq<Metrics>, w: Weights, p: nat)
    requires p < |ms|
    ensures var b := Ranked(ms, w)[p].run;
      && 0 <= b < |ms|
      && RunsAbove(ms, w, b, |ms|) <= p < RunsAbove(ms, w, b, |ms|) + RunsLevel(ms, w, b, |ms|)
  {
    hide Scored, ExchangeFrom, CompositeOf, Filter;
    var s, r := AllScored(ms, w), Ranked(ms, w);
    ExchangeSorts(s, 0, Better);
    RankedComposite(ms, w, p);
    var b, c := r[p].run, r[p].composite;
    assert s[..|ms|] == s;
    CountsAreFilters(ms, w, b, |ms|);
    FilterPermutation(s, r, Beyond(c));
    FilterPermutation(s, r, Level(c));
    PermutationLength(Filter(s, Beyond(c)), Filter(r, Beyond(c)));
    PermutationLength(Filter(s, Level(c)), Filter(r, Level(c)));
    forall q | p <= q < |r| ensures !Beyond(c)(r[q]) {
      assert p < q ==> !Better(r[q], r[p]);
    }
    forall q | 0 <= q < p + 1 ensures Level(c)(r[q]) {
      assert q < p ==> !Better(r[p], r[q]);
    }
    FilterAtMost(r, Beyond(c), p);
    FilterAtLeast(r, Level(c), p + 1);
  }

  ghost predicate Untied(ms: seq<Metrics>, w: Weights, b: nat)
    requires b < |ms|
  {
    forall k :: 0 <= k < |ms| && k != b ==> CompositeOf(ms, w, k) != CompositeOf(ms, w, b)
  }

  lemma {:induction false} UntiedIsOne(ms: seq<Metrics>, w: Weights, b: nat, n: nat)
    requires b < |ms| && n <= |ms| && Untied(ms, w, b)
    ensures RunsLevel(ms, w, b, n) == if b < n then 1 else 0
  {
    hide CompositeOf;
    if n > 0 {
      UntiedIsOne(ms, w, b, n - 1);
    }
  }

  lemma RankedSomewhere(ms: seq<Metrics>, w: Weights, b: nat) returns (p: nat)
    requires b < |ms|
    ensures p < |ms| && Ranked(ms, w)[p].run == b
  {
    hide Scored, ExchangeFrom;
    var s, r := AllScored(ms, w), Ranked(ms, w);
    ExchangeSorts(s, 0, Better);
    PermutationLength(s, r);
    ScoredPlain(ms, w, b);
    assert s[b] in s;
    p :| 0 <= p < |r| && r[p] == s[b];
  }

  /** The baseline is applied after sorting: when no other run has the named run's score,
      it names that run exactly when as many runs score above it as its number says. */
  lemma {:induction false} BaselineIsNamedIff(ms: seq<Metrics>, w: Weights, baseline: nat)
    requires |ms| >= 2 && baseline < |ms| && Untied(ms, w, baseline)
    ensures var out := ComparisonOf(ms, w, baseline);
      && 0 <= out.baselineIdx < |out.runs|
      && (out.runs[out.baselineIdx].run == baseline <==> RunsAbove(ms, w, baseline, |ms|) == baseline)
  {
    hide Ranked, CompositeOf, WithDelta;
    var r := Ranked(ms, w);
    UntiedIsOne(ms, w, baseline, |ms|);
    var p := RankedSomewhere(ms, w, baseline);
    RankCounts(ms, w, p);
    RankCounts(ms, w, baseline);
    DeltaOnly(r[baseline], r[baseline].composite);
  }

  /** Two runs, the second of lower latency: the caller's baseline 0 is the second run. */
  lemma BaselineMoves()
    ensures var ms := [Metrics(2.0, 1.0, 1.0, 1.0, 1.0, 1.0), Metrics(1.0, 1.0, 1.0, 1.0, 1.0, 1.0)];
      var out := ComparisonOf(ms, Balanced(), 0);
      out.Compared? && out.baselineIdx == 0 && |out.runs| == 2 && out.runs[0].run == 1
  {
    hide Ranked, WithDelta;
    var ms := [Metrics(2.0, 1.0, 1.0, 1.0, 1.0, 1.0), Metrics(1.0, 1.0, 1.0, 1.0, 1.0, 1.0)];
    var w := Balanced();
    var p := RankedSomewhere(ms, w, 1);
    var q := RankedSomewhere(ms, w, 0);
    DominanceRespected(ms, w, 1, 0, Latency, p, q);
    DeltaOnly(Ranked(ms, w)[0], Ranked(ms, w)[0].composite);
  }

  // ----- dominance -----

  ghost predicate NoWorse(a: Metrics, b: Metrics, k: Metric)
  {
    if LowerIsBetter(k) then MetricOf(a, k) <= MetricOf(b, k) else MetricOf(a, k) >= MetricOf(b, k)
  }

  ghost predicate StrictlyBetter(a: Metrics, b: Metrics, k: Metric)
  {
    if LowerIsBetter(k) then MetricOf(a, k) < MetricOf(b, k) else MetricOf(a, k) > MetricOf(b, k)
  }

  function WeightOf(w: Weights, k: Metric): real
  {
    match k
    case Latency => w.latency
    case Throughput => w.throughput
    case Memory => w.memory
    case Stability => w.stability
    case Robustness => w.robustness
    case Consistency => w.consistency
  }

  lemma ShareOrder(x: real, y: real, whole: real)
    requires whole > 0.0
    ensures x <= y ==> x / whole <= y / whole
    ensures x < y ==> x / whole < y / whole
  {
    QuotientOrder(x, y, whole);
    QuotientOrder(y, x, whole);
  }

  lemma ScoreFollowsMetric(ms: seq<Metrics>, k: Metric, a: nat, b: nat)
    requires a < |ms| && b < |ms|
    ensures NoWorse(ms[a], ms[b], k) ==> Score(ms, k, a) >= Score(ms, k, b)
    ensures StrictlyBetter(ms[a], ms[b], k) ==> Score(ms, k, a) > Score(ms, k, b)
  {
    hide MetricOf, Least, Greatest;
    Extremes(ms, k, |ms|);
    var lo, hi := Least(ms, k, |ms|), Greatest(ms, k, |ms|);
    var x, y := MetricOf(ms[a], k), MetricOf(ms[b], k);
    if lo < hi {
      ShareOrder(hi - y, hi - x, hi - lo);
      ShareOrder(y - lo, x - lo, hi - lo);
    }
  }

  lemma CompositeOrder(ms: seq<Metrics>, w: Weights, a: nat, b: nat, k: Metric)
    requires a < |ms| && b < |ms| && NonNegative(w) && WeightOf(w, k) > 0.0
    requires forall q :: Score(ms, q, a) >= Score(ms, q, b)
    requires Score(ms, k, a) > Score(ms, k, b)
    ensures CompositeOf(ms, w, a) > CompositeOf(ms, w, b)
  {
    hide Score, Part;
    PartOrder(w.latency, Score(ms, Latency, a), Score(ms, Latency, b));
    PartOrder(w.throughput, Score(ms, Throughput, a), Score(ms, Throughput, b));
    PartOrder(w.memory, Score(ms, Memory, a), Score(ms, Memory, b));
    PartOrder(w.stability, Score(ms, Stability, a), Score(ms, Stability, b));
    PartOrder(w.robustness, Score(ms, Robustness, a), Score(ms, Robustness, b));
    PartOrder(w.consistency, Score(ms, Consistency, a), Score(ms, Consistency, b));
  }

  /** A run no worse on any metric and strictly better on one that carries weight is
      ranked strictly above, wherever the sort puts ties. */
  lemma DominanceRespected(ms: seq<Metrics>, w: Weights, a: nat, b: nat, k: Metric, p: nat, q: nat)
    requires a < |ms| && b < |ms| && NonNegative(w) && WeightOf(w, k) > 0.0
    requires forall m :: NoWorse(ms[a], ms[b], m)
    requires StrictlyBetter(ms[a], ms[b], k)
    requires p < |ms| && q < |ms| && Ranked(ms, w)[p].run == a && Ranked(ms, w)[q].run == b
    ensures p < q
  {
    hide Score, NoWorse, StrictlyBetter, ExchangeFrom, Scored;
    forall m ensures Score(ms, m, a) >= Score(ms, m, b) {
      ScoreFollowsMetric(ms, m, a, b);
    }
    ScoreFollowsMetric(ms, k, a, b);
    CompositeOrder(ms, w, a, b, k);
    RankedComposite(ms, w, p);
    RankedComposite(ms, w, q);
    ExchangeSorts(AllScored(ms, w), 0, Better);
    assert q < p ==> !Better(Ranked(ms, w)[p], Ranked(ms, w)[q]);
  }

  lemma RankedComposite(ms: seq<Metrics>, w: Weights, p: nat)
    requires p < |ms|
    ensures var s := Ranked(ms, w)[p];
      0 <= s.run < |ms| && s.composite == CompositeOf(ms, w, s.run)
  {
    hide Scored, ExchangeFrom;
    var s, r := AllScored(ms, w), Ranked(ms, w);
    ExchangeSorts(s, 0, Better);
    PermutationLength(s, r);
    assert r[p] in s;
    var k :| 0 <= k < |s| && s[k] == r[p];
    ScoredPlain(ms, w, k);
  }

  // ----- units -----

  function Affine(a: real, b: real, x: real): real { a * x + b }

  /** ns reports metric k of ms in another unit: scaled by a and shifted by b. */
  ghost predicate Rescaled(ms: seq<Metrics>, ns: seq<Metrics>, k: Metric, a: real, b: real)
  {
    && |ns| == |ms| && a > 0.0
    && (forall i :: 0 <= i < |ms| ==> MetricOf(ns[i], k) == Affine(a, b, MetricOf(ms[i], k)))
    && (forall i, q :: 0 <= i < |ms| && q != k ==> MetricOf(ns[i], q) == MetricOf(ms[i], q))
  }

  lemma AffineOrder(a: real, b: real, x: real, y: real)
    requires a > 0.0
    ensures x <= y <==> Affine(a, b, x) <= Affine(a, b, y)
  {
    assert a * y - a * x == a * (y - x);
    if x < y {
      var k := ProductPositive(a, y - x);
    } else if y < x {
      var k := ProductPositive(a, x - y);
      assert k == a * x - a * y;
    }
  }

  lemma {:induction false} ExtremesRescaled(ms: seq<Metrics>, ns: seq<Metrics>, k: Metric, a: real, b: real, n: nat)
    requires Rescaled(ms, ns, k, a, b) && 0 < n <= |ms|
    ensures Least(ns, k, n) == Affine(a, b, Least(ms, k, n))
    ensures Greatest(ns, k, n) == Affine(a, b, Greatest(ms, k, n))
  {
    hide MetricOf, Affine;
    if n > 1 {
      ExtremesRescaled(ms, ns, k, a, b, n - 1);
      AffineOrder(a, b, MetricOf(ms[n - 1], k), Least(ms, k, n - 1));
      AffineOrder(a, b, Greatest(ms, k, n - 1), MetricOf(ms[n - 1], k));
    }
  }

  lemma {:induction false} ExtremesSame(ms: seq<Metrics>, ns: seq<Metrics>, k: Metric, n: nat)
    requires |ns| == |ms| && 0 < n <= |ms| && forall i :: 0 <= i < |ms| ==> MetricOf(ns[i], k) == MetricOf(ms[i], k)
    ensures Least(ns, k, n) == Least(ms, k, n) && Greatest(ns, k, n) == Greatest(ms, k, n)
  {
    hide MetricOf;
    if n > 1 {
      ExtremesSame(ms, ns, k, n - 1);
    }
  }

  lemma SharedFactor(a: real, x: real, whole: real)
    requires a > 0.0 && whole > 0.0
    ensures a * whole > 0.0 && (a * x) / (a * whole) == x / whole
  {
    var d := ProductPositive(a, whole);
    var t := x / whole;
    assert t * whole == x;
    assert t * d == a * x by {
      assert t * (a * whole) == a * (t * whole);
    }
    ScaleBack(t, d);
  }

  lemma AffineStep(a: real, b: real, x: real, y: real)
    ensures Affine(a, b, x) - Affine(a, b, y) == a * (x - y)
  {
  }

  lemma NormalizeRescaled(k: Metric, val: real, lo: real, hi: real, a: real, b: real)
    requires a > 0.0
    ensures Normalize(k, Affine(a, b, val), Affine(a, b, lo), Affine(a, b, hi)) == Normalize(k, val, lo, hi)
  {
    hide Affine;
    AffineOrder(a, b, hi, lo);
    if lo < hi {
      SharedFactor(a, hi - val, hi - lo);
      SharedFactor(a, val - lo, hi - lo);
      AffineStep(a, b, hi, val);
      AffineStep(a, b, val, lo);
      AffineStep(a, b, hi, lo);
    }
  }

  /** Reporting a metric in another unit for every run changes no score, hence neither
      the composites nor the ranking. */
  lemma UnitsDoNotMatter(ms: seq<Metrics>, ns: seq<Metrics>, k: Metric, a: real, b: real, w: Weights)
    requires Rescaled(ms, ns, k, a, b)
    ensures forall q, i :: 0 <= i < |ms| ==> Score(ns, q, i) == Score(ms, q, i)
    ensures Ranked(ns, w) == Ranked(ms, w)
  {
    forall q, i | 0 <= i < |ms| ensures Score(ns, q, i) == Score(ms, q, i) {
      ScoreRescaled(ms, ns, k, a, b, q, i);
    }
    SameScores(ms, ns, w);
  }

  lemma ScoreRescaled(ms: seq<Metrics>, ns: seq<Metrics>, k: Metric, a: real, b: real, q: Metric, i: nat)
    requires Rescaled(ms, ns, k, a, b) && i < |ms|
    ensures Score(ns, q, i) == Score(ms, q, i)
  {
    hide MetricOf, Normalize, Least, Greatest, Affine;
    if q == k {
      ExtremesRescaled(ms, ns, k, a, b, |ms|);
      NormalizeRescaled(k, MetricOf(ms[i], k), Least(ms, k, |ms|), Greatest(ms, k, |ms|), a, b);
    } else {
      ExtremesSame(ms, ns, q, |ms|);
    }
  }

  lemma SameScores(ms: seq<Metrics>, ns: seq<Metrics>, w: Weights)
    requires |ns| == |ms| && forall q, i :: 0 <= i < |ms| ==> Score(ns, q, i) == Score(ms, q, i)
    ensures Ranked(ns, w) == Ranked(ms, w)
  {
    hide Score, Composite, ExchangeFrom;
    assert AllScored(ns, w) == AllScored(ms, w);
  }
}
