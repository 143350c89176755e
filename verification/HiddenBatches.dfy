/** The pruning bound on an evaluation that the optimizer can return: capacity beyond the listing's guard, and an
    affine latency. The guard hides a better batch; without it the audited relation can be met. */
module HiddenBatches {
  import opened Arith
  import opened Hardware
  import opened SimTypes
  import opened AnalyticListing
  import opened ConfigSearch
  import opened PerConfigSearch
  import CapacityGates
  import Footprint
  import OptimizerGate

  /** One flash stack of 2 TiB without a gate on its activations. */
  const DEVICE := SystemConfig(
    true, Hbf(1, 0, 0.0, 0.0, 0.0, 2199023255552.0, GIGA, GIGA, GIGA, GIGA, 0.0, 0.0, true),
    GIGA, 0.0, false, 0.0, GIGA, false, GIGA, 1.0, 0.0, 0, 1, false, false, false, true, true)

  const MODEL := Footprint.ModelDims(1024.0, 128.0, 8.0, 2.0, 4096.0, 0.0, 1.0, 0.0, 0.0, 0.0, 0, 0,
                                     0.0, 0.0, 0.0, 0.0, 0.0, 0.0, false, false)

  /** 1 KiB of KV per sequence, and 1 ms plus a share for each sequence. */
  const SETTING := OptimizerGate.Setting(
    DEVICE, MODEL, 1, 1.0, 1.0, t => 0.0, t => 1024.0,
    (t, b) => 1.0 + b as real / 1073741824.0)

  const EVALUATE := OptimizerGate.Evaluate(SETTING)

  const LISTED := Config(1, 1, 1, 1, MAX_TOTAL_BATCH, MAX_TOTAL_BATCH, 1.0 + 1.0 / 1073741824.0, 2.0)

  const TUPLE := TupleOf(LISTED)

  lemma SettingIsValid()
    ensures OptimizerGate.ValidSetting(SETTING, TUPLE)
    ensures HasScarceTier(DEVICE) && DEVICE.hbf.unboundedSramGate && CapacityGates.HbmBytes(DEVICE.hbf) == 0.0
  {}

  lemma EvaluationAt(k: int)
    ensures Fits(EVALUATE, TUPLE, k) <==> k <= 2147483648
    ensures Latency(EVALUATE, TUPLE, k) == 1.0 + k as real / 1073741824.0
    ensures OptimizerGate.ValidSetting(SETTING, TUPLE)
  {
    assert k * TUPLE.dp == k;
    SettingIsValid();
    OptimizerGate.UngatedActivation(SETTING, TUPLE, k);
    assert OptimizerGate.KvAt(SETTING, TUPLE, k) == 1024.0 * k as real;
  }

  lemma GuardIsPow2()
    ensures MAX_TOTAL_BATCH == Pow2(30) == 1073741824
  {
    assert Pow2(5) == 32;
    Pow2Adds(5, 5);
    Pow2Adds(10, 5);
    assert Pow2(15) == 0x8000;
    Pow2Adds(15, 15);
  }

  lemma ListedLine()
    ensures LocalLine(EVALUATE, TUPLE, 1000.0, LISTED) && KCap(LISTED) == KHint(LISTED) == MAX_TOTAL_BATCH
  {
    GuardIsPow2();
    EvaluationAt(1);
    EvaluationAt(MAX_TOTAL_BATCH);
    forall j: nat | j >= 1 && Pow2(j) * TUPLE.dp <= MAX_TOTAL_BATCH ensures Fits(EVALUATE, TUPLE, Pow2(j)) {
      EvaluationAt(Pow2(j));
    }
  }

  /** Serving more sequences per step never loses throughput. */
  lemma AffineRate(j: int, k: int)
    requires 0 <= j <= k
    ensures j as real / (1.0 + j as real / 1073741824.0) <= k as real / (1.0 + k as real / 1073741824.0)
    ensures j < k ==> j as real / (1.0 + j as real / 1073741824.0) < k as real / (1.0 + k as real / 1073741824.0)
  {}

  lemma AffineForm(x: real, n: real)
    requires x >= 0.0 && n > 0.0
    ensures x / (1.0 + x / n) == n - n * n / (n + x)
  {}

  lemma ShareRises(x: real, y: real, n: real, m: real)
    requires 0.0 <= x <= y && n > 0.0 && m > 0.0
    ensures m / (n + y) <= m / (n + x) && (x < y ==> m / (n + y) < m / (n + x))
  {}

  lemma PositiveQuotient(x: real, d: real)
    requires x > 0.0 && d > 0.0
    ensures x / d > 0.0
  {}

  lemma StrictlyLess(a: real, b: real, c: real, d: real)
    requires a * d == b * c && 0.0 < c < d && 0.0 < b
    ensures a < b
  {}

  lemma EstimatesGrow()
    ensures CapacityDownwardClosed(EVALUATE, TUPLE) && LatencyNondecreasing(EVALUATE, TUPLE)
    ensures EstimateGrows(EVALUATE, TUPLE)
  {
    EvaluationAt(1);
    OptimizerGate.CapacityIsDownwardClosed(SETTING, TUPLE);
    forall j, k | 1 <= j <= k
      ensures Latency(EVALUATE, TUPLE, j) <= Latency(EVALUATE, TUPLE, k)
      ensures EstRate(EVALUATE, TUPLE, j) <= EstRate(EVALUATE, TUPLE, k)
    {
      EvaluationAt(j);
      EvaluationAt(k);
      RDivMono(j as real, k as real, 1073741824.0);
      AffineRate(j, k);
    }
    forall k | k >= 1 ensures Latency(EVALUATE, TUPLE, k) / 1000.0 >= 0.000000001 { EvaluationAt(k); }
  }

  lemma MorePromised()
    ensures Fits(EVALUATE, TUPLE, MAX_TOTAL_BATCH + 1) && Latency(EVALUATE, TUPLE, MAX_TOTAL_BATCH + 1) <= 1000.0
    ensures EstRate(EVALUATE, TUPLE, MAX_TOTAL_BATCH + 1) > EstRate(EVALUATE, TUPLE, MAX_TOTAL_BATCH)
  {
    EvaluationAt(MAX_TOTAL_BATCH);
    EvaluationAt(MAX_TOTAL_BATCH + 1);
    AffineRate(MAX_TOTAL_BATCH, MAX_TOTAL_BATCH + 1);
  }

  /** The concrete case: the bracket stops at its guard, and a simulator that is as fast as estimated and takes one
      sequence more than the listed ceiling already beats the seed. */
  lemma GuardHidesBatches()
    ensures var sim, g := FastUpTo(EVALUATE, TUPLE, LISTED, MAX_TOTAL_BATCH + 1), MAX_TOTAL_BATCH;
      && LocalLine(EVALUATE, TUPLE, 1000.0, LISTED) && Tame(sim, LISTED, g + 1)
      && MeasuredAbove(sim, EVALUATE, TUPLE, LISTED, 1.0) && !SeedDominates(sim, LISTED, 1, g + 1)
  {
    ListedLine();
    EstimatesGrow();
    MorePromised();
    assert 1.0 * 1000.0 == 1000.0;
    GuardHides(EVALUATE, TUPLE, LISTED, 1.0, 1, MAX_TOTAL_BATCH + 1, MAX_TOTAL_BATCH + 1);
  }

  /** The audited relation can be met: the same listing, and a simulator that takes what it lists. */
  lemma AuditCanBeMet(m: nat)
    requires 1 <= m <= MAX_TOTAL_BATCH
    ensures Audited(FastUpTo(EVALUATE, TUPLE, LISTED, m), EVALUATE, LISTED, 1.0, m)
  {
    var sim := FastUpTo(EVALUATE, TUPLE, LISTED, m);
    ListedLine();
    EstimatesGrow();
    EvaluationAt(m);
    assert 1.0 * 1000.0 == 1000.0;
    FastUpToIsTame(EVALUATE, TUPLE, LISTED, m, m);
    FastUpToIsAbove(EVALUATE, TUPLE, LISTED, 1.0, m);
    CeilingSuffices(EVALUATE, TUPLE, LISTED, 1000.0, m);
    forall j, k | 1 <= j <= k && Feasible(Probe(sim, LISTED), 1, k)
      ensures Rate(sim, LISTED, j) <= Rate(sim, LISTED, k)
    {
      RatesGrow(m, j, k);
    }
  }

  lemma RatesGrow(m: nat, j: int, k: int)
    requires 1 <= j <= k && Feasible(Probe(FastUpTo(EVALUATE, TUPLE, LISTED, m), LISTED), 1, k)
    ensures var sim := FastUpTo(EVALUATE, TUPLE, LISTED, m); Rate(sim, LISTED, j) <= Rate(sim, LISTED, k)
  {
    FastUpToAt(EVALUATE, TUPLE, LISTED, m, j);
    FastUpToAt(EVALUATE, TUPLE, LISTED, m, k);
    EvaluationAt(j);
    EvaluationAt(k);
    AffineRate(j, k);
    PerSecond(j as real, Latency(EVALUATE, TUPLE, j));
    PerSecond(k as real, Latency(EVALUATE, TUPLE, k));
  }

  lemma PerSecond(b: real, ms: real)
    requires ms > 0.0
    ensures b / (ms / 1000.0) == 1000.0 * (b / ms)
  {}
}
