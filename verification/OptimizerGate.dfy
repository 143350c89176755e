/** The capacity verdict of the analytic evaluation, and why the listing may bisect on it. */
module OptimizerGate {
  import opened Arith
  import opened Hardware
  import opened Footprint
  import opened CapacityGates
  import AnalyticListing

  type Tuple = AnalyticListing.Tuple

  /** What EvaluateConfig knows besides the tuple and the batch. Weight bytes, KV bytes per sequence and
      latency are given, since no step of the capacity argument looks inside them. */
  datatype Setting = Setting(s: SystemConfig, m: ModelDims, totalGpus: int, numLayers: real, seqLen: real,
                             weight: Tuple -> real, kvPerSeq: Tuple -> real, latencyMs: (Tuple, int) -> real)

  predicate ValidSetting(x: Setting, t: Tuple) {
    ValidDims(x.m) && x.numLayers >= 0.0 && x.seqLen >= 0.0 && x.kvPerSeq(t) >= 0.0 &&
    t.dp >= 1 && t.tp >= 1 && 1 <= t.pp <= x.totalGpus && t.ep >= 1
  }

  function Dims(x: Setting, t: Tuple): ModelDims { x.m.(expertTp := t.ep as real) }

  function TokensPerExpert(m: ModelDims, batch: real): real {
    if m.expertFreq > 0 && m.numRoutedExpert > 0.0 then batch * m.topK / m.numRoutedExpert else 0.0
  }

  lemma TokensPerExpertScale(m: ModelDims, r: real, batch: real)
    ensures TokensPerExpert(m, r * batch) == Scaled(r, TokensPerExpert(m, batch))
  {}

  function LoadAt(x: Setting, t: Tuple, batch: int): Load
    requires ValidSetting(x, t)
  {
    DivPositive(x.totalGpus, t.pp);
    Load(batch as real / t.dp as real, t.tp as real,
         TokensPerExpert(x.m, batch as real),
         if x.m.numRoutedExpert > 0.0 then x.m.numRoutedExpert * t.ep as real / (x.totalGpus / t.pp) as real else 0.0,
         x.numLayers / t.pp as real, x.seqLen)
  }

  lemma DivPositive(x: int, d: int)
    requires 1 <= d <= x
    ensures x / d >= 1
  {}

  function KvAt(x: Setting, t: Tuple, batch: int): real
    requires t.dp >= 1
  {
    x.kvPerSeq(t) * (batch as real / t.dp as real)
  }

  lemma KvShrinks(x: Setting, t: Tuple, j: int, k: int)
    requires ValidSetting(x, t) && j <= k
    ensures KvAt(x, t, j * t.dp) <= KvAt(x, t, k * t.dp)
  {}

  function CapacityAt(x: Setting, t: Tuple, batch: int): Capacity
    requires ValidSetting(x, t)
  {
    CheckCapacity(x.s, DecodeAct(x.s, Dims(x, t), LoadAt(x, t, batch)), x.weight(t), KvAt(x, t, batch))
  }

  function Evaluate(x: Setting): AnalyticListing.Evaluator {
    (t: Tuple, batch: int) =>
      AnalyticListing.Estimate(!ValidSetting(x, t) || CapacityAt(x, t, batch) != Capacity.Fits, x.latencyMs(t, batch))
  }

  /** The load of j = r * k sequences per replica is that of k, scaled. */
  lemma LoadScales(x: Setting, t: Tuple, j: int, k: int, r: real)
    requires ValidSetting(x, t) && r * k as real == j as real
    ensures LoadAt(x, t, j * t.dp) == ScaleLoad(LoadAt(x, t, k * t.dp), r)
  {
    Replicated(j, t.dp);
    Replicated(k, t.dp);
    ScaledTotal(r, j, k, t.dp);
    TokensPerExpertScale(x.m, r, (k * t.dp) as real);
  }

  lemma ScaledTotal(r: real, j: int, k: int, dp: int)
    requires r * k as real == j as real
    ensures (j * dp) as real == r * (k * dp) as real
  {}

  lemma Share(j: int, k: int)
    requires 1 <= j <= k
    ensures var r := j as real / k as real; 0.0 <= r <= 1.0 && r * k as real == j as real
  {}

  lemma Replicated(k: int, dp: int)
    requires dp >= 1
    ensures (k * dp) as real / dp as real == k as real && (k * dp) as real == k as real * dp as real
  {}

  lemma LoadIsValid(x: Setting, t: Tuple, k: int)
    requires ValidSetting(x, t) && k >= 0
    ensures ValidLoad(LoadAt(x, t, k * t.dp)) && ValidDims(Dims(x, t))
  {}

  lemma CapacityShrinks(x: Setting, t: Tuple, j: int, k: int, small: int, big: int)
    requires ValidSetting(x, t) && 1 <= j <= k && small == j * t.dp && big == k * t.dp
    requires CapacityAt(x, t, big) == Capacity.Fits
    ensures CapacityAt(x, t, small) == Capacity.Fits
  {
    var r := j as real / k as real;
    Share(j, k);
    LoadScales(x, t, j, k, r);
    LoadIsValid(x, t, k);
    KvShrinks(x, t, j, k);
    OptimizerGateDownwardClosed(x.s, Dims(x, t), LoadAt(x, t, big), r, x.weight(t), KvAt(x, t, big), KvAt(x, t, small));
  }

  /** Main result: the evaluation's capacity verdict is downward closed in the batch, so bracketing and
      bisecting on it finds the true ceiling. */
  lemma CapacityIsDownwardClosed(x: Setting, t: Tuple)
    requires ValidSetting(x, t)
    ensures AnalyticListing.CapacityDownwardClosed(Evaluate(x), t)
  {
    forall j, k | 1 <= j <= k && AnalyticListing.Fits(Evaluate(x), t, k)
      ensures AnalyticListing.Fits(Evaluate(x), t, j)
    {
      CapacityShrinks(x, t, j, k, j * t.dp, k * t.dp);
    }
  }

  /** On flash without a gate on the activations, only weights and KV count. */
  lemma UngatedActivation(x: Setting, t: Tuple, k: int)
    requires ValidSetting(x, t) && HasScarceTier(x.s) && x.s.hbf.unboundedSramGate
    ensures AnalyticListing.Fits(Evaluate(x), t, k)
       <==> x.weight(t) + KvAt(x, t, k * t.dp) <= x.s.hbf.totalCapacityBytes - HbmBytes(x.s.hbf)
  {
    var batch := k * t.dp;
    assert ActivationLimit(x.s).None?;
    assert CapacityAt(x, t, batch) == CheckCapacity(x.s, DecodeAct(x.s, Dims(x, t), LoadAt(x, t, batch)),
                                                    x.weight(t), KvAt(x, t, batch));
    assert AnalyticListing.Fits(Evaluate(x), t, k) <==> CapacityAt(x, t, batch) == Capacity.Fits;
  }
}
