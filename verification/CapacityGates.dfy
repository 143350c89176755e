/** The optimizer's capacity check and the simulator's own, and why they do not drift apart. */
module CapacityGates {
  import opened Arith
  import opened SimTypes
  import opened Hardware
  import opened Footprint

  datatype Capacity = Fits | FlashExceeded | ActivationExceeded | HbmExceeded

  function HbmBytes(h: Hbf): real { h.numHbmStacks as real * h.hbmPerStackBytes }

  /** None is "no limit". */
  function ActivationLimit(s: SystemConfig): Option<real> {
    if HasScarceTier(s) then
      if s.hbf.unboundedSramGate then None
      else if s.hbf.numHbmStacks > 0 then Some(HbmBytes(s.hbf))
      else Some(s.hbf.logicSramBytes)
    else Some(s.memoryCapacity)
  }

  predicate Exceeds(x: real, limit: Option<real>) { limit.Some? && x > limit.value }

  function HbmPoolLimit(s: SystemConfig): real {
    s.memoryCapacity + if CpuKvOffloadActive(s) then s.cpuMemoryCapacity else 0.0
  }

  /** checkCapacity. */
  function CheckCapacity(s: SystemConfig, act: real, weight: real, kv: real): Capacity {
    if HasScarceTier(s) then
      var flashCap := s.hbf.totalCapacityBytes - HbmBytes(s.hbf);
      if weight + kv > flashCap then FlashExceeded
      else if Exceeds(act, ActivationLimit(s)) then ActivationExceeded
      else Fits
    else if act + weight + kv > HbmPoolLimit(s) then HbmExceeded
    else Fits
  }

  /** A decode step's batch and layout on one device. */
  datatype Load = Load(batch: real, tp: real, expertBatch: real, experts: real, layers: real, seqLen: real)

  predicate ValidLoad(l: Load) {
    l.batch >= 0.0 && l.tp > 0.0 && l.layers >= 0.0 && l.seqLen >= 0.0
  }

  /** The peak part of the decode activation, as the flash-attention switch selects it. */
  function PeakPart(s: SystemConfig, m: ModelDims, l: Load): real
    requires l.tp > 0.0
  {
    var moe, dense := m.numRoutedExpert > 0.0, HasDenseFfnLayer(m);
    if s.useFlashAttention then PeakBytes(m, l.batch, l.tp, l.expertBatch, l.experts, moe, dense)
    else ScoreInclusiveBytes(m, l.batch, l.tp, l.expertBatch, l.experts, moe, dense, l.seqLen)
  }

  function ExtrasPart(s: SystemConfig, m: ModelDims, l: Load): real
    requires l.tp > 0.0
  {
    ExtrasBytes(m, l.batch, l.tp, l.layers, s.useFlashAttention)
  }

  /** The activation that the optimizer checks. */
  function DecodeAct(s: SystemConfig, m: ModelDims, l: Load): real
    requires l.tp > 0.0
  {
    PeakPart(s, m, l) + ExtrasPart(s, m, l)
  }

  /** Conversion of a double to a 64-bit integer: towards zero. */
  function Truncate(x: real): int {
    if x >= 0.0 then x.Floor else -((-x).Floor)
  }

  /** The activation that the simulator checks: both parts are truncated before they are added. */
  function TruncatedAct(s: SystemConfig, m: ModelDims, l: Load): int
    requires l.tp > 0.0
  {
    Truncate(PeakPart(s, m, l)) + Truncate(ExtrasPart(s, m, l))
  }

  /** The simulator's pool: weights and KV, less the HBM stacks, on flash devices; everything otherwise. */
  predicate PoolExceeded(s: SystemConfig, act: int, weight: real, kv: real) {
    if HasScarceTier(s) then weight + kv > s.memoryCapacity - HbmBytes(s.hbf)
    else act as real + weight + kv > HbmPoolLimit(s)
  }

  predicate SimulatorRejects(s: SystemConfig, act: int, weight: real, kv: real) {
    (HasScarceTier(s) && Exceeds(act as real, ActivationLimit(s))) || PoolExceeded(s, act, weight, kv)
  }

  /** The decode-mode gates of checkMemorySize: the activation tier, then the pool, from whose total the
      activation is taken out again on flash devices. */
  method CheckMemorySize(s: SystemConfig, m: ModelDims, l: Load, weight: real, kv: real) returns (outOfMemory: bool)
    requires ValidLoad(l)
    ensures outOfMemory <==> SimulatorRejects(s, TruncatedAct(s, m, l), weight, kv)
  {
    var activationSize := Truncate(PeakPart(s, m, l));
    activationSize := activationSize + Truncate(ExtrasPart(s, m, l));
    ghost var act := TruncatedAct(s, m, l);
    assert activationSize == act;
    outOfMemory := Gate(s, activationSize, weight, kv);
  }

  method Gate(s: SystemConfig, activationSize: int, weight: real, kv: real) returns (outOfMemory: bool)
    ensures outOfMemory <==> SimulatorRejects(s, activationSize, weight, kv)
  {
    outOfMemory := false;
    var size := activationSize as real + weight + kv;
    if HasScarceTier(s) {
      var limit := ActivationLimit(s);
      if limit.Some? && activationSize as real > limit.value { outOfMemory := true; }
    }
    var capacityLimit := s.memoryCapacity;
    if HasScarceTier(s) {
      capacityLimit := capacityLimit - HbmBytes(s.hbf);
    } else if CpuKvOffloadActive(s) {
      capacityLimit := capacityLimit + s.cpuMemoryCapacity;
    }
    var gated := if HasScarceTier(s) then size - activationSize as real else size;
    if gated > capacityLimit { outOfMemory := true; }
  }

  predicate PresetConsistent(s: SystemConfig) { HasScarceTier(s) ==> s.memoryCapacity == s.hbf.totalCapacityBytes }

  lemma TruncationLosesUnderTwo(s: SystemConfig, m: ModelDims, l: Load)
    requires ValidDims(m) && ValidLoad(l)
    ensures DecodeAct(s, m, l) - 2.0 < TruncatedAct(s, m, l) as real <= DecodeAct(s, m, l)
    ensures PeakPart(s, m, l) >= 0.0 && ExtrasPart(s, m, l) >= 0.0
  {
    var moe, dense := m.numRoutedExpert > 0.0, HasDenseFfnLayer(m);
    PeakNonNegative(m, l.batch, l.tp, l.expertBatch, l.experts, moe, dense);
    ScoreInclusiveNonNegative(m, l.batch, l.tp, l.expertBatch, l.experts, moe, dense, l.seqLen);
    ExtrasNonNegative(m, l.batch, l.tp, l.layers, s.useFlashAttention);
  }

  /** On the same activation the two gates are the same gate exactly when the preset is consistent. */
  lemma GatesCoincideIff(s: SystemConfig)
    ensures (forall act: int, weight, kv ::
              SimulatorRejects(s, act, weight, kv) <==> CheckCapacity(s, act as real, weight, kv) != Fits)
       <==> PresetConsistent(s)
  {
    if !PresetConsistent(s) {
      var lo, hi := Min(s.memoryCapacity, s.hbf.totalCapacityBytes) - HbmBytes(s.hbf),
                    Max(s.memoryCapacity, s.hbf.totalCapacityBytes) - HbmBytes(s.hbf);
      var act := SmallAct(s);
      assert lo < hi && hi + 0.0 == hi;
      assert SimulatorRejects(s, act, hi, 0.0) != (CheckCapacity(s, act as real, hi, 0.0) != Fits);
    }
  }

  /** An activation within any limit. */
  function SmallAct(s: SystemConfig): (act: int)
    ensures !Exceeds(act as real, ActivationLimit(s))
  {
    match ActivationLimit(s) case None => 0 case Some(x) => x.Floor
  }

  /** Main result. What the simulator rejects, the optimizer rejects; the converse can fail only when
      the activation, or on plain HBM the total, is over its limit by less than two bytes. */
  lemma GatesAgree(s: SystemConfig, m: ModelDims, l: Load, weight: real, kv: real)
    requires ValidDims(m) && ValidLoad(l) && PresetConsistent(s)
    ensures var act, simulator := DecodeAct(s, m, l), SimulatorRejects(s, TruncatedAct(s, m, l), weight, kv);
      && (simulator ==> CheckCapacity(s, act, weight, kv) != Fits)
      && (CheckCapacity(s, act, weight, kv) != Fits && !simulator ==>
            if HasScarceTier(s)
            then ActivationLimit(s).Some? && 0.0 < act - ActivationLimit(s).value < 2.0
            else 0.0 < act + weight + kv - HbmPoolLimit(s) < 2.0)
  {
    TruncationLosesUnderTwo(s, m, l);
    NearbyGates(s, TruncatedAct(s, m, l), DecodeAct(s, m, l), weight, kv);
  }

  lemma NearbyGates(s: SystemConfig, low: int, act: real, weight: real, kv: real)
    requires PresetConsistent(s) && act - 2.0 < low as real <= act
    ensures SimulatorRejects(s, low, weight, kv) ==> CheckCapacity(s, act, weight, kv) != Fits
    ensures CheckCapacity(s, act, weight, kv) != Fits && !SimulatorRejects(s, low, weight, kv) ==>
      if HasScarceTier(s)
      then ActivationLimit(s).Some? && 0.0 < act - ActivationLimit(s).value < 2.0
      else 0.0 < act + weight + kv - HbmPoolLimit(s) < 2.0
  {}

  // ---- The gate in the batch ---------------------------------------------------------------------

  /** The same layout at k times the batch; routed experts see proportionally many tokens. */
  function ScaleLoad(l: Load, k: real): Load {
    l.(batch := Scaled(k, l.batch), expertBatch := Scaled(k, l.expertBatch))
  }

  lemma DecodePartsScale(s: SystemConfig, m: ModelDims, l: Load, k: real)
    requires l.tp > 0.0 && k >= 0.0
    ensures PeakPart(s, m, ScaleLoad(l, k)) == Scaled(k, PeakPart(s, m, l))
    ensures ExtrasPart(s, m, ScaleLoad(l, k)) == Scaled(k, ExtrasPart(s, m, l))
  {
    var moe, dense := m.numRoutedExpert > 0.0, HasDenseFfnLayer(m);
    PeakScales(m, k, l.batch, l.tp, l.expertBatch, l.experts, moe, dense);
    ScoreInclusiveScales(m, k, l.batch, l.tp, l.expertBatch, l.experts, moe, dense, l.seqLen);
    ExtrasScale(m, k, l.batch, l.tp, l.layers, s.useFlashAttention);
  }

  /** The premise of the batch search: shrinking the batch, and with it the KV, never turns an accepted
      load into a rejected one, truncations included. */
  lemma GateDownwardClosed(s: SystemConfig, m: ModelDims, l: Load, k: real, weight: real, kv: real, kv': real)
    requires ValidDims(m) && ValidLoad(l) && 0.0 <= k <= 1.0 && kv' <= kv
    requires !SimulatorRejects(s, TruncatedAct(s, m, l), weight, kv)
    ensures !SimulatorRejects(s, TruncatedAct(s, m, ScaleLoad(l, k)), weight, kv')
  {
    TruncationLosesUnderTwo(s, m, l);
    DecodePartsScale(s, m, l, k);
    TruncateShrinks(k, PeakPart(s, m, l));
    TruncateShrinks(k, ExtrasPart(s, m, l));
  }

  /** The same for the optimizer's gate, which truncates nothing. */
  lemma OptimizerGateDownwardClosed(s: SystemConfig, m: ModelDims, l: Load, k: real, weight: real, kv: real, kv': real)
    requires ValidDims(m) && ValidLoad(l) && 0.0 <= k <= 1.0 && kv' <= kv
    requires CheckCapacity(s, DecodeAct(s, m, l), weight, kv) == Fits
    ensures CheckCapacity(s, DecodeAct(s, m, ScaleLoad(l, k)), weight, kv') == Fits
  {
    TruncationLosesUnderTwo(s, m, l);
    DecodePartsScale(s, m, l, k);
    ScaledShrinks(k, PeakPart(s, m, l));
    ScaledShrinks(k, ExtrasPart(s, m, l));
  }

  lemma ScaledShrinks(k: real, x: real)
    requires 0.0 <= k <= 1.0 && x >= 0.0
    ensures Scaled(k, x) <= x
  {}

  lemma TruncateShrinks(k: real, x: real)
    requires 0.0 <= k <= 1.0 && x >= 0.0
    ensures Truncate(Scaled(k, x)) <= Truncate(x)
  {}

  /** The printed diagnostic: the score-inclusive batch ceiling per GPU. */
  function DiagCeiling(limit: real, scoreInclusive: real, batch: real, dp: real, devices: real): real
    requires batch > 0.0 && devices > 0.0
  {
    var perSeq := scoreInclusive / batch;
    if perSeq > 0.0 then limit / perSeq * dp / devices else 0.0
  }

  /** The ceiling is exact: a replica batch k * b keeps the score-inclusive footprint within the limit
      exactly when its per-GPU batch does not exceed the printed number. */
  lemma DiagCeilingIsExact(m: ModelDims, l: Load, moe: bool, dense: bool, limit: real, dp: real, devices: real, k: real)
    requires l.tp > 0.0 && l.batch > 0.0 && dp > 0.0 && devices > 0.0 && k >= 0.0
    requires ScoreInclusiveBytes(m, l.batch, l.tp, l.expertBatch, l.experts, moe, dense, l.seqLen) > 0.0
    ensures var bytes := ScoreInclusiveBytes(m, l.batch, l.tp, l.expertBatch, l.experts, moe, dense, l.seqLen);
      var big := ScaleLoad(l, k);
      (ScoreInclusiveBytes(m, big.batch, l.tp, big.expertBatch, l.experts, moe, dense, l.seqLen) <= limit <==>
       big.batch * dp / devices <= DiagCeiling(limit, bytes, l.batch, dp, devices))
  {
    var bytes := ScoreInclusiveBytes(m, l.batch, l.tp, l.expertBatch, l.experts, moe, dense, l.seqLen);
    ScoreInclusiveScales(m, k, l.batch, l.tp, l.expertBatch, l.experts, moe, dense, l.seqLen);
    var u := bytes / l.batch;
    assert u > 0.0 && u * l.batch == bytes;
    var x, c := k * l.batch, limit / u;
    assert c * u == limit;
    assert k * bytes == x * u;
    if x <= c { RMulMono(x, c, u); } else { RMulStrict(c, x, u); }
    var f := dp / devices;
    assert x * dp / devices == x * f && c * dp / devices == c * f;
    if x <= c { RMulMono(x, c, f); } else { RMulStrict(c, x, f); }
  }
}
