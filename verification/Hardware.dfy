/** The hardware parameters that the timing and capacity formulas read. Doubles are modelled as reals. */
module Hardware {

  const GIGA := 1000000000.0

  datatype Hbf = Hbf(
    numFlashStacks: nat, numHbmStacks: nat,
    sramPerStackBytes: real, logicSramBytes: real, hbmPerStackBytes: real, totalCapacityBytes: real,
    flashReadBandwidth: real, flashWriteBandwidth: real, hbmReadBandwidth: real, logicSramBandwidth: real,
    flashPageReadNs: real, flashPageProgramNs: real, unboundedSramGate: bool)

  datatype SystemConfig = SystemConfig(
    useHbf: bool, hbf: Hbf,
    memoryBandwidth: real, memoryCapacity: real,
    cpuKvOffload: bool, cpuMemoryCapacity: real, c2cBandwidth: real, c2cMaxComposition: bool,
    computePeakFlops: real, mfuMax: real, mfuHalf: real,
    chunkSize: int, weightStreamOps: int,
    paper2Mode: bool, exposeFirstExpert: bool, kvWriteSoftmaxHide: bool,
    useFlashAttention: bool, ppPipelinedTiming: bool)

  /** Weights and KV live on flash stacks, activations on a scarce tier of their own. */
  predicate HasScarceTier(s: SystemConfig) { s.useHbf && s.hbf.numFlashStacks > 0 }

  predicate CpuKvOffloadActive(s: SystemConfig) { s.cpuKvOffload && !HasScarceTier(s) }

  function SramBytes(h: Hbf): real { h.sramPerStackBytes * h.numFlashStacks as real }

  /** The tier that activations stream through on a flash device. */
  function ActBandwidth(h: Hbf): real {
    if h.numHbmStacks > 0 then h.hbmReadBandwidth else h.logicSramBandwidth
  }

  function EffectiveMfu(s: SystemConfig, m: real): real {
    if m <= 0.0 || s.mfuHalf <= 0.0 then s.mfuMax else s.mfuMax * m / (m + s.mfuHalf)
  }

  predicate ValidHardware(s: SystemConfig) {
    && s.hbf.sramPerStackBytes >= 0.0 && s.hbf.logicSramBytes >= 0.0 && s.hbf.hbmPerStackBytes >= 0.0
    && s.hbf.flashReadBandwidth > 0.0 && s.hbf.flashWriteBandwidth > 0.0
    && s.hbf.hbmReadBandwidth > 0.0 && s.hbf.logicSramBandwidth > 0.0
    && s.hbf.flashPageReadNs >= 0.0 && s.hbf.flashPageProgramNs >= 0.0
    && s.memoryBandwidth > 0.0 && s.c2cBandwidth > 0.0 && s.computePeakFlops > 0.0 && s.mfuMax > 0.0
  }

  /** Counts and degrees that are not positive stand for 1. */
  function AtLeastOne(d: int): (r: int)
    ensures r >= 1
  {
    if d > 0 then d else 1
  }

  function Max(a: real, b: real): real { if a < b then b else a }

  function Min(a: real, b: real): real { if b < a then b else a }
}
