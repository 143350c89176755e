/** Roofline time of one linear or activation op, and the part of it tagged as batch-dependent. */
module OpTiming {
  import opened Arith
  import opened Hardware
  import opened FlashTiming
  import opened Tagging

  /** Peak rate and plain-memory bandwidth of the processor that runs the op. */
  datatype Unit = Unit(peakFlops: real, bandwidth: real, fp8Double: bool)

  predicate ValidUnit(u: Unit) { u.peakFlops > 0.0 && u.bandwidth > 0.0 }

  datatype Op =
    | Linear(m: real, k: real, n: real, precision: real, heads: nat, duplicated: bool, expose: bool)
    | Activation(m: real, width: real, precision: real)

  predicate ValidOp(o: Op) {
    o.m >= 0.0 && o.precision >= 0.0 &&
    match o
    case Linear(_, k, n, _, heads, _, _) => k >= 0.0 && n >= 0.0 && heads >= 1
    case Activation(_, width, _) => width >= 0.0
  }

  /** The op's input tensor has no elements. */
  predicate Empty(o: Op) {
    o.m == 0.0 || o.precision == 0.0 ||
    match o case Linear(_, k, _, _, _, _, _) => k == 0.0 case Activation(_, width, _) => width == 0.0
  }

  function Flops(o: Op): real {
    match o
    case Linear(m, k, n, _, heads, _, _) => 2.0 * m * k * n * heads as real
    case Activation(m, width, p) => m * width * p
  }

  /** Bytes that scale with the tokens, and bytes of the weights. */
  function TokenBytes(o: Op): real {
    match o
    case Linear(m, k, n, p, heads, dup, _) =>
      m * k * p * (if dup && heads > 1 then 1.0 else heads as real) + m * n * p * heads as real
    case Activation(m, width, p) => m * width * p
  }

  function WeightBytes(o: Op): real {
    if o.Linear? then o.k * o.n * o.precision * o.heads as real else 0.0
  }

  function Peak(u: Unit, o: Op): real {
    if u.fp8Double && o.precision == 1.0 then u.peakFlops * 2.0 else u.peakFlops
  }

  /** The rate at which the op computes. */
  function Rate(s: SystemConfig, u: Unit, o: Op): (r: real)
    requires ValidHardware(s) && ValidUnit(u)
    ensures r > 0.0
  {
    MfuPositive(s, o.m);
    Peak(u, o) * EffectiveMfu(s, o.m)
  }

  function ComputeNs(s: SystemConfig, u: Unit, o: Op): real
    requires ValidHardware(s) && ValidUnit(u)
  {
    TransferNs(Flops(o), Rate(s, u, o))
  }

  lemma MfuPositive(s: SystemConfig, m: real)
    requires ValidHardware(s)
    ensures EffectiveMfu(s, m) > 0.0
  {}

  /** The weight stream of a flash device: no token count enters it. */
  function WeightReadNs(s: SystemConfig, o: Op): real
    requires ValidHardware(s) && o.Linear?
  {
    StreamNs(WeightBytes(o), SramBytes(s.hbf), s.hbf.flashReadBandwidth, s.hbf.flashPageReadNs,
             AtLeastOne(s.weightStreamOps), s.paper2Mode)
    + if o.expose && s.exposeFirstExpert then s.hbf.flashPageReadNs else 0.0
  }

  function TokenNs(s: SystemConfig, o: Op): real
    requires ValidHardware(s)
  {
    ActNs(s, TokenBytes(o))
  }

  function MemoryNs(s: SystemConfig, u: Unit, o: Op): real
    requires ValidHardware(s) && ValidUnit(u)
  {
    if !HasScarceTier(s) then TransferNs(TokenBytes(o) + WeightBytes(o), u.bandwidth)
    else if o.Linear? then Max(WeightReadNs(s, o), TokenNs(s, o))
    else TokenNs(s, o)
  }

  function RooflineNs(s: SystemConfig, u: Unit, o: Op): real
    requires ValidHardware(s) && ValidUnit(u)
  {
    Max(ComputeNs(s, u, o), MemoryNs(s, u, o))
  }

  /** The batch-dependent part of the roofline time. */
  function TagNs(s: SystemConfig, u: Unit, o: Op): real
    requires ValidHardware(s) && ValidUnit(u)
  {
    var mem := MemoryNs(s, u, o);
    if o.Activation? || ComputeNs(s, u, o) > mem then RooflineNs(s, u, o)
    else if HasScarceTier(s) then (if TokenNs(s, o) >= mem then RooflineNs(s, u, o) else 0.0)
    else
      var all := TokenBytes(o) + WeightBytes(o);
      if all > 0.0 then mem * (TokenBytes(o) / all) else 0.0
  }

  function Tagged(t: real, tag: real, cold: bool, pp: int): Status {
    Status(t, if pp > 1 && cold && t > 0.0 then t * pp as real / (pp - 1) as real else tag)
  }

  /** linearCore and activationCore: the tag is overridden for an expert that gets no tokens in the
      first microbatch, so that the reconstruction charges the op nothing. */
  function Execute(s: SystemConfig, u: Unit, o: Op, cold: bool, pp: int): Status
    requires ValidHardware(s) && ValidUnit(u)
  {
    if Empty(o) then Status(0.0, 0.0) else Tagged(RooflineNs(s, u, o), TagNs(s, u, o), cold, pp)
  }

  function WithTokens(o: Op, m: real): Op {
    match o
    case Linear(_, k, n, p, heads, dup, expose) => Linear(m, k, n, p, heads, dup, expose)
    case Activation(_, width, p) => Activation(m, width, p)
  }

  /** The op as one of pp equal microbatches sees it. */
  function Micro(o: Op, pp: int): Op
    requires pp >= 1
  {
    WithTokens(o, o.m / pp as real)
  }

  // ---- Scaling -----------------------------------------------------------------------------------

  lemma TokensScale(o: Op, pp: int)
    requires pp >= 1
    ensures Flops(Micro(o, pp)) == Flops(o) / pp as real
    ensures TokenBytes(Micro(o, pp)) == TokenBytes(o) / pp as real
    ensures WeightBytes(Micro(o, pp)) == WeightBytes(o)
  {}

  lemma TransferScales(bytes: real, bandwidth: real, q: real)
    requires bandwidth > 0.0 && q > 0.0
    ensures TransferNs(bytes / q, bandwidth) == TransferNs(bytes, bandwidth) / q
  {}

  lemma MfuMonotone(s: SystemConfig, m0: real, m1: real)
    requires ValidHardware(s) && 0.0 < m0 <= m1
    ensures EffectiveMfu(s, m0) <= EffectiveMfu(s, m1)
  {
    var h := s.mfuHalf;
    if h > 0.0 {
      var a, b := EffectiveMfu(s, m0), EffectiveMfu(s, m1);
      assert a * (m0 + h) == s.mfuMax * m0 && b * (m1 + h) == s.mfuMax * m1;
      Saturation(s.mfuMax, m0, m1, h);
    }
  }

  lemma Saturation(c: real, m0: real, m1: real, h: real)
    requires 0.0 < c && 0.0 < m0 <= m1 && 0.0 < h
    ensures c * m0 / (m0 + h) <= c * m1 / (m1 + h)
  {
    // c * m / (m + h) == c - c * h / (m + h)
    RDivAnti(c * h, m0 + h, m1 + h);
    Complement(c, m0, h);
    Complement(c, m1, h);
  }

  lemma Complement(c: real, m: real, h: real)
    requires m + h > 0.0
    ensures c * m / (m + h) == c - c * h / (m + h)
  {}

  lemma SlowerUnit(f: real, lo: real, hi: real)
    requires 0.0 <= f && 0.0 < lo <= hi
    ensures TransferNs(f, hi) <= TransferNs(f, lo)
  {}

  /** A microbatch needs at least its share of the compute time, and exactly that when utilization
      does not depend on the batch. */
  lemma ComputeScales(s: SystemConfig, u: Unit, o: Op, pp: int)
    requires ValidHardware(s) && ValidUnit(u) && ValidOp(o) && !Empty(o) && pp >= 1
    ensures ComputeNs(s, u, o) / pp as real <= ComputeNs(s, u, Micro(o, pp))
    ensures s.mfuHalf <= 0.0 ==> ComputeNs(s, u, o) / pp as real == ComputeNs(s, u, Micro(o, pp))
  {
    TokensScale(o, pp);
    var q := pp as real;
    var x := o.m / q;
    assert x * q == o.m && x > 0.0;
    ShrinkBelow(o.m, o.m, q);
    MfuMonotone(s, x, o.m);
    MfuPositive(s, x);
    FlopsNonNegative(o);
    TransferScales(Flops(o), Rate(s, u, o), q);
    RateMonotone(s, u, o, x);
    SlowerUnit(Flops(o) / q, Rate(s, u, Micro(o, pp)), Rate(s, u, o));
  }

  lemma RateMonotone(s: SystemConfig, u: Unit, o: Op, x: real)
    requires ValidHardware(s) && ValidUnit(u) && 0.0 < x <= o.m
    ensures Rate(s, u, WithTokens(o, x)) <= Rate(s, u, o)
    ensures s.mfuHalf <= 0.0 ==> Rate(s, u, WithTokens(o, x)) == Rate(s, u, o)
  {
    MfuMonotone(s, x, o.m);
    var p, e0, e1 := Peak(u, o), EffectiveMfu(s, x), EffectiveMfu(s, o.m);
    var i := WithTokens(o, x);
    assert Peak(u, i) == p && i.m == x;
    assert Rate(s, u, i) == p * e0;
    assert Rate(s, u, o) == p * e1;
    RMulMono(e0, e1, p);
    assert p * e0 == e0 * p && p * e1 == e1 * p;
  }

  lemma FlopsNonNegative(o: Op)
    requires ValidOp(o)
    ensures Flops(o) >= 0.0 && TokenBytes(o) >= 0.0 && WeightBytes(o) >= 0.0
  {}

  // ---- One op under the reconstruction -----------------------------------------------------------

  /** Limited by compute or by token traffic at the full batch, but by the weights at the microbatch. */
  predicate TurnsWeightLimited(s: SystemConfig, u: Unit, o: Op, pp: int)
    requires ValidHardware(s) && ValidUnit(u) && pp >= 1
  {
    o.Linear? &&
    if ComputeNs(s, u, o) > MemoryNs(s, u, o)
    then MemoryNs(s, u, Micro(o, pp)) > ComputeNs(s, u, Micro(o, pp))
    else HasScarceTier(s) && TokenNs(s, o) >= WeightReadNs(s, o) && WeightReadNs(s, o) > TokenNs(s, Micro(o, pp))
  }

  lemma ColdKeepsNothing(t: real, tag: real, pp: int)
    requires pp > 1 && t >= 0.0 && (t == 0.0 ==> tag == 0.0)
    ensures Kept(Tagged(t, tag, true, pp), pp) == 0.0
  {}

  /** The split by byte fraction is exact: what is kept of the memory time is the microbatch's. */
  lemma ByteSplitKeeps(token: real, weight: real, bandwidth: real, pp: int)
    requires token >= 0.0 && weight >= 0.0 && token + weight > 0.0 && bandwidth > 0.0 && pp >= 1
    ensures var mem := TransferNs(token + weight, bandwidth);
      Kept(Status(mem, mem * (token / (token + weight))), pp) == TransferNs(token / pp as real + weight, bandwidth)
  {}

  lemma HasTokens(o: Op)
    requires ValidOp(o) && o.Linear? && !Empty(o)
    ensures TokenBytes(o) > 0.0
  {}

  lemma ShareOfSum(token: real, weight: real, q: real)
    requires weight >= 0.0 && q >= 1.0
    ensures (token + weight) / q <= token / q + weight
  {}

  lemma HbmOpKeeps(s: SystemConfig, u: Unit, o: Op, pp: int)
    requires ValidHardware(s) && ValidUnit(u) && ValidOp(o) && pp >= 1 && o.Linear? && !Empty(o)
    requires !HasScarceTier(s)
    ensures ComputeNs(s, u, o) <= MemoryNs(s, u, o) ==>
      && Kept(Execute(s, u, o, false, pp), pp) == MemoryNs(s, u, Micro(o, pp))
      && ComputeNs(s, u, o) / pp as real <= MemoryNs(s, u, Micro(o, pp))
  {
    if ComputeNs(s, u, o) > MemoryNs(s, u, o) { return; }
    var q := pp as real;
    TokensScale(o, pp);
    FlopsNonNegative(o);
    var token, weight := TokenBytes(o), WeightBytes(o);
    HasTokens(o);
    ByteSplitKeeps(token, weight, u.bandwidth, pp);
    RDivMono(ComputeNs(s, u, o), MemoryNs(s, u, o), q);
    TransferScales(token + weight, u.bandwidth, q);
    ShareOfSum(token, weight, q);
    TransferMono((token + weight) / q, token / q + weight, u.bandwidth);
  }

  /** Compute-bound, or an activation: what is kept is an exact share. */
  lemma ShareKept(s: SystemConfig, u: Unit, o: Op, pp: int)
    requires ValidHardware(s) && ValidUnit(u) && ValidOp(o) && pp >= 1 && !Empty(o)
    requires o.Activation? || ComputeNs(s, u, o) > MemoryNs(s, u, o)
    ensures Kept(Execute(s, u, o, false, pp), pp) == RooflineNs(s, u, o) / pp as real
  {
    FullyDependentKeeps(RooflineNs(s, u, o), pp);
  }

  lemma ActivationKept(s: SystemConfig, u: Unit, o: Op, pp: int)
    requires ValidHardware(s) && ValidUnit(u) && ValidOp(o) && pp >= 1 && !Empty(o) && o.Activation?
    ensures RooflineNs(s, u, o) / pp as real <= RooflineNs(s, u, Micro(o, pp))
    ensures s.mfuHalf <= 0.0 ==> RooflineNs(s, u, o) / pp as real == RooflineNs(s, u, Micro(o, pp))
  {
    var q := pp as real;
    TokensScale(o, pp);
    ComputeScales(s, u, o, pp);
    TransferScales(TokenBytes(o), ActBandwidth(s.hbf), q);
    TransferScales(TokenBytes(o), u.bandwidth, q);
    RDivMono(ComputeNs(s, u, o), RooflineNs(s, u, o), q);
    RDivMono(MemoryNs(s, u, o), RooflineNs(s, u, o), q);
  }

  lemma FlashOpKeeps(s: SystemConfig, u: Unit, o: Op, pp: int)
    requires ValidHardware(s) && ValidUnit(u) && ValidOp(o) && pp >= 1 && o.Linear? && !Empty(o)
    requires HasScarceTier(s)
    ensures ComputeNs(s, u, o) <= MemoryNs(s, u, o) ==>
      var kept := Kept(Execute(s, u, o, false, pp), pp);
      && kept == (if TokenNs(s, o) >= WeightReadNs(s, o) then TokenNs(s, Micro(o, pp)) else WeightReadNs(s, o))
      && ComputeNs(s, u, o) / pp as real <= kept
      && (TokenNs(s, o) < WeightReadNs(s, o) ==> TokenNs(s, Micro(o, pp)) <= WeightReadNs(s, o))
    ensures WeightReadNs(s, Micro(o, pp)) == WeightReadNs(s, o)
  {
    TokensScale(o, pp);
    if ComputeNs(s, u, o) > MemoryNs(s, u, o) { return; }
    var q, mem := pp as real, MemoryNs(s, u, o);
    FlopsNonNegative(o);
    TransferScales(TokenBytes(o), ActBandwidth(s.hbf), q);
    TransferMono(0.0, TokenBytes(o), ActBandwidth(s.hbf));
    RDivMono(ComputeNs(s, u, o), mem, q);
    FullyDependentKeeps(mem, pp);
    if TokenNs(s, o) < mem {
      ShrinkBelow(ComputeNs(s, u, o), mem, q);
      ShrinkBelow(TokenNs(s, o), mem, q);
      assert 0.0 * (pp - 1) as real / q == 0.0;
    }
  }

  /** A warm op keeps at most its microbatch time. At batch-independent utilization it keeps exactly
      that unless it turns weight-limited. */
  lemma WarmOpBound(s: SystemConfig, u: Unit, o: Op, pp: int)
    requires ValidHardware(s) && ValidUnit(u) && ValidOp(o) && pp >= 1
    ensures Kept(Execute(s, u, o, false, pp), pp) <= Execute(s, u, Micro(o, pp), false, pp).total
    ensures s.mfuHalf <= 0.0 && !Empty(o) ==>
      (Kept(Execute(s, u, o, false, pp), pp) == Execute(s, u, Micro(o, pp), false, pp).total <==>
       !TurnsWeightLimited(s, u, o, pp))
  {
    EmptyScales(o, pp);
    if Empty(o) {
      assert 0.0 * (pp - 1) as real / pp as real == 0.0;
    } else {
      ComputeScales(s, u, o, pp);
      if o.Activation? {
        ShareKept(s, u, o, pp);
        ActivationKept(s, u, o, pp);
      } else if ComputeNs(s, u, o) > MemoryNs(s, u, o) {
        ShareKept(s, u, o, pp);
      } else if HasScarceTier(s) {
        FlashOpKeeps(s, u, o, pp);
      } else {
        HbmOpKeeps(s, u, o, pp);
      }
    }
  }

  lemma EmptyScales(o: Op, pp: int)
    requires pp >= 1
    ensures Empty(Micro(o, pp)) <==> Empty(o)
  {}

  lemma ShrinkBelow(x: real, y: real, q: real)
    requires x <= y && 0.0 <= y && q >= 1.0
    ensures x / q <= y
  {}
}
