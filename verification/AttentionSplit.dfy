/** One decode attention call over a whole batch, against one call for each of its microbatches. The call is
    tagged as batch-dependent throughout, so the reconstruction charges the whole call's time divided by pp. */
module AttentionSplit {
  import opened Arith
  import opened Hardware
  import opened FlashTiming
  import opened AttentionKernel
  import OpTiming

  /** get_gen_process_token. */
  function Tokens(qs: seq<Sequence>): nat {
    if qs == [] then 0 else Tokens(qs[..|qs| - 1]) + qs[|qs| - 1].tokens
  }

  /** The kernel's time for these sequences. */
  function GenNs(s: SystemConfig, l: Layer, qs: seq<Sequence>): real
    requires ValidHardware(s) && ValidLayer(l)
  {
    AttentionNs(s, l, qs, Tokens(qs) as real)
  }

  /** The batch that these microbatches make up. */
  function Joined(parts: seq<seq<Sequence>>): seq<Sequence> {
    if parts == [] then [] else Joined(parts[..|parts| - 1]) + parts[|parts| - 1]
  }

  /** A microbatch that has sequences processes a token. */
  predicate ValidParts(parts: seq<seq<Sequence>>) {
    forall i :: 0 <= i < |parts| ==> parts[i] == [] || Tokens(parts[i]) >= 1
  }

  /** One call per microbatch. */
  function GenTimes(s: SystemConfig, l: Layer, parts: seq<seq<Sequence>>): (xs: seq<real>)
    requires ValidHardware(s) && ValidLayer(l)
    ensures |xs| == |parts|
  {
    seq(|parts|, i requires 0 <= i < |parts| => GenNs(s, l, parts[i]))
  }

  function SumNs(xs: seq<real>): real {
    if xs == [] then 0.0 else SumNs(xs[..|xs| - 1]) + xs[|xs| - 1]
  }

  // ---- What a call is made of --------------------------------------------------------------------

  /** The two streams of one phase's memory time: activations and flash KV, resident and offloaded KV, or
      plain memory alone. */
  function FirstNs(s: SystemConfig, l: Layer, x: Load): real
    requires ValidHardware(s)
  {
    if HasScarceTier(s) then ActNs(s, x.act)
    else if CpuKvOffloadActive(s)
    then TransferNs(x.kv * (1.0 - l.offloadFraction) + x.act, s.memoryBandwidth)
    else x.plain
  }

  function SecondNs(s: SystemConfig, l: Layer, x: Load): real
    requires ValidHardware(s)
  {
    if HasScarceTier(s) then KvReadNs(s, x.kv, l.chunked, l.chunkOverride, 2)
    else if CpuKvOffloadActive(s) then TransferNs(x.kv * l.offloadFraction, s.c2cBandwidth)
    else 0.0
  }

  /** The two streams run at the same time. */
  predicate Overlaps(s: SystemConfig) {
    HasScarceTier(s) || (CpuKvOffloadActive(s) && s.c2cMaxComposition)
  }

  function Composed(s: SystemConfig, first: real, second: real): real {
    if Overlaps(s) then Max(first, second) else first + second
  }

  lemma StreamsCompose(s: SystemConfig, l: Layer, x: Load)
    requires ValidHardware(s)
    ensures PhaseMemoryNs(s, l, x) == Composed(s, FirstNs(s, l, x), SecondNs(s, l, x))
  {}

  /** The parts of a call's time: per phase its compute and memory, then softmax, the KV write, and the compute
      that hides it. */
  datatype Tally = Tally(compute: real, first: real, second: real, memory: real, soft: real, hiding: real, write: real)

  const NOTHING := Tally(0.0, 0.0, 0.0, 0.0, 0.0, 0.0, 0.0)

  function TallyOf(s: SystemConfig, l: Layer, qs: seq<Sequence>, batch: real): Tally
    requires ValidHardware(s) && ValidLayer(l)
  {
    if qs == [] then NOTHING else TallyFrom(s, l, Costs(s, l, qs, batch))
  }

  function TallyFrom(s: SystemConfig, l: Layer, cs: seq<Cost>): Tally
    requires ValidHardware(s)
  {
    var x := LoadOf(cs);
    Tally(x.compute, FirstNs(s, l, x), SecondNs(s, l, x), PhaseMemoryNs(s, l, x), SoftmaxNs(s, cs).0,
          2.0 * x.compute + SoftmaxNs(s, cs).1, KvWriteNs(s, l, |cs|))
  }

  function Compute(t: Tally): real { t.compute }
  function First(t: Tally): real { t.first }
  function Second(t: Tally): real { t.second }
  function Memory(t: Tally): real { t.memory }
  function Soft(t: Tally): real { t.soft }
  function Hiding(t: Tally): real { t.hiding }
  function Write(t: Tally): real { t.write }
  function PhaseTime(t: Tally): real { Max(t.compute, t.memory) }
  function WriteTime(t: Tally): real { Max(t.hiding, t.write) }
  function Total(t: Tally): real { 2.0 * PhaseTime(t) + t.soft + (WriteTime(t) - t.hiding) }

  lemma ProductsNonNegative(a: nat, b: nat, c: nat, d: nat, e: nat)
    ensures a * b * c * d * e >= 0
  {}

  lemma RateNonNegative(x: real, r: real)
    requires x >= 0.0 && r > 0.0
    ensures TransferNs(x, r) >= 0.0
  {}

  lemma CostSigns(s: SystemConfig, l: Layer, q: Sequence, batch: real)
    requires ValidHardware(s) && ValidLayer(l)
    ensures var c := CostOf(s, l, q, batch); c.compute >= 0.0 && c.softCompute >= 0.0 && c.kv >= 0.0
  {
    ProductsNonNegative(q.tokens, l.headDim, Positions(l, q), 2, l.groupSize);
    ProductsNonNegative(7, q.tokens, Positions(l, q), l.numHeads, 1);
    CostNonNegative(s, l, q, batch);
    RateNonNegative((q.tokens * l.headDim * Positions(l, q) * 2 * l.groupSize) as real, Rate(s, batch));
    RateNonNegative((7 * q.tokens * Positions(l, q) * l.numHeads) as real, Rate(s, batch));
    RMulMono(0.0, PairNs(s, l, q, batch), l.numKvHeads as real);
  }

  lemma {:induction false} SumSigns(s: SystemConfig, cs: seq<Cost>)
    requires forall i :: 0 <= i < |cs| ==> cs[i].compute >= 0.0 && cs[i].softCompute >= 0.0 && cs[i].kv >= 0.0
    ensures LoadOf(cs).compute >= 0.0 && LoadOf(cs).kv >= 0.0 && SoftmaxNs(s, cs).1 >= 0.0
  {
    if cs != [] { SumSigns(s, cs[..|cs| - 1]); }
  }

  lemma TallySigns(s: SystemConfig, l: Layer, qs: seq<Sequence>, batch: real)
    requires ValidHardware(s) && ValidLayer(l)
    ensures TallyOf(s, l, qs, batch).compute >= 0.0 && TallyOf(s, l, qs, batch).hiding >= 0.0
    ensures LoadOf(Costs(s, l, qs, batch)).kv >= 0.0
  {
    var cs := Costs(s, l, qs, batch);
    forall i | 0 <= i < |cs| ensures cs[i].compute >= 0.0 && cs[i].softCompute >= 0.0 && cs[i].kv >= 0.0 {
      CostSigns(s, l, qs[i], batch);
    }
    SumSigns(s, cs);
  }

  lemma CallIsTotal(s: SystemConfig, l: Layer, qs: seq<Sequence>, batch: real)
    requires ValidHardware(s) && ValidLayer(l) && batch > 0.0
    ensures qs != [] ==> AttentionNs(s, l, qs, batch) == Total(TallyOf(s, l, qs, batch))
  {
    TallySigns(s, l, qs, batch);
  }

  // ---- Sums of maxima ----------------------------------------------------------------------------

  function Sum(ts: seq<Tally>, f: Tally -> real): real {
    if ts == [] then 0.0 else Sum(ts[..|ts| - 1], f) + f(ts[|ts| - 1])
  }

  lemma {:induction false} SumMono(ts: seq<Tally>, f: Tally -> real, g: Tally -> real)
    requires forall i :: 0 <= i < |ts| ==> f(ts[i]) <= g(ts[i])
    ensures Sum(ts, f) <= Sum(ts, g)
    ensures Sum(ts, f) == Sum(ts, g) <==> forall i :: 0 <= i < |ts| ==> f(ts[i]) == g(ts[i])
  {
    if ts != [] {
      var n := |ts| - 1;
      SumMono(ts[..n], f, g);
      assert forall i :: 0 <= i < n ==> ts[..n][i] == ts[i];
    }
  }

  /** The larger of two sums, the second possibly less than its terms add up to, is at most the sum of the
      larger terms. It is equal exactly when one side is the larger throughout and is not less than its terms
      add up to. */
  lemma OneSided(ts: seq<Tally>, a: Tally -> real, b: Tally -> real, m: Tally -> real, wholeA: real, wholeB: real)
    requires forall i :: 0 <= i < |ts| ==> m(ts[i]) == Max(a(ts[i]), b(ts[i]))
    requires wholeA <= Sum(ts, a) && wholeB <= Sum(ts, b)
    ensures Max(wholeA, wholeB) <= Sum(ts, m)
    ensures wholeA == Sum(ts, a) ==>
      (Max(wholeA, wholeB) == Sum(ts, m) <==>
        || (forall i :: 0 <= i < |ts| ==> b(ts[i]) <= a(ts[i]))
        || (wholeB == Sum(ts, b) && forall i :: 0 <= i < |ts| ==> a(ts[i]) <= b(ts[i])))
  {
    SumMono(ts, a, m);
    SumMono(ts, b, m);
  }

  // ---- Joining two batches -----------------------------------------------------------------------

  /** On flash, a chunk's residual is within the half fill that each phase is charged. */
  predicate FillCoversResidual(s: SystemConfig, l: Layer)
    requires ValidHardware(s)
  {
    HasScarceTier(s) ==> ResidualWithinFill(s, l.chunked, l.chunkOverride, 2)
  }

  lemma {:induction false} SumsAppend(s: SystemConfig, cs: seq<Cost>, ds: seq<Cost>)
    ensures var x, y, z := LoadOf(cs), LoadOf(ds), LoadOf(cs + ds);
      z == Load(x.compute + y.compute, x.kv + y.kv, x.act + y.act, x.plain + y.plain)
    ensures var x, y := SoftmaxNs(s, cs), SoftmaxNs(s, ds);
      SoftmaxNs(s, cs + ds) == (x.0 + y.0, x.1 + y.1)
  {
    if ds == [] {
      assert cs + ds == cs;
    } else {
      var n := |ds| - 1;
      SumsAppend(s, cs, ds[..n]);
      assert (cs + ds)[..|cs + ds| - 1] == cs + ds[..n];
    }
  }

  lemma FlashReadsJoin(s: SystemConfig, l: Layer, a: real, b: real)
    requires ValidHardware(s) && HasScarceTier(s) && FillCoversResidual(s, l) && a >= 0.0 && b >= 0.0
    ensures KvReadNs(s, a + b, l.chunked, l.chunkOverride, 2)
         <= KvReadNs(s, a, l.chunked, l.chunkOverride, 2) + KvReadNs(s, b, l.chunked, l.chunkOverride, 2)
  {
    StreamSubadditive(a, b, KvChunkBytes(s, l.chunked, l.chunkOverride), s.hbf.flashReadBandwidth,
                      s.hbf.flashPageReadNs, 2, s.paper2Mode);
  }

  lemma FirstJoins(s: SystemConfig, l: Layer, x: Load, y: Load, z: Load)
    requires ValidHardware(s) && z.kv == x.kv + y.kv && z.act == x.act + y.act && z.plain == x.plain + y.plain
    ensures FirstNs(s, l, z) == FirstNs(s, l, x) + FirstNs(s, l, y)
  {
    if HasScarceTier(s) {
      TransferAdds(x.act, y.act, ActBandwidth(s.hbf));
    } else {
      SharesAdd(x.kv, y.kv, 1.0 - l.offloadFraction, x.act, y.act, s.memoryBandwidth);
    }
  }

  lemma SecondJoins(s: SystemConfig, l: Layer, x: Load, y: Load, z: Load)
    requires ValidHardware(s) && FillCoversResidual(s, l) && x.kv >= 0.0 && y.kv >= 0.0 && z.kv == x.kv + y.kv
    ensures SecondNs(s, l, z) <= SecondNs(s, l, x) + SecondNs(s, l, y)
  {
    if HasScarceTier(s) {
      FlashReadsJoin(s, l, x.kv, y.kv);
    } else {
      SharesAdd(x.kv, y.kv, l.offloadFraction, 0.0, 0.0, s.c2cBandwidth);
    }
  }

  lemma SharesAdd(x: real, y: real, f: real, a: real, b: real, bandwidth: real)
    requires bandwidth > 0.0
    ensures TransferNs((x + y) * f + (a + b), bandwidth)
         == TransferNs(x * f + a, bandwidth) + TransferNs(y * f + b, bandwidth)
  {}

  /** The KV write of one call: bytes for each sequence, and one program latency for the call. */
  lemma WriteIsAffine(s: SystemConfig, l: Layer, n: nat)
    requires ValidHardware(s) && HasScarceTier(s)
    ensures KvWriteNs(s, l, n)
         == n as real * WriteSlope(s, l) + s.hbf.flashPageProgramNs / AtLeastOne(l.layersPerStage) as real
  {}

  function OutputLen(l: Layer): (n: nat)
    ensures n >= 1
  {
    if l.outputLen > 0 then l.outputLen else 1
  }

  function WriteLen(l: Layer): nat { if l.window > 0 && l.window < l.inputLen then l.window else l.inputLen }

  function WriteSlope(s: SystemConfig, l: Layer): real
    requires ValidHardware(s)
  {
    TransferNs(1.0 / OutputLen(l) as real * l.numKvHeads as real * (2.0 * l.headDim as real) * WriteLen(l) as real
               * l.precision as real, s.hbf.flashWriteBandwidth)
  }

  lemma SlopeOf(n: real, out: real, h: real, d: real, len: real, p: real, bandwidth: real)
    requires out > 0.0 && bandwidth > 0.0
    ensures TransferNs(n / out * h * d * len * p, bandwidth) == n * TransferNs(1.0 / out * h * d * len * p, bandwidth)
  {}

  lemma ScaleTransfer(n: real, x: real, bandwidth: real)
    requires bandwidth > 0.0
    ensures TransferNs(n * x, bandwidth) == n * TransferNs(x, bandwidth)
  {}

  lemma WritesJoin(s: SystemConfig, l: Layer, n: nat, m: nat)
    requires ValidHardware(s)
    ensures KvWriteNs(s, l, n + m) <= KvWriteNs(s, l, n) + KvWriteNs(s, l, m)
    ensures HasScarceTier(s) ==>
      KvWriteNs(s, l, n + m)
        == KvWriteNs(s, l, n) + KvWriteNs(s, l, m) - s.hbf.flashPageProgramNs / AtLeastOne(l.layersPerStage) as real
  {
    if HasScarceTier(s) {
      WriteIsAffine(s, l, n); WriteIsAffine(s, l, m); WriteIsAffine(s, l, n + m);
      var k := WriteSlope(s, l);
      assert (n + m) as real * k == n as real * k + m as real * k;
      RDivMono(0.0, s.hbf.flashPageProgramNs, AtLeastOne(l.layersPerStage) as real);
    }
  }

  predicate Joins(w: Tally, a: Tally, b: Tally) {
    && w.compute == a.compute + b.compute && w.first == a.first + b.first
    && w.soft == a.soft + b.soft && w.hiding == a.hiding + b.hiding
    && w.second <= a.second + b.second && w.write <= a.write + b.write
  }

  lemma CostsJoin(s: SystemConfig, l: Layer, cs: seq<Cost>, ds: seq<Cost>)
    requires ValidHardware(s) && FillCoversResidual(s, l) && LoadOf(cs).kv >= 0.0 && LoadOf(ds).kv >= 0.0
    ensures Joins(TallyFrom(s, l, cs + ds), TallyFrom(s, l, cs), TallyFrom(s, l, ds))
  {
    SumsAppend(s, cs, ds);
    WritesJoin(s, l, |cs|, |ds|);
    FirstJoins(s, l, LoadOf(cs), LoadOf(ds), LoadOf(cs + ds));
    SecondJoins(s, l, LoadOf(cs), LoadOf(ds), LoadOf(cs + ds));
  }

  lemma TalliesJoin(s: SystemConfig, l: Layer, p: seq<Sequence>, q: seq<Sequence>, batch: real)
    requires ValidHardware(s) && ValidLayer(l) && FillCoversResidual(s, l)
    ensures Joins(TallyOf(s, l, p + q, batch), TallyOf(s, l, p, batch), TallyOf(s, l, q, batch))
  {
    if p == [] {
      assert p + q == q;
    } else if q == [] {
      assert p + q == p;
    } else {
      var cs, ds := Costs(s, l, p, batch), Costs(s, l, q, batch);
      assert Costs(s, l, p + q, batch) == cs + ds;
      TallySigns(s, l, p, batch);
      TallySigns(s, l, q, batch);
      CostsJoin(s, l, cs, ds);
    }
  }

  /** The microbatches' tallies, at the whole batch's utilization or each at its own. */
  function TalliesAt(s: SystemConfig, l: Layer, parts: seq<seq<Sequence>>, batch: real): (ts: seq<Tally>)
    requires ValidHardware(s) && ValidLayer(l)
    ensures |ts| == |parts|
  {
    seq(|parts|, i requires 0 <= i < |parts| => TallyOf(s, l, parts[i], batch))
  }

  function Tallies(s: SystemConfig, l: Layer, parts: seq<seq<Sequence>>): (ts: seq<Tally>)
    requires ValidHardware(s) && ValidLayer(l)
    ensures |ts| == |parts|
  {
    seq(|parts|, i requires 0 <= i < |parts| => TallyOf(s, l, parts[i], Tokens(parts[i]) as real))
  }

  /** w is what the tallies add up to, up to what one flash read and one KV write save. */
  predicate AddsUpTo(w: Tally, ts: seq<Tally>) {
    && w.compute == Sum(ts, Compute) && w.first == Sum(ts, First)
    && w.soft == Sum(ts, Soft) && w.hiding == Sum(ts, Hiding)
    && w.second <= Sum(ts, Second) && w.write <= Sum(ts, Write)
  }

  lemma {:induction false} ChainAddsUp(ws: seq<Tally>, ts: seq<Tally>)
    requires |ws| == |ts| + 1 && ws[0] == NOTHING
    requires forall i :: 0 <= i < |ts| ==> Joins(ws[i + 1], ws[i], ts[i])
    ensures AddsUpTo(ws[|ts|], ts)
  {
    if ts != [] {
      var n := |ts| - 1;
      ChainAddsUp(ws[..n + 1], ts[..n]);
      assert Joins(ws[n + 1], ws[n], ts[n]);
    }
  }

  /** The whole batch's tally against its microbatches', all at the utilization of the whole batch. */
  lemma WholeAddsUp(s: SystemConfig, l: Layer, parts: seq<seq<Sequence>>, batch: real)
    requires ValidHardware(s) && ValidLayer(l) && FillCoversResidual(s, l)
    ensures AddsUpTo(TallyOf(s, l, Joined(parts), batch), TalliesAt(s, l, parts, batch))
  {
    var ts := TalliesAt(s, l, parts, batch);
    var ws := seq(|parts| + 1, i requires 0 <= i <= |parts| => TallyOf(s, l, Joined(parts[..i]), batch));
    forall i | 0 <= i < |parts| ensures Joins(ws[i + 1], ws[i], ts[i]) {
      assert parts[..i + 1][..i] == parts[..i];
      assert Joined(parts[..i + 1]) == Joined(parts[..i]) + parts[i];
      TalliesJoin(s, l, Joined(parts[..i]), parts[i], batch);
    }
    assert parts[..|parts|] == parts;
    ChainAddsUp(ws, ts);
  }

  // ---- Utilization of the whole batch and of a microbatch ------------------------------------------

  /** The same traffic as d, and no more compute. */
  predicate NoSlower(c: Cost, d: Cost) {
    c.compute <= d.compute && c.softCompute <= d.softCompute &&
    c.kv == d.kv && c.act == d.act && c.plain == d.plain && c.softMemory == d.softMemory
  }

  lemma RateRises(s: SystemConfig, m0: real, m1: real)
    requires ValidHardware(s) && 0.0 < m0 <= m1
    ensures Rate(s, m0) <= Rate(s, m1)
    ensures s.mfuHalf <= 0.0 ==> Rate(s, m0) == Rate(s, m1)
  {
    OpTiming.MfuMonotone(s, m0, m1);
    RMulMono(EffectiveMfu(s, m0), EffectiveMfu(s, m1), s.computePeakFlops);
  }

  lemma CostFalls(s: SystemConfig, l: Layer, q: Sequence, m0: real, m1: real)
    requires ValidHardware(s) && ValidLayer(l) && 0.0 < m0 <= m1
    ensures NoSlower(CostOf(s, l, q, m1), CostOf(s, l, q, m0))
    ensures s.mfuHalf <= 0.0 ==> CostOf(s, l, q, m1) == CostOf(s, l, q, m0)
  {
    RateRises(s, m0, m1);
    ProductsNonNegative(q.tokens, l.headDim, Positions(l, q), 2, l.groupSize);
    ProductsNonNegative(7, q.tokens, Positions(l, q), l.numHeads, 1);
    OpTiming.SlowerUnit((q.tokens * l.headDim * Positions(l, q) * 2 * l.groupSize) as real, Rate(s, m0), Rate(s, m1));
    OpTiming.SlowerUnit((7 * q.tokens * Positions(l, q) * l.numHeads) as real, Rate(s, m0), Rate(s, m1));
    TimesMono(l.numKvHeads, PairNs(s, l, q, m1), PairNs(s, l, q, m0));
  }

  lemma {:induction false} SumsFall(s: SystemConfig, cs: seq<Cost>, ds: seq<Cost>)
    requires |cs| == |ds| && forall i :: 0 <= i < |cs| ==> NoSlower(cs[i], ds[i])
    ensures var x, y := LoadOf(cs), LoadOf(ds);
      x.compute <= y.compute && x.kv == y.kv && x.act == y.act && x.plain == y.plain
    ensures SoftmaxNs(s, cs).0 <= SoftmaxNs(s, ds).0
  {
    if cs != [] {
      var n := |cs| - 1;
      SumsFall(s, cs[..n], ds[..n]);
      assert NoSlower(cs[n], ds[n]);
    }
  }

  /** A larger batch computes no slower, and moves the same bytes. */
  predicate Eases(t: Tally, u: Tally) {
    t.compute <= u.compute && t.soft <= u.soft &&
    t.first == u.first && t.second == u.second && t.memory == u.memory && t.write == u.write
  }

  lemma MemoryIgnoresCompute(s: SystemConfig, l: Layer, x: Load, y: Load)
    requires ValidHardware(s) && x.kv == y.kv && x.act == y.act && x.plain == y.plain
    ensures FirstNs(s, l, x) == FirstNs(s, l, y) && SecondNs(s, l, x) == SecondNs(s, l, y)
    ensures PhaseMemoryNs(s, l, x) == PhaseMemoryNs(s, l, y)
  {}

  lemma CostsFall(s: SystemConfig, l: Layer, cs: seq<Cost>, ds: seq<Cost>)
    requires ValidHardware(s) && |cs| == |ds| && forall i :: 0 <= i < |cs| ==> NoSlower(cs[i], ds[i])
    ensures Eases(TallyFrom(s, l, cs), TallyFrom(s, l, ds))
  {
    SumsFall(s, cs, ds);
    MemoryIgnoresCompute(s, l, LoadOf(cs), LoadOf(ds));
  }

  lemma TallyFalls(s: SystemConfig, l: Layer, qs: seq<Sequence>, m0: real, m1: real)
    requires ValidHardware(s) && ValidLayer(l) && 0.0 < m0 <= m1
    ensures Eases(TallyOf(s, l, qs, m1), TallyOf(s, l, qs, m0))
    ensures s.mfuHalf <= 0.0 ==> TallyOf(s, l, qs, m1) == TallyOf(s, l, qs, m0)
  {
    var cs, ds := Costs(s, l, qs, m1), Costs(s, l, qs, m0);
    forall i | 0 <= i < |qs|
      ensures NoSlower(cs[i], ds[i]) && (s.mfuHalf <= 0.0 ==> cs[i] == ds[i])
    {
      CostFalls(s, l, qs[i], m0, m1);
    }
    CostsFall(s, l, cs, ds);
    assert s.mfuHalf <= 0.0 ==> cs == ds;
  }

  // ---- The whole call against its microbatches -----------------------------------------------------

  ghost predicate Consistent(s: SystemConfig, t: Tally) { t.memory == Composed(s, t.first, t.second) }

  /** One memory stream is the longer one in every microbatch, and it is not shortened by being read at once. */
  predicate MemoryAddsUp(s: SystemConfig, w: Tally, ts: seq<Tally>) {
    if Overlaps(s)
    then (forall i :: 0 <= i < |ts| ==> Second(ts[i]) <= First(ts[i]))
      || (w.second == Sum(ts, Second) && forall i :: 0 <= i < |ts| ==> First(ts[i]) <= Second(ts[i]))
    else w.second == Sum(ts, Second)
  }

  /** Compute limits the phases of every microbatch, or memory does and adds up. */
  predicate PhasesAddUp(s: SystemConfig, w: Tally, ts: seq<Tally>) {
    || (forall i :: 0 <= i < |ts| ==> Memory(ts[i]) <= Compute(ts[i]))
    || (MemoryAddsUp(s, w, ts) && forall i :: 0 <= i < |ts| ==> Compute(ts[i]) <= Memory(ts[i]))
  }

  /** Every microbatch hides its KV write, or none does and the writes add up. */
  predicate WritesAddUp(w: Tally, ts: seq<Tally>) {
    || (forall i :: 0 <= i < |ts| ==> Write(ts[i]) <= Hiding(ts[i]))
    || (w.write == Sum(ts, Write) && forall i :: 0 <= i < |ts| ==> Hiding(ts[i]) <= Write(ts[i]))
  }

  predicate AddsExactly(s: SystemConfig, w: Tally, ts: seq<Tally>) { PhasesAddUp(s, w, ts) && WritesAddUp(w, ts) }

  lemma {:induction false} SumOfTwo(ts: seq<Tally>, f: Tally -> real, g: Tally -> real, h: Tally -> real)
    requires forall i :: 0 <= i < |ts| ==> h(ts[i]) == f(ts[i]) + g(ts[i])
    ensures Sum(ts, h) == Sum(ts, f) + Sum(ts, g)
  {
    if ts != [] {
      var n := |ts| - 1;
      assert forall i :: 0 <= i < n ==> ts[..n][i] == ts[i];
      SumOfTwo(ts[..n], f, g, h);
    }
  }

  lemma {:induction false} SumOfTotals(ts: seq<Tally>)
    ensures Sum(ts, Total) == 2.0 * Sum(ts, PhaseTime) + Sum(ts, Soft) + (Sum(ts, WriteTime) - Sum(ts, Hiding))
  {
    if ts != [] { SumOfTotals(ts[..|ts| - 1]); }
  }

  lemma MemoryBound(s: SystemConfig, w: Tally, ts: seq<Tally>)
    requires AddsUpTo(w, ts) && Consistent(s, w) && forall i :: 0 <= i < |ts| ==> Consistent(s, ts[i])
    ensures w.memory <= Sum(ts, Memory)
    ensures w.memory == Sum(ts, Memory) <==> MemoryAddsUp(s, w, ts)
  {
    if Overlaps(s) {
      OneSided(ts, First, Second, Memory, w.first, w.second);
    } else {
      SumOfTwo(ts, First, Second, Memory);
    }
  }

  lemma TotalBound(s: SystemConfig, w: Tally, ts: seq<Tally>)
    requires AddsUpTo(w, ts) && Consistent(s, w) && forall i :: 0 <= i < |ts| ==> Consistent(s, ts[i])
    ensures Total(w) <= Sum(ts, Total)
    ensures Total(w) == Sum(ts, Total) <==> PhasesAddUp(s, w, ts) && WritesAddUp(w, ts)
  {
    MemoryBound(s, w, ts);
    OneSided(ts, Compute, Memory, PhaseTime, w.compute, w.memory);
    OneSided(ts, Hiding, Write, WriteTime, w.hiding, w.write);
    SumOfTotals(ts);
  }

  /** Without an unhidden write the bound holds even when the microbatches compute more slowly. */
  lemma ComparedBound(s: SystemConfig, w: Tally, us: seq<Tally>, ts: seq<Tally>, whole: real, sum: real,
                      exact: bool)
    requires AddsUpTo(w, us) && Consistent(s, w) && Compared(s, us, ts)
    requires s.mfuHalf <= 0.0 || w.write <= w.hiding
    requires whole == Total(w) && sum == Sum(ts, Total) && exact == AddsExactly(s, w, ts)
    ensures whole <= sum && (s.mfuHalf <= 0.0 ==> (whole == sum <==> exact))
  {
    if s.mfuHalf <= 0.0 {
      TotalBound(s, w, ts);
    } else {
      MemoryBound(s, w, us);
      OneSided(us, Compute, Memory, PhaseTime, w.compute, w.memory);
      SumEases(us, ts);
    }
  }

  lemma {:induction false} SumEases(us: seq<Tally>, ts: seq<Tally>)
    requires |us| == |ts| && forall i :: 0 <= i < |us| ==> Eases(us[i], ts[i])
    ensures 2.0 * Sum(us, PhaseTime) + Sum(us, Soft) <= Sum(ts, Total)
  {
    if us != [] {
      var n := |us| - 1;
      SumEases(us[..n], ts[..n]);
      assert Eases(us[n], ts[n]);
    }
  }

  lemma {:induction false} TokensAppend(p: seq<Sequence>, q: seq<Sequence>)
    ensures Tokens(p + q) == Tokens(p) + Tokens(q)
  {
    if q == [] {
      assert p + q == p;
    } else {
      TokensAppend(p, q[..|q| - 1]);
      assert (p + q)[..|p + q| - 1] == p + q[..|q| - 1];
    }
  }

  lemma {:induction false} PartFits(parts: seq<seq<Sequence>>, i: nat)
    requires i < |parts|
    ensures Tokens(parts[i]) <= Tokens(Joined(parts))
  {
    var n := |parts| - 1;
    TokensAppend(Joined(parts[..n]), parts[n]);
    if i < n { PartFits(parts[..n], i); }
  }

  lemma {:induction false} TokensOfJoined(parts: seq<seq<Sequence>>)
    requires ValidParts(parts)
    ensures Joined(parts) == [] || Tokens(Joined(parts)) >= 1
  {
    if parts != [] {
      var n := |parts| - 1;
      assert ValidParts(parts[..n]) by { assert forall i :: 0 <= i < n ==> parts[..n][i] == parts[i]; }
      TokensOfJoined(parts[..n]);
      TokensAppend(Joined(parts[..n]), parts[n]);
    }
  }

  lemma GenIsTotal(s: SystemConfig, l: Layer, qs: seq<Sequence>)
    requires ValidHardware(s) && ValidLayer(l) && (qs == [] || Tokens(qs) >= 1)
    ensures GenNs(s, l, qs) == Total(TallyOf(s, l, qs, Tokens(qs) as real))
  {
    if qs != [] { CallIsTotal(s, l, qs, Tokens(qs) as real); }
  }

  lemma {:induction false} SameSums(xs: seq<real>, ts: seq<Tally>)
    requires |xs| == |ts| && forall i :: 0 <= i < |xs| ==> xs[i] == Total(ts[i])
    ensures SumNs(xs) == Sum(ts, Total)
  {
    if xs != [] { SameSums(xs[..|xs| - 1], ts[..|xs| - 1]); }
  }

  lemma SumGenIsTotal(s: SystemConfig, l: Layer, parts: seq<seq<Sequence>>)
    requires ValidHardware(s) && ValidLayer(l) && ValidParts(parts)
    ensures SumNs(GenTimes(s, l, parts)) == Sum(Tallies(s, l, parts), Total)
  {
    var xs, ts := GenTimes(s, l, parts), Tallies(s, l, parts);
    forall i | 0 <= i < |xs| ensures xs[i] == Total(ts[i]) { GenIsTotal(s, l, parts[i]); }
    SameSums(xs, ts);
  }

  lemma TallyConsistent(s: SystemConfig, l: Layer, qs: seq<Sequence>, batch: real)
    requires ValidHardware(s) && ValidLayer(l)
    ensures Consistent(s, TallyOf(s, l, qs, batch))
  {
    if qs != [] { StreamsCompose(s, l, LoadOf(Costs(s, l, qs, batch))); }
  }

  /** A microbatch's tally at the whole batch's utilization, and at its own. */
  lemma PartTally(s: SystemConfig, l: Layer, qs: seq<Sequence>, batch: real)
    requires ValidHardware(s) && ValidLayer(l) && (qs == [] || 1.0 <= Tokens(qs) as real <= batch)
    ensures var u, t := TallyOf(s, l, qs, batch), TallyOf(s, l, qs, Tokens(qs) as real);
      Consistent(s, u) && Eases(u, t) && (s.mfuHalf <= 0.0 ==> u == t)
  {
    TallyConsistent(s, l, qs, batch);
    if qs != [] { TallyFalls(s, l, qs, Tokens(qs) as real, batch); }
  }

  /** us are the microbatches at the whole batch's utilization, ts at their own. */
  predicate Compared(s: SystemConfig, us: seq<Tally>, ts: seq<Tally>) {
    && |us| == |ts| && (s.mfuHalf <= 0.0 ==> us == ts)
    && forall i :: 0 <= i < |us| ==> us[i].memory == Composed(s, us[i].first, us[i].second) && Eases(us[i], ts[i])
  }

  lemma PartTallies(s: SystemConfig, l: Layer, parts: seq<seq<Sequence>>)
    requires ValidHardware(s) && ValidLayer(l) && ValidParts(parts)
    ensures Compared(s, TalliesAt(s, l, parts, Tokens(Joined(parts)) as real), Tallies(s, l, parts))
  {
    var batch := Tokens(Joined(parts)) as real;
    var us, ts := TalliesAt(s, l, parts, batch), Tallies(s, l, parts);
    forall i | 0 <= i < |us|
      ensures us[i].memory == Composed(s, us[i].first, us[i].second) && Eases(us[i], ts[i])
      ensures s.mfuHalf <= 0.0 ==> us[i] == ts[i]
    {
      PartFits(parts, i);
      PartTally(s, l, parts[i], batch);
    }
  }

  function WholeTally(s: SystemConfig, l: Layer, parts: seq<seq<Sequence>>): Tally
    requires ValidHardware(s) && ValidLayer(l)
  {
    TallyOf(s, l, Joined(parts), Tokens(Joined(parts)) as real)
  }

  /** The whole call takes exactly as long as its microbatches one by one. */
  predicate SplitsExactly(s: SystemConfig, l: Layer, parts: seq<seq<Sequence>>)
    requires ValidHardware(s) && ValidLayer(l)
  {
    AddsExactly(s, WholeTally(s, l, parts), Tallies(s, l, parts))
  }

  /** The compute of the whole call hides its KV write. */
  predicate WriteHidden(s: SystemConfig, l: Layer, parts: seq<seq<Sequence>>)
    requires ValidHardware(s) && ValidLayer(l)
  {
    var w := WholeTally(s, l, parts);
    w.write <= w.hiding
  }

  lemma ExactnessIsOfTallies(s: SystemConfig, l: Layer, parts: seq<seq<Sequence>>, w: Tally, ts: seq<Tally>)
    requires ValidHardware(s) && ValidLayer(l) && w == WholeTally(s, l, parts) && ts == Tallies(s, l, parts)
    ensures SplitsExactly(s, l, parts) == AddsExactly(s, w, ts)
  {}

  lemma TimesAreTotals(s: SystemConfig, l: Layer, parts: seq<seq<Sequence>>, w: Tally, ts: seq<Tally>)
    requires ValidHardware(s) && ValidLayer(l) && ValidParts(parts)
    requires w == WholeTally(s, l, parts) && ts == Tallies(s, l, parts)
    ensures GenNs(s, l, Joined(parts)) == Total(w) && SumNs(GenTimes(s, l, parts)) == Sum(ts, Total)
  {
    TokensOfJoined(parts);
    GenIsTotal(s, l, Joined(parts));
    SumGenIsTotal(s, l, parts);
  }

  lemma TalliesCompare(s: SystemConfig, l: Layer, parts: seq<seq<Sequence>>, w: Tally, us: seq<Tally>, ts: seq<Tally>)
    requires ValidHardware(s) && ValidLayer(l) && ValidParts(parts) && FillCoversResidual(s, l)
    requires w == WholeTally(s, l, parts) && ts == Tallies(s, l, parts)
    requires us == TalliesAt(s, l, parts, Tokens(Joined(parts)) as real)
    ensures AddsUpTo(w, us) && Consistent(s, w) && Compared(s, us, ts)
  {
    WholeAddsUp(s, l, parts, Tokens(Joined(parts)) as real);
    PartTallies(s, l, parts);
    TallyConsistent(s, l, Joined(parts), Tokens(Joined(parts)) as real);
  }

  lemma NothingWritten(s: SystemConfig, l: Layer, parts: seq<seq<Sequence>>)
    requires ValidHardware(s) && ValidLayer(l) && !HasScarceTier(s)
    ensures WriteHidden(s, l, parts)
  {
    TallySigns(s, l, Joined(parts), Tokens(Joined(parts)) as real);
  }

  /** Main result. One call for the batch takes no longer than one call for each of its microbatches, whatever
      their sizes, when the fill covers the residual, and utilization is batch-independent or the write is hidden.
      At batch-independent utilization it takes equally long exactly when phases and writes add up. */
  lemma SplitBound(s: SystemConfig, l: Layer, parts: seq<seq<Sequence>>)
    requires ValidHardware(s) && ValidLayer(l) && ValidParts(parts) && FillCoversResidual(s, l)
    requires s.mfuHalf <= 0.0 || WriteHidden(s, l, parts)
    ensures GenNs(s, l, Joined(parts)) <= SumNs(GenTimes(s, l, parts))
    ensures s.mfuHalf <= 0.0 ==>
      (GenNs(s, l, Joined(parts)) == SumNs(GenTimes(s, l, parts)) <==> SplitsExactly(s, l, parts))
  {
    var w, ts := WholeTally(s, l, parts), Tallies(s, l, parts);
    var us := TalliesAt(s, l, parts, Tokens(Joined(parts)) as real);
    TalliesCompare(s, l, parts, w, us, ts);
    TimesAreTotals(s, l, parts, w, ts);
    ExactnessIsOfTallies(s, l, parts, w, ts);
    ComparedBound(s, w, us, ts, GenNs(s, l, Joined(parts)), SumNs(GenTimes(s, l, parts)), SplitsExactly(s, l, parts));
  }
}
