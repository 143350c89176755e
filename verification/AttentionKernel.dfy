/** AttentionGenExecutionGPU without the external DRAM simulator: scoring, softmax, context, and the
    tail of the KV write that the compute does not hide. */
module AttentionKernel {
  import opened Arith
  import opened Hardware
  import opened FlashTiming
  import opened Tagging

  /** One sequence: tokens processed this step, and tokens already cached. */
  datatype Sequence = Sequence(tokens: nat, cached: nat)

  datatype Layer = Layer(headDim: nat, numHeads: nat, numKvHeads: nat, groupSize: nat, window: nat, precision: nat,
                         flashAttention: bool, chunked: bool, chunkOverride: int,
                         inputLen: nat, outputLen: nat, layersPerStage: int, offloadFraction: real)

  predicate ValidLayer(l: Layer) { l.numKvHeads >= 1 && 0.0 <= l.offloadFraction <= 1.0 }

  /** KV positions that the sequence attends to. */
  function Positions(l: Layer, q: Sequence): nat {
    var n := q.cached + q.tokens;
    if l.window > 0 && l.window < n then l.window else n
  }

  // ---- One (sequence, KV head) pair --------------------------------------------------------------

  function Rate(s: SystemConfig, batch: real): (r: real)
    requires ValidHardware(s)
    ensures r > 0.0
  {
    RateIsPositive(s, batch);
    s.computePeakFlops * EffectiveMfu(s, batch)
  }

  lemma RateIsPositive(s: SystemConfig, batch: real)
    requires ValidHardware(s)
    ensures s.computePeakFlops * EffectiveMfu(s, batch) > 0.0
  {}

  /** m x k by k x n for the pair's query group. */
  function PairNs(s: SystemConfig, l: Layer, q: Sequence, batch: real): real
    requires ValidHardware(s)
  {
    TransferNs((q.tokens * l.headDim * Positions(l, q) * 2 * l.groupSize) as real, Rate(s, batch))
  }

  function PairKvBytes(l: Layer, q: Sequence): (r: real)
    ensures r >= 0.0
  {
    var bytes: nat := l.headDim * Positions(l, q) * l.precision;
    bytes as real
  }

  /** Bytes of an m x k sheet per query head, shared over the KV heads. */
  function SheetBytes(l: Layer, m: nat, k: nat): (r: real)
    requires l.numKvHeads >= 1
    ensures r >= 0.0
  {
    var elements: nat := m * k * l.numHeads;
    RDivMono(0.0, elements as real, l.numKvHeads as real);
    RMulMono(0.0, elements as real / l.numKvHeads as real, l.precision as real);
    elements as real / l.numKvHeads as real * l.precision as real
  }

  /** The query (or output) sheet, and the score (or weight) sheet unless it never materializes. */
  function PairActBytes(l: Layer, q: Sequence): (r: real)
    requires l.numKvHeads >= 1
    ensures r >= 0.0
  {
    SheetBytes(l, q.tokens, l.headDim) + if l.flashAttention then 0.0 else SheetBytes(l, q.tokens, Positions(l, q))
  }

  /** n equal contributions, one per KV head. */
  function Times(n: nat, x: real): real { n as real * x }

  function SoftmaxComputeNs(s: SystemConfig, l: Layer, q: Sequence, batch: real): real
    requires ValidHardware(s)
  {
    TransferNs((7 * q.tokens * Positions(l, q) * l.numHeads) as real, Rate(s, batch))
  }

  /** The round trip of the materialized scores through the tier that holds activations. */
  function SoftmaxMemoryNs(s: SystemConfig, l: Layer, q: Sequence): real
    requires ValidHardware(s)
  {
    if l.flashAttention then 0.0
    else TransferNs((2 * q.tokens * Positions(l, q) * l.numHeads * l.precision) as real,
                    if HasScarceTier(s) then ActBandwidth(s.hbf) else s.memoryBandwidth)
  }

  /** What one sequence adds: compute, KV bytes, activation bytes and plain-memory time of one phase
      over all KV heads, and its softmax compute and memory time. */
  datatype Cost = Cost(compute: real, kv: real, act: real, plain: real, softCompute: real, softMemory: real)

  function CostOf(s: SystemConfig, l: Layer, q: Sequence, batch: real): Cost
    requires ValidHardware(s) && ValidLayer(l)
  {
    var kv, act := PairKvBytes(l, q), PairActBytes(l, q);
    Cost(Times(l.numKvHeads, PairNs(s, l, q, batch)), Times(l.numKvHeads, kv), Times(l.numKvHeads, act),
         Times(l.numKvHeads, TransferNs(kv + act, s.memoryBandwidth)),
         SoftmaxComputeNs(s, l, q, batch), SoftmaxMemoryNs(s, l, q))
  }

  function Costs(s: SystemConfig, l: Layer, qs: seq<Sequence>, batch: real): (cs: seq<Cost>)
    requires ValidHardware(s) && ValidLayer(l)
    ensures |cs| == |qs|
  {
    seq(|qs|, i requires 0 <= i < |qs| => CostOf(s, l, qs[i], batch))
  }

  /** The accumulators of one phase. */
  datatype Load = Load(compute: real, kv: real, act: real, plain: real)

  function LoadOf(cs: seq<Cost>): Load {
    if cs == [] then Load(0.0, 0.0, 0.0, 0.0) else
    var a, c := LoadOf(cs[..|cs| - 1]), cs[|cs| - 1];
    Load(a.compute + c.compute, a.kv + c.kv, a.act + c.act, a.plain + c.plain)
  }

  /** hbmKvOffloadReadDuration. */
  function OffloadReadNs(s: SystemConfig, kv: real, act: real, f: real): real
    requires ValidHardware(s)
  {
    var resident := TransferNs(kv * (1.0 - f) + act, s.memoryBandwidth);
    var offload := TransferNs(kv * f, s.c2cBandwidth);
    if s.c2cMaxComposition then Max(resident, offload) else resident + offload
  }

  function PhaseMemoryNs(s: SystemConfig, l: Layer, x: Load): real
    requires ValidHardware(s)
  {
    if HasScarceTier(s) then AttentionReadNs(s, x.kv, x.act, l.chunked, l.chunkOverride, 2)
    else if CpuKvOffloadActive(s) then OffloadReadNs(s, x.kv, x.act, l.offloadFraction)
    else x.plain
  }

  function PhaseNs(s: SystemConfig, l: Layer, x: Load): real
    requires ValidHardware(s)
  {
    Max(x.compute, PhaseMemoryNs(s, l, x))
  }

  /** The loop over KV heads: one sequence's pairs join the accumulators, tier bytes or plain time. */
  method AddPairs(s: SystemConfig, l: Layer, q: Sequence, batch: real, scoring: bool, x0: Load) returns (x: Load)
    requires ValidHardware(s) && ValidLayer(l)
    ensures var c := CostOf(s, l, q, batch);
      x == if HasScarceTier(s) || CpuKvOffloadActive(s)
           then Load(x0.compute + c.compute, x0.kv + c.kv, x0.act + c.act, x0.plain)
           else Load(x0.compute + c.compute, x0.kv, x0.act, x0.plain + c.plain)
  {
    var ns, kv, act := PairCosts(s, l, q, batch, scoring);
    var plain := TransferNs(kv + act, s.memoryBandwidth);
    x := x0;
    TimesZero(ns); TimesZero(kv); TimesZero(act); TimesZero(plain);
    for j := 0 to l.numKvHeads
      invariant x == if HasScarceTier(s) || CpuKvOffloadActive(s)
        then Load(x0.compute + Times(j, ns), x0.kv + Times(j, kv), x0.act + Times(j, act), x0.plain)
        else Load(x0.compute + Times(j, ns), x0.kv, x0.act, x0.plain + Times(j, plain))
    {
      OneMore(j, ns); OneMore(j, kv); OneMore(j, act); OneMore(j, plain);
      x := x.(compute := x.compute + ns);
      if HasScarceTier(s) || CpuKvOffloadActive(s) {
        x := x.(kv := x.kv + kv, act := x.act + act);
      } else {
        x := x.(plain := x.plain + plain);
      }
    }
  }

  /** One pair, with the operand shapes of scoring (tokens x headDim by headDim x positions) or of
      context (tokens x positions by positions x headDim). */
  method PairCosts(s: SystemConfig, l: Layer, q: Sequence, batch: real, scoring: bool)
      returns (ns: real, kv: real, act: real)
    requires ValidHardware(s) && ValidLayer(l)
    ensures ns == PairNs(s, l, q, batch) && kv == PairKvBytes(l, q) && act == PairActBytes(l, q)
  {
    var m, k, n := q.tokens, l.headDim, Positions(l, q);
    if !scoring { k, n := n, k; }
    PairIsSymmetric(l, q);
    ns := TransferNs((m * k * n * 2 * l.groupSize) as real, Rate(s, batch));
    kv := (k * n * l.precision) as real;
    act := if scoring then SheetBytes(l, m, k) + (if l.flashAttention then 0.0 else SheetBytes(l, m, n))
           else (if l.flashAttention then 0.0 else SheetBytes(l, m, k)) + SheetBytes(l, m, n);
  }

  /** One pass over all sequences, then one read of the summed sizes. */
  method Phase(s: SystemConfig, l: Layer, qs: seq<Sequence>, batch: real, scoring: bool)
      returns (compute: real, phase: real)
    requires ValidHardware(s) && ValidLayer(l)
    ensures var x := LoadOf(Costs(s, l, qs, batch)); compute == x.compute && phase == PhaseNs(s, l, x)
  {
    ghost var cs := Costs(s, l, qs, batch);
    var x := Load(0.0, 0.0, 0.0, 0.0);
    for i := 0 to |qs|
      invariant var y := LoadOf(cs[..i]);
        x == if HasScarceTier(s) || CpuKvOffloadActive(s) then y.(plain := 0.0) else Load(y.compute, 0.0, 0.0, y.plain)
    {
      assert cs[..i + 1][..i] == cs[..i];
      x := AddPairs(s, l, qs[i], batch, scoring, x);
    }
    assert cs[..|qs|] == cs;
    var memory := x.plain;
    if HasScarceTier(s) { memory := AttentionReadNs(s, x.kv, x.act, l.chunked, l.chunkOverride, 2); }
    else if CpuKvOffloadActive(s) { memory := OffloadReadNs(s, x.kv, x.act, l.offloadFraction); }
    compute, phase := x.compute, Max(x.compute, memory);
  }

  lemma TimesZero(x: real)
    ensures Times(0, x) == 0.0
  {}

  lemma OneMore(j: nat, x: real)
    ensures Times(j + 1, x) == Times(j, x) + x
  {}

  lemma PairIsSymmetric(l: Layer, q: Sequence)
    ensures var d, n := l.headDim, Positions(l, q);
      q.tokens * n * d * 2 * l.groupSize == q.tokens * d * n * 2 * l.groupSize
        && n * d * l.precision == d * n * l.precision
  {}

  // ---- Softmax and the write tail ----------------------------------------------------------------

  /** Softmax time over the sequences, and the part of its compute that may hide the KV write. */
  function SoftmaxNs(s: SystemConfig, cs: seq<Cost>): (real, real) {
    if cs == [] then (0.0, 0.0) else
    var (total, hiding) := SoftmaxNs(s, cs[..|cs| - 1]);
    var c := cs[|cs| - 1];
    (total + Max(c.softCompute, c.softMemory), hiding + if s.kvWriteSoftmaxHide then c.softCompute else 0.0)
  }

  /** getKVWriteDuration for grouped-query attention. */
  function KvWriteNs(s: SystemConfig, l: Layer, numSeq: nat): real
    requires ValidHardware(s)
  {
    if !HasScarceTier(s) then 0.0 else
    var newQueries := numSeq as real / (if l.outputLen > 0 then l.outputLen else 1) as real;
    var len := if l.window > 0 && l.window < l.inputLen then l.window else l.inputLen;
    var bytes := newQueries * l.numKvHeads as real * (2.0 * l.headDim as real) * len as real * l.precision as real;
    TransferNs(bytes, s.hbf.flashWriteBandwidth) + s.hbf.flashPageProgramNs / AtLeastOne(l.layersPerStage) as real
  }

  /** The part of the KV write that neither phase's compute nor the softmax hides. */
  function TailNs(s: SystemConfig, l: Layer, cs: seq<Cost>): real
    requires ValidHardware(s)
  {
    if HasScarceTier(s)
    then Max(0.0, KvWriteNs(s, l, |cs|) - (2.0 * LoadOf(cs).compute + SoftmaxNs(s, cs).1)) else 0.0
  }

  function CostsNs(s: SystemConfig, l: Layer, cs: seq<Cost>): real
    requires ValidHardware(s)
  {
    2.0 * PhaseNs(s, l, LoadOf(cs)) + SoftmaxNs(s, cs).0 + TailNs(s, l, cs)
  }

  /** Time of one decode attention layer. */
  function AttentionNs(s: SystemConfig, l: Layer, qs: seq<Sequence>, batch: real): real
    requires ValidHardware(s) && ValidLayer(l)
  {
    if batch == 0.0 then 0.0 else CostsNs(s, l, Costs(s, l, qs, batch))
  }

  /** The whole kernel. All of its time is batch-dependent, on every memory path. */
  method AttentionGen(s: SystemConfig, l: Layer, qs: seq<Sequence>, batch: real) returns (st: ExecStatus)
    requires ValidHardware(s) && ValidLayer(l)
    ensures st.total == AttentionNs(s, l, qs, batch)
    ensures st.dep == st.total
    ensures st.kvWrite == if batch == 0.0 then 0.0 else TailNs(s, l, Costs(s, l, qs, batch))
  {
    st := IDLE;
    if batch == 0.0 { return; }
    var compute, phase := Phase(s, l, qs, batch, true);
    var total := phase;
    ghost var cs := Costs(s, l, qs, batch);
    var softmaxTime, hiding := 0.0, 0.0;
    for i := 0 to |qs|
      invariant (softmaxTime, hiding) == SoftmaxNs(s, cs[..i])
    {
      assert cs[..i + 1][..i] == cs[..i];
      var c := SoftmaxComputeNs(s, l, qs[i], batch);
      softmaxTime := softmaxTime + Max(c, SoftmaxMemoryNs(s, l, qs[i]));
      if s.kvWriteSoftmaxHide { hiding := hiding + c; }
    }
    assert cs[..|qs|] == cs;
    st := st.(compute := compute + hiding, total := phase + softmaxTime, dep := phase + softmaxTime);
    compute, phase := Phase(s, l, qs, batch, false);
    st := st.(compute := st.compute + compute, total := st.total + phase, dep := st.dep + phase);
    if HasScarceTier(s) {
      var unhidden := Max(0.0, KvWriteNs(s, l, |qs|) - st.compute);
      st := st.(total := st.total + unhidden, dep := st.dep + unhidden, kvWrite := unhidden);
    }
  }

  // ---- Flash attention never costs time ----------------------------------------------------------

  function Fused(l: Layer): Layer { l.(flashAttention := true) }

  /** c needs the same compute and KV as d, and no more activation traffic. */
  predicate NoCostlier(c: Cost, d: Cost) {
    c.compute == d.compute && c.kv == d.kv && c.softCompute == d.softCompute &&
    c.act <= d.act && c.plain <= d.plain && c.softMemory <= d.softMemory
  }

  lemma TimesMono(n: nat, x: real, y: real)
    requires x <= y
    ensures Times(n, x) <= Times(n, y)
  {}

  lemma SoftmaxShrinks(s: SystemConfig, l: Layer, q: Sequence)
    requires ValidHardware(s)
    ensures SoftmaxMemoryNs(s, Fused(l), q) <= SoftmaxMemoryNs(s, l, q)
  {
    var bytes := 2 * q.tokens * Positions(l, q) * l.numHeads * l.precision;
    assert bytes >= 0;
    TransferMono(0.0, bytes as real, if HasScarceTier(s) then ActBandwidth(s.hbf) else s.memoryBandwidth);
  }

  lemma CostShrinks(s: SystemConfig, l: Layer, q: Sequence, batch: real)
    requires ValidHardware(s) && ValidLayer(l)
    ensures NoCostlier(CostOf(s, Fused(l), q, batch), CostOf(s, l, q, batch))
  {
    SoftmaxShrinks(s, l, q);
    var kv, a, b := PairKvBytes(l, q), PairActBytes(Fused(l), q), PairActBytes(l, q);
    assert Positions(Fused(l), q) == Positions(l, q) && PairKvBytes(Fused(l), q) == kv;
    TimesMono(l.numKvHeads, a, b);
    TransferMono(kv + a, kv + b, s.memoryBandwidth);
    TimesMono(l.numKvHeads, TransferNs(kv + a, s.memoryBandwidth), TransferNs(kv + b, s.memoryBandwidth));
  }

  lemma {:induction false} SumsShrink(s: SystemConfig, cs: seq<Cost>, ds: seq<Cost>)
    requires |cs| == |ds| && forall i :: 0 <= i < |cs| ==> NoCostlier(cs[i], ds[i])
    ensures var x, y := LoadOf(cs), LoadOf(ds);
      x.compute == y.compute && x.kv == y.kv && x.act <= y.act && x.plain <= y.plain
    ensures SoftmaxNs(s, cs).0 <= SoftmaxNs(s, ds).0 && SoftmaxNs(s, cs).1 == SoftmaxNs(s, ds).1
  {
    if cs != [] {
      var n := |cs| - 1;
      SumsShrink(s, cs[..n], ds[..n]);
      assert NoCostlier(cs[n], ds[n]);
    }
  }

  lemma OffloadMonotone(s: SystemConfig, kv: real, a: real, b: real, f: real)
    requires ValidHardware(s) && a <= b
    ensures OffloadReadNs(s, kv, a, f) <= OffloadReadNs(s, kv, b, f)
  {}

  lemma PhaseShrinks(s: SystemConfig, l: Layer, x: Load, y: Load)
    requires ValidHardware(s) && x.compute == y.compute && x.kv == y.kv && x.act <= y.act && x.plain <= y.plain
    ensures PhaseNs(s, Fused(l), x) <= PhaseNs(s, l, y)
  {
    TransferMono(x.act, y.act, ActBandwidth(s.hbf));
    OffloadMonotone(s, x.kv, x.act, y.act, l.offloadFraction);
  }

  lemma KvWriteIgnoresFusion(s: SystemConfig, l: Layer, n: nat)
    requires ValidHardware(s)
    ensures KvWriteNs(s, Fused(l), n) == KvWriteNs(s, l, n)
  {}

  lemma TailIgnoresFusion(s: SystemConfig, l: Layer, cs: seq<Cost>, ds: seq<Cost>)
    requires ValidHardware(s) && |cs| == |ds|
    requires LoadOf(cs).compute == LoadOf(ds).compute && SoftmaxNs(s, cs).1 == SoftmaxNs(s, ds).1
    ensures TailNs(s, Fused(l), cs) == TailNs(s, l, ds)
  {
    KvWriteIgnoresFusion(s, l, |cs|);
  }

  lemma CostsShrink(s: SystemConfig, l: Layer, cs: seq<Cost>, ds: seq<Cost>)
    requires ValidHardware(s)
    requires |cs| == |ds| && forall i :: 0 <= i < |cs| ==> NoCostlier(cs[i], ds[i])
    ensures CostsNs(s, Fused(l), cs) <= CostsNs(s, l, ds)
  {
    SumsShrink(s, cs, ds);
    var x, y := PhaseNs(s, Fused(l), LoadOf(cs)), PhaseNs(s, l, LoadOf(ds));
    assert x <= y by { PhaseShrinks(s, l, LoadOf(cs), LoadOf(ds)); }
    TailIgnoresFusion(s, l, cs, ds);
  }

  /** Main result: on the same sequences and hardware, switching flash attention on never takes longer. */
  lemma FlashAttentionNeverSlower(s: SystemConfig, l: Layer, qs: seq<Sequence>, batch: real)
    requires ValidHardware(s) && ValidLayer(l)
    ensures AttentionNs(s, Fused(l), qs, batch) <= AttentionNs(s, l, qs, batch)
  {
    var cs, ds := Costs(s, Fused(l), qs, batch), Costs(s, l, qs, batch);
    forall i | 0 <= i < |qs| ensures NoCostlier(cs[i], ds[i]) { CostShrinks(s, l, qs[i], batch); }
    CostsShrink(s, l, cs, ds);
  }

  // ---- One read for all sequences ----------------------------------------------------------------

  /** The per-sequence sizes whose sums the kernel reads at once. */
  function Items(cs: seq<Cost>): (items: seq<Item>)
    ensures |items| == |cs|
  {
    seq(|cs|, i requires 0 <= i < |cs| => Item(cs[i].kv, cs[i].act))
  }

  lemma {:induction false} SumSnoc(items: seq<Item>)
    requires items != []
    ensures var n := |items| - 1;
      SumKv(items) == SumKv(items[..n]) + items[n].kv && SumAct(items) == SumAct(items[..n]) + items[n].act
  {
    var n := |items| - 1;
    if n == 0 {
      assert items[1..] == [] && items[..0] == [];
    } else {
      SumSnoc(items[1..]);
      assert items[1..][..n - 1] == items[..n][1..];
    }
  }

  lemma {:induction false} LoadIsSumOfItems(cs: seq<Cost>)
    ensures SumKv(Items(cs)) == LoadOf(cs).kv && SumAct(Items(cs)) == LoadOf(cs).act
  {
    if cs != [] {
      var n := |cs| - 1;
      LoadIsSumOfItems(cs[..n]);
      SumSnoc(Items(cs));
      assert Items(cs)[..n] == Items(cs[..n]);
    }
  }

  lemma CostNonNegative(s: SystemConfig, l: Layer, q: Sequence, batch: real)
    requires ValidHardware(s) && ValidLayer(l)
    ensures CostOf(s, l, q, batch).kv >= 0.0 && CostOf(s, l, q, batch).act >= 0.0
  {}

  /** The kernel's single read per phase costs no more than one read per sequence would, as long as a
      chunk's residual is within the half fill that each phase is charged. */
  lemma KernelAggregates(s: SystemConfig, l: Layer, qs: seq<Sequence>, batch: real)
    requires ValidHardware(s) && ValidLayer(l) && HasScarceTier(s) && qs != []
    requires ResidualWithinFill(s, l.chunked, l.chunkOverride, 2)
    ensures var cs := Costs(s, l, qs, batch);
      PhaseMemoryNs(s, l, LoadOf(cs)) <= SumCalls(s, Items(cs), l.chunked, l.chunkOverride, 2)
  {
    var cs := Costs(s, l, qs, batch);
    forall i | 0 <= i < |qs| ensures cs[i].kv >= 0.0 && cs[i].act >= 0.0 { CostNonNegative(s, l, qs[i], batch); }
    LoadIsSumOfItems(cs);
    ListNeverOvercharges(s, Items(cs), l.chunked, l.chunkOverride, 2);
  }
}
