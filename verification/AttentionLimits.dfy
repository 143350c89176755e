/** Where the bound of AttentionSplit stops: the exact condition on the flash parameters, and inputs beyond it. */
module AttentionLimits {
  import opened Arith
  import opened Hardware
  import opened FlashTiming
  import opened AttentionKernel
  import opened AttentionSplit

  // ---- The shared fill makes the whole call shorter ----------------------------------------------

  /** Microbatches that have sequences. */
  function Busy(parts: seq<seq<Sequence>>): nat {
    if parts == [] then 0 else Busy(parts[..|parts| - 1]) + if parts[|parts| - 1] == [] then 0 else 1
  }

  /** A chunk's residual is strictly below the half fill, and the fill is not hidden. */
  predicate FillExceedsResidual(s: SystemConfig, l: Layer)
    requires ValidHardware(s)
  {
    var c := KvChunkBytes(s, l.chunked, l.chunkOverride);
    HasScarceTier(s) && !s.paper2Mode && s.hbf.flashPageReadNs > 0.0 &&
    (c > 0.0 ==> ResidualNs(c, s.hbf.flashReadBandwidth, s.hbf.flashPageReadNs) < s.hbf.flashPageReadNs / 2.0)
  }

  lemma FillsExceedResiduals(fill: real, n: real, na: real, nb: real, r: real)
    requires n <= na + nb + 1.0 && 0.0 <= r < fill
    ensures n * r < na * r + nb * r + fill
  {
    RMulMono(n, na + nb + 1.0, r);
    assert (na + nb + 1.0) * r == na * r + nb * r + r;
  }

  /** One phase's read: transfer, half a fill, and the residuals of the further chunks. */
  lemma HalfFill(size: real, c: real, bandwidth: real, latency: real)
    requires bandwidth > 0.0
    ensures StreamNs(size, c, bandwidth, latency, 2, false)
         == TransferNs(size, bandwidth) + (latency / 2.0 + Residuals(size, c, bandwidth, latency))
  {}

  function Residuals(size: real, c: real, bandwidth: real, latency: real): real
    requires bandwidth > 0.0
  {
    (NumChunks(size, c) - 1) as real * ResidualNs(c, bandwidth, latency)
  }

  lemma ResidualsStrict(a: real, b: real, c: real, bandwidth: real, latency: real)
    requires a >= 0.0 && b >= 0.0 && bandwidth > 0.0 && latency > 0.0
    requires c > 0.0 ==> ResidualNs(c, bandwidth, latency) < latency / 2.0
    ensures Residuals(a + b, c, bandwidth, latency)
          < Residuals(a, c, bandwidth, latency) + Residuals(b, c, bandwidth, latency) + latency / 2.0
  {
    ChunksSubadditive(a, b, c);
    if c > 0.0 {
      FillsExceedResiduals(latency / 2.0, (NumChunks(a + b, c) - 1) as real, (NumChunks(a, c) - 1) as real,
                           (NumChunks(b, c) - 1) as real, ResidualNs(c, bandwidth, latency));
    }
  }

  lemma StreamsStrict(a: real, b: real, c: real, bandwidth: real, latency: real)
    requires a >= 0.0 && b >= 0.0 && bandwidth > 0.0 && latency > 0.0
    requires c > 0.0 ==> ResidualNs(c, bandwidth, latency) < latency / 2.0
    ensures StreamNs(a + b, c, bandwidth, latency, 2, false)
          < StreamNs(a, c, bandwidth, latency, 2, false) + StreamNs(b, c, bandwidth, latency, 2, false)
  {
    TransferAdds(a, b, bandwidth);
    ResidualsStrict(a, b, c, bandwidth, latency);
    HalfFill(a, c, bandwidth, latency);
    HalfFill(b, c, bandwidth, latency);
    HalfFill(a + b, c, bandwidth, latency);
  }

  lemma SecondJoinsStrictly(s: SystemConfig, l: Layer, p: seq<Sequence>, q: seq<Sequence>, batch: real)
    requires ValidHardware(s) && ValidLayer(l) && FillExceedsResidual(s, l) && p != [] && q != []
    ensures TallyOf(s, l, p + q, batch).second < TallyOf(s, l, p, batch).second + TallyOf(s, l, q, batch).second
  {
    var cs, ds := Costs(s, l, p, batch), Costs(s, l, q, batch);
    assert Costs(s, l, p + q, batch) == cs + ds;
    SumsAppend(s, cs, ds);
    TallySigns(s, l, p, batch);
    TallySigns(s, l, q, batch);
    StreamsStrict(LoadOf(cs).kv, LoadOf(ds).kv, KvChunkBytes(s, l.chunked, l.chunkOverride),
                  s.hbf.flashReadBandwidth, s.hbf.flashPageReadNs);
  }

  lemma {:induction false} BusyIsJoined(parts: seq<seq<Sequence>>)
    ensures Busy(parts) == 0 <==> Joined(parts) == []
  {
    if parts != [] { BusyIsJoined(parts[..|parts| - 1]); }
  }

  lemma {:induction false} ReadsShorten(s: SystemConfig, l: Layer, parts: seq<seq<Sequence>>, batch: real)
    requires ValidHardware(s) && ValidLayer(l) && FillExceedsResidual(s, l) && Busy(parts) >= 2
    ensures TallyOf(s, l, Joined(parts), batch).second < Sum(TalliesAt(s, l, parts, batch), Second)
  {
    var n := |parts| - 1;
    var ts := TalliesAt(s, l, parts, batch);
    assert ts[..n] == TalliesAt(s, l, parts[..n], batch);
    if parts[n] == [] {
      ReadsShorten(s, l, parts[..n], batch);
      assert Joined(parts) == Joined(parts[..n]);
    } else {
      BusyIsJoined(parts[..n]);
      WholeAddsUp(s, l, parts[..n], batch);
      SecondJoinsStrictly(s, l, Joined(parts[..n]), parts[n], batch);
    }
  }

  /** Some microbatch is limited by its KV read alone. */
  ghost predicate SomeReadLimits(ts: seq<Tally>) {
    exists i :: 0 <= i < |ts| && Second(ts[i]) > First(ts[i]) && Second(ts[i]) > Compute(ts[i])
  }

  /** At the shipped settings (a residual below the fill, and the fill charged) the call is strictly shorter than its
      microbatches as soon as two of them have sequences and one is limited by its KV read. */
  lemma SharedFillIsSaved(s: SystemConfig, l: Layer, parts: seq<seq<Sequence>>)
    requires ValidHardware(s) && ValidLayer(l) && ValidParts(parts) && FillExceedsResidual(s, l)
    requires s.mfuHalf <= 0.0 && Busy(parts) >= 2 && SomeReadLimits(Tallies(s, l, parts))
    ensures GenNs(s, l, Joined(parts)) < SumNs(GenTimes(s, l, parts))
  {
    var batch := Tokens(Joined(parts)) as real;
    var w, us, ts := WholeTally(s, l, parts), TalliesAt(s, l, parts, batch), Tallies(s, l, parts);
    SplitBound(s, l, parts);
    TalliesCompare(s, l, parts, w, us, ts);
    ReadsShorten(s, l, parts, batch);
    ExactnessIsOfTallies(s, l, parts, w, ts);
    NotExact(s, w, ts);
  }

  lemma NotExact(s: SystemConfig, w: Tally, ts: seq<Tally>)
    requires HasScarceTier(s) && SomeReadLimits(ts) && w.second < Sum(ts, Second)
    requires forall i :: 0 <= i < |ts| ==> ts[i].memory == Composed(s, ts[i].first, ts[i].second)
    ensures !AddsExactly(s, w, ts)
  {}

  // ---- The condition is exact ----------------------------------------------------------------------

  /** No batch of a layer with these chunk settings takes longer than its microbatches. */
  ghost predicate NeverLonger(s: SystemConfig, chunked: bool, chunkOverride: int)
    requires ValidHardware(s)
  {
    forall l: Layer, parts: seq<seq<Sequence>> ::
      ValidLayer(l) && l.chunked == chunked && l.chunkOverride == chunkOverride && ValidParts(parts) && |parts| > 1 ==>
      GenNs(s, l, Joined(parts)) <= SumNs(GenTimes(s, l, parts))
  }

  /** How far k bytes reach into their last chunk. */
  function Excess(k: nat, c: real): (f: real)
    requires k >= 1 && c > 0.0
    ensures 0.0 < f <= 1.0
  {
    CeilBounds(k as real / c);
    k as real / c - (Ceil(k as real / c) - 1) as real
  }

  lemma CeilIs(x: real, n: int)
    requires n as real - 1.0 < x <= n as real
    ensures Ceil(x) == n
  {}

  lemma DoubleQuotient(k: nat, c: real)
    requires c > 0.0
    ensures (2 * k) as real / c == 2.0 * (k as real / c) && (k as real + k as real) / c == 2.0 * (k as real / c)
  {}

  lemma PastHalf(k: nat, c: real)
    requires k >= 1 && c > 0.0 && 2.0 * Excess(k, c) > 1.0
    ensures NumChunks(k as real + k as real, c) == 2 * NumChunks(k as real, c)
  {
    var q := k as real / c;
    var n := Ceil(q);
    CeilBounds(q);
    assert q > 0.0;
    DoubleQuotient(k, c);
    CeilIs(2.0 * q, 2 * n);
  }

  lemma ExcessDoubles(k: nat, c: real)
    requires k >= 1 && c > 0.0 && 2.0 * Excess(k, c) <= 1.0
    ensures Excess(2 * k, c) == 2.0 * Excess(k, c)
  {
    var q := k as real / c;
    var n := Ceil(q);
    CeilBounds(q);
    DoubleQuotient(k, c);
    CeilIs(2.0 * q, 2 * n - 1);
  }

  lemma Halves(f: real)
    requires 0.0 < f && 2.0 * f <= 1.0
    ensures 0 <= (1.0 / (2.0 * f)).Floor < (1.0 / f).Floor
  {
    var h := 1.0 / (2.0 * f);
    assert 1.0 / f == 2.0 * h && h >= 1.0;
  }

  /** A KV size from k on of which the double needs twice the chunks. */
  lemma EvenSplit(k: nat, c: real) returns (m: nat)
    requires k >= 1 && c > 0.0
    ensures m >= k && NumChunks(m as real + m as real, c) == 2 * NumChunks(m as real, c)
    decreases (1.0 / Excess(k, c)).Floor
  {
    if 2.0 * Excess(k, c) > 1.0 {
      m := k;
      PastHalf(k, c);
    } else {
      ExcessDoubles(k, c);
      Halves(Excess(k, c));
      m := EvenSplit(2 * k, c);
    }
  }

  /** One sequence that decodes its first token, and one that waits with k - 1 tokens in its cache: the kernel
      reads the waiting sequence's KV although it computes nothing for it. */
  function Probe(k: nat): seq<Sequence>
    requires k >= 1
  {
    [Sequence(1, 0), Sequence(0, k - 1)]
  }

  /** One head, one byte per element, one output token. */
  function ProbeLayer(width: nat, chunked: bool, chunkOverride: int, inputLen: nat, layers: int): Layer {
    Layer(width, 1, 1, 1, 0, 1, true, chunked, chunkOverride, inputLen, 1, layers, 0.0)
  }

  predicate IsProbe(l: Layer) { l == ProbeLayer(l.headDim, l.chunked, l.chunkOverride, l.inputLen, l.layersPerStage) }

  lemma ProbeCosts(s: SystemConfig, l: Layer, k: nat, batch: real)
    requires ValidHardware(s) && k >= 1 && IsProbe(l)
    ensures var c, d := CostOf(s, l, Sequence(1, 0), batch), CostOf(s, l, Sequence(0, k - 1), batch);
      && c.compute == TransferNs((2 * l.headDim) as real, Rate(s, batch))
      && c.softCompute == TransferNs(7.0, Rate(s, batch))
      && c.kv == c.act == l.headDim as real && c.softMemory == d.softMemory == 0.0
      && d.compute == d.softCompute == d.act == 0.0 && d.kv == (l.headDim * (k - 1)) as real
  {}

  lemma ProbeLoad(s: SystemConfig, l: Layer, k: nat, batch: real)
    requires ValidHardware(s) && k >= 1 && IsProbe(l)
    ensures ValidLayer(l)
    ensures var cs := Costs(s, l, Probe(k), batch);
      var x, soft := LoadOf(cs), TransferNs(7.0, Rate(s, batch));
      && x.compute == TransferNs((2 * l.headDim) as real, Rate(s, batch))
      && x.kv == (l.headDim * k) as real && x.act == l.headDim as real
      && SoftmaxNs(s, cs) == (soft, if s.kvWriteSoftmaxHide then soft else 0.0)
  {
    var cs := Costs(s, l, Probe(k), batch);
    ProbeCosts(s, l, k, batch);
    RateNonNegative(7.0, Rate(s, batch));
    assert l.headDim * k == l.headDim + l.headDim * (k - 1);
    assert cs[..1] == [cs[0]] && cs[..1][..0] == [] && cs == [cs[0], cs[1]];
    assert LoadOf(cs[..1]) == Load(cs[0].compute, cs[0].kv, cs[0].act, cs[0].plain) by {
      assert LoadOf(cs[..1][..0]) == Load(0.0, 0.0, 0.0, 0.0);
    }
    assert SoftmaxNs(s, cs[..1][..0]) == (0.0, 0.0);
  }

  /** Two equal microbatches: everything doubles except the KV read, which is one read of twice the size. */
  lemma DoubledTally(s: SystemConfig, l: Layer, q: seq<Sequence>, batch: real)
    requires ValidHardware(s) && ValidLayer(l) && HasScarceTier(s) && q != []
    ensures var t, w, kv := TallyOf(s, l, q, batch), TallyOf(s, l, q + q, batch), LoadOf(Costs(s, l, q, batch)).kv;
      && w.compute == 2.0 * t.compute && w.soft == 2.0 * t.soft && w.hiding == 2.0 * t.hiding
      && w.first == 2.0 * t.first && w.second == KvReadNs(s, kv + kv, l.chunked, l.chunkOverride, 2)
  {
    var cs := Costs(s, l, q, batch);
    assert Costs(s, l, q + q, batch) == cs + cs;
    SumsAppend(s, cs, cs);
    TransferAdds(LoadOf(cs).act, LoadOf(cs).act, ActBandwidth(s.hbf));
  }

  lemma JoinedOne(q: seq<Sequence>)
    ensures Joined([q]) == q
  {}

  lemma JoinedPair(q: seq<Sequence>)
    ensures Joined([q, q]) == q + q
  {
    JoinedOne(q);
    assert [q, q][..1] == [q];
  }

  lemma SumOfPair(x: real)
    ensures SumNs([x, x]) == x + x
  {
    assert [x, x][..1] == [x] && [x][..0] == [];
    assert SumNs([x]) == x by { assert SumNs([x][..0]) == 0.0; }
  }

  lemma PairTimes(s: SystemConfig, l: Layer, q: seq<Sequence>)
    requires ValidHardware(s) && ValidLayer(l) && Tokens(q) >= 1
    ensures SumNs(GenTimes(s, l, [q, q])) == GenNs(s, l, q) + GenNs(s, l, q)
  {
    assert GenTimes(s, l, [q, q]) == [GenNs(s, l, q), GenNs(s, l, q)];
    SumOfPair(GenNs(s, l, q));
  }

  lemma WholePair(s: SystemConfig, l: Layer, q: seq<Sequence>)
    requires ValidHardware(s) && ValidLayer(l) && Tokens(q) == 1
    ensures GenNs(s, l, q) == Total(TallyOf(s, l, q, 1.0))
    ensures GenNs(s, l, q + q) == Total(TallyOf(s, l, q + q, 2.0))
  {
    TokensAppend(q, q);
    GenIsTotal(s, l, q);
    GenIsTotal(s, l, q + q);
  }

  /** A call against two microbatches that their KV reads limit. */
  lemma ReadLimitedPair(s: SystemConfig, w: Tally, t: Tally)
    requires Overlaps(s) && Consistent(s, w) && Consistent(s, t) && t.compute <= t.second && t.first <= t.second
    ensures Total(w) >= 2.0 * w.second + w.soft && Total(w) >= 2.0 * w.second + w.soft + (w.write - w.hiding)
    ensures t.hiding >= 0.0 && t.write >= 0.0 ==> Total(t) <= 2.0 * t.second + t.soft + t.write
    ensures t.write >= t.hiding ==> Total(t) == 2.0 * t.second + t.soft + (t.write - t.hiding)
  {}

  /** t and w are the probe once and twice, each at its own utilization. */
  ghost predicate ProbeTallies(s: SystemConfig, l: Layer, k: nat, t: Tally, w: Tally)
    requires ValidHardware(s)
  {
    var x, bytes := (2 * l.headDim) as real, (l.headDim * k) as real;
    && Consistent(s, t) && Consistent(s, w)
    && t.compute == TransferNs(x, Rate(s, 1.0)) && w.compute == 2.0 * TransferNs(x, Rate(s, 2.0))
    && t.soft == TransferNs(7.0, Rate(s, 1.0)) && w.soft == 2.0 * TransferNs(7.0, Rate(s, 2.0))
    && t.first == ActNs(s, l.headDim as real)
    && t.second == KvReadNs(s, bytes, l.chunked, l.chunkOverride, 2)
    && w.second == KvReadNs(s, bytes + bytes, l.chunked, l.chunkOverride, 2)
    && t.hiding == 2.0 * t.compute + (if s.kvWriteSoftmaxHide then t.soft else 0.0) && t.hiding >= 0.0
    && w.hiding == 2.0 * w.compute + (if s.kvWriteSoftmaxHide then w.soft else 0.0)
    && t.write == KvWriteNs(s, l, 2) && w.write == KvWriteNs(s, l, 4)
  }

  lemma ProbeTally(s: SystemConfig, l: Layer, k: nat)
    requires ValidHardware(s) && HasScarceTier(s) && k >= 1 && IsProbe(l)
    ensures ValidLayer(l)
    ensures ProbeTallies(s, l, k, TallyOf(s, l, Probe(k), 1.0), TallyOf(s, l, Probe(k) + Probe(k), 2.0))
  {
    var q := Probe(k);
    ProbeLoad(s, l, k, 1.0);
    ProbeLoad(s, l, k, 2.0);
    TallySigns(s, l, q, 1.0);
    TallyConsistent(s, l, q, 1.0);
    TallyConsistent(s, l, q + q, 2.0);
    DoubledTally(s, l, q, 2.0);
  }

  /** The probe's two microbatches, and their times. */
  lemma ProbePair(s: SystemConfig, l: Layer, k: nat)
    requires ValidHardware(s) && k >= 1 && IsProbe(l)
    ensures ValidLayer(l) && ValidParts([Probe(k), Probe(k)])
    ensures GenNs(s, l, Joined([Probe(k), Probe(k)])) == Total(TallyOf(s, l, Probe(k) + Probe(k), 2.0))
    ensures SumNs(GenTimes(s, l, [Probe(k), Probe(k)])) == 2.0 * Total(TallyOf(s, l, Probe(k), 1.0))
  {
    var q := Probe(k);
    assert Tokens(q) == 1 by { assert q[..1] == [Sequence(1, 0)] && q[..1][..0] == []; assert Tokens(q[..1]) == 1; }
    JoinedPair(q);
    assert ValidParts([q, q]);
    PairTimes(s, l, q);
    WholePair(s, l, q);
  }

  /** Twice the chunks: one residual more, half a fill less. */
  lemma EvenReadGap(s: SystemConfig, chunked: bool, chunkOverride: int, k: nat)
    requires ValidHardware(s) && !s.paper2Mode
    requires var c := KvChunkBytes(s, chunked, chunkOverride);
      NumChunks(k as real + k as real, c) == 2 * NumChunks(k as real, c)
    ensures KvReadNs(s, k as real + k as real, chunked, chunkOverride, 2)
         - 2.0 * KvReadNs(s, k as real, chunked, chunkOverride, 2)
         == ResidualNs(KvChunkBytes(s, chunked, chunkOverride), s.hbf.flashReadBandwidth, s.hbf.flashPageReadNs)
            - s.hbf.flashPageReadNs / 2.0
  {}

  /** A read of enough bytes takes at least this long. */
  lemma LongRead(s: SystemConfig, chunked: bool, chunkOverride: int, ns: real, k: nat)
    requires ValidHardware(s) && k as real >= ns / GIGA * s.hbf.flashReadBandwidth
    ensures KvReadNs(s, k as real, chunked, chunkOverride, 2) >= ns
  {
    var bw := s.hbf.flashReadBandwidth;
    var c := KvChunkBytes(s, chunked, chunkOverride);
    TransferMono(ns / GIGA * bw, k as real, bw);
    assert TransferNs(ns / GIGA * bw, bw) == ns;
    RMulMono(0.0, (NumChunks(k as real, c) - 1) as real, ResidualNs(c, bw, s.hbf.flashPageReadNs));
    RDivMono(0.0, s.hbf.flashPageReadNs, 2.0);
  }

  lemma SmallShare(x: real, e: real) returns (n: nat)
    requires x >= 0.0 && e > 0.0
    ensures n >= 1 && x / n as real < e
  {
    n := (x / e).Floor + 1;
    RMulStrict(x / e, n as real, e);
    assert x / e * e == x;
    BelowQuotient(x, n as real, e);
  }

  lemma BelowQuotient(x: real, n: real, e: real)
    requires n > 0.0 && x < n * e
    ensures x / n < e
  {}

  lemma LongProbe(s: SystemConfig, l: Layer, ns: real) returns (k: nat)
    requires ValidHardware(s) && !s.paper2Mode && KvChunkBytes(s, l.chunked, l.chunkOverride) > 0.0
    ensures k >= 1 && KvReadNs(s, k as real, l.chunked, l.chunkOverride, 2) >= ns
    ensures NumChunks(k as real + k as real, KvChunkBytes(s, l.chunked, l.chunkOverride))
         == 2 * NumChunks(k as real, KvChunkBytes(s, l.chunked, l.chunkOverride))
  {
    var k0 := BytesFor(s, ns);
    k := EvenSplit(k0, KvChunkBytes(s, l.chunked, l.chunkOverride));
    LongRead(s, l.chunked, l.chunkOverride, ns, k);
  }

  lemma BareWrite(s: SystemConfig, l: Layer, n: nat)
    requires ValidHardware(s) && HasScarceTier(s) && l.window == 0 && l.inputLen == 0
    ensures KvWriteNs(s, l, n) == s.hbf.flashPageProgramNs / AtLeastOne(l.layersPerStage) as real >= 0.0
  {}

  /** The whole read is longer by gap, and the write of one call is shorter than that. */
  lemma LongerPair(s: SystemConfig, w: Tally, t: Tally, gap: real)
    requires Overlaps(s) && Consistent(s, w) && Consistent(s, t) && t.compute <= t.second && t.first <= t.second
    requires w.soft == 2.0 * t.soft && w.second - 2.0 * t.second == gap && 0.0 <= t.write < gap && t.hiding >= 0.0
    ensures Total(w) > 2.0 * Total(t)
  {}

  lemma SameRate(s: SystemConfig)
    requires ValidHardware(s) && s.mfuHalf <= 0.0
    ensures Rate(s, 1.0) == Rate(s, 2.0)
  {}

  /** t and w are a probe of these chunk settings once and twice. */
  ghost predicate IsProbeOf(s: SystemConfig, chunked: bool, chunkOverride: int, l: Layer, k: nat, t: Tally, w: Tally)
    requires ValidHardware(s)
  {
    && k >= 1 && IsProbe(l) && l.chunked == chunked && l.chunkOverride == chunkOverride && ValidLayer(l)
    && t == TallyOf(s, l, Probe(k), 1.0) && w == TallyOf(s, l, Probe(k) + Probe(k), 2.0)
  }

  /** Beyond the residual condition there is a batch that takes longer than its two microbatches. */
  lemma LongerRead(s: SystemConfig, chunked: bool, chunkOverride: int)
    returns (l: Layer, k: nat, t: Tally, w: Tally)
    requires ValidHardware(s) && HasScarceTier(s) && s.mfuHalf <= 0.0
    requires !ResidualWithinFill(s, chunked, chunkOverride, 2)
    ensures IsProbeOf(s, chunked, chunkOverride, l, k, t, w) && Total(w) > 2.0 * Total(t)
  {
    var lat := s.hbf.flashPageReadNs;
    var gap := ResidualNs(KvChunkBytes(s, chunked, chunkOverride), s.hbf.flashReadBandwidth, lat) - lat / 2.0;
    var n := SmallShare(s.hbf.flashPageProgramNs, gap);
    l := ProbeLayer(1, chunked, chunkOverride, 0, n);
    k := LongProbe(s, l, Max(TransferNs(2.0, Rate(s, 1.0)), ActNs(s, 1.0)));
    EvenReadGap(s, chunked, chunkOverride, k);
    BareWrite(s, l, 2);
    SameRate(s);
    ProbeTally(s, l, k);
    t, w := TallyOf(s, l, Probe(k), 1.0), TallyOf(s, l, Probe(k) + Probe(k), 2.0);
    LongerPair(s, w, t, gap);
  }

  // ---- Utilization that rises with the batch -------------------------------------------------------

  /** Nanoseconds per operation at full utilization. */
  function FlopNs(s: SystemConfig): (u: real)
    requires ValidHardware(s)
    ensures u > 0.0
  {
    TransferPositive(s.computePeakFlops * s.mfuMax);
    TransferNs(1.0, s.computePeakFlops * s.mfuMax)
  }

  lemma TransferPositive(bandwidth: real)
    requires bandwidth > 0.0
    ensures TransferNs(1.0, bandwidth) > 0.0
  {}

  /** What an operation takes m times, at the utilization of m tokens. */
  function SlowNs(s: SystemConfig, m: real): real
    requires ValidHardware(s)
  {
    (m + s.mfuHalf) * FlopNs(s)
  }

  lemma SaturatingTimes(s: SystemConfig, x: real)
    requires ValidHardware(s) && s.mfuHalf > 0.0
    ensures TransferNs(x, Rate(s, 1.0)) == x * SlowNs(s, 1.0)
    ensures 2.0 * TransferNs(x, Rate(s, 2.0)) == x * SlowNs(s, 2.0)
  {}

  lemma SaturatingTime(s: SystemConfig, x: real, m: real)
    requires ValidHardware(s) && s.mfuHalf > 0.0 && m > 0.0
    ensures m * TransferNs(x, Rate(s, m)) == x * SlowNs(s, m)
  {}

  /** What two tokens save by being computed together. */
  lemma SavedCompute(s: SystemConfig)
    requires ValidHardware(s) && s.mfuHalf > 0.0
    ensures 2.0 * SlowNs(s, 1.0) - SlowNs(s, 2.0) == s.mfuHalf * FlopNs(s) > 0.0
  {}

  lemma RateForm(s: SystemConfig, m: real)
    requires ValidHardware(s) && s.mfuHalf > 0.0 && m > 0.0
    ensures Rate(s, m) == s.computePeakFlops * s.mfuMax * m / (m + s.mfuHalf)
  {}

  lemma SlowedTransfer(x: real, p: real, m: real, h: real)
    requires p > 0.0 && m > 0.0 && h > 0.0
    ensures p * m / (m + h) > 0.0
    ensures m * TransferNs(x, p * m / (m + h)) == x * ((m + h) * TransferNs(1.0, p))
  {}

  /** One read of twice the size saves at most half a fill. */
  lemma ReadGap(s: SystemConfig, chunked: bool, chunkOverride: int, x: real)
    requires ValidHardware(s) && x >= 0.0
    ensures KvReadNs(s, x + x, chunked, chunkOverride, 2)
         >= 2.0 * KvReadNs(s, x, chunked, chunkOverride, 2) - s.hbf.flashPageReadNs / 2.0
  {
    var c, bw, lat := KvChunkBytes(s, chunked, chunkOverride), s.hbf.flashReadBandwidth, s.hbf.flashPageReadNs;
    TransferAdds(x, x, bw);
    RDivMono(0.0, lat, 2.0);
    HalfFill(x, c, bw, lat);
    HalfFill(x + x, c, bw, lat);
    ResidualsGap(x, c, bw, lat);
  }

  lemma ResidualsGap(x: real, c: real, bandwidth: real, latency: real)
    requires bandwidth > 0.0 && x >= 0.0
    ensures Residuals(x + x, c, bandwidth, latency) >= 2.0 * Residuals(x, c, bandwidth, latency)
  {
    var n, m, r := NumChunks(x, c), NumChunks(x + x, c), ResidualNs(c, bandwidth, latency);
    assert m - 1 >= 2 * (n - 1) by {
      if c > 0.0 {
        assert (x + x) / c == x / c + x / c;
        CeilBounds(x / c);
        CeilBounds(x / c + x / c);
      }
    }
    RMulMono(2.0 * (n - 1) as real, (m - 1) as real, r);
  }

  /** Twice the compute of x operations that two tokens save, less what their softmax saves; g for one operation. */
  function Gain(x: real, g: real): real { (2.0 * x - 7.0) * g }

  /** The difference once reads limit the phases and no write is hidden; slow1 and slow2 are what an operation
      takes at one token, and twice what it takes at two. */
  lemma UnhiddenGap(s: SystemConfig, w: Tally, t: Tally, x: real, slow1: real, slow2: real, saved: real, prog: real)
    requires Overlaps(s) && Consistent(s, w) && Consistent(s, t) && slow2 <= 2.0 * slow1
    requires t.compute <= t.second && t.first <= t.second && t.write >= t.hiding
    requires w.second >= 2.0 * t.second - saved && w.write == 2.0 * t.write - prog
    requires t.compute == x * slow1 && w.compute == x * slow2 && t.soft == 7.0 * slow1 && w.soft == 7.0 * slow2
    requires t.hiding == 2.0 * t.compute + (if s.kvWriteSoftmaxHide then t.soft else 0.0)
    requires w.hiding == 2.0 * w.compute + (if s.kvWriteSoftmaxHide then w.soft else 0.0)
    ensures Total(w) >= 2.0 * Total(t) - 2.0 * saved - prog + Gain(x, 2.0 * slow1 - slow2)
  {}

  /** A layer width at which the saved compute outweighs the fill, the program latency and the softmax. */
  lemma WideEnough(costs: real, g: real) returns (d: nat)
    requires costs >= 0.0 && g > 0.0
    ensures d >= 1 && Gain((2 * d) as real, g) > costs
  {
    var x := costs / g;
    d := x.Floor + 3;
    assert 2.0 * (2 * d) as real - 7.0 > x;
    RMulStrict(x, 2.0 * (2 * d) as real - 7.0, g);
    assert x * g == costs;
  }

  /** A prompt length at which the KV write of two sequences takes at least this long. */
  lemma LongWrite(s: SystemConfig, width: nat, chunked: bool, chunkOverride: int, ns: real) returns (l: Layer)
    requires ValidHardware(s) && HasScarceTier(s) && width >= 1
    ensures IsProbe(l) && l.headDim == width && l.chunked == chunked && l.chunkOverride == chunkOverride
    ensures KvWriteNs(s, l, 2) >= ns
    ensures KvWriteNs(s, l, 4) == 2.0 * KvWriteNs(s, l, 2) - s.hbf.flashPageProgramNs
  {
    var bytes := ns / GIGA * s.hbf.flashWriteBandwidth;
    var len: nat := if bytes > 0.0 then bytes.Floor + 1 else 1;
    l := ProbeLayer(width, chunked, chunkOverride, len, 1);
    WriteIsAffine(s, l, 2);
    WriteIsAffine(s, l, 4);
    assert s.hbf.flashPageProgramNs / 1.0 == s.hbf.flashPageProgramNs;
    ProbeSlope(s, l, bytes);
    assert TransferNs(bytes, s.hbf.flashWriteBandwidth) == ns;
  }

  lemma ProbeSlope(s: SystemConfig, l: Layer, bytes: real)
    requires ValidHardware(s) && IsProbe(l) && l.headDim >= 1 && l.inputLen >= 1 && l.inputLen as real >= bytes
    ensures 2.0 * WriteSlope(s, l) >= TransferNs(bytes, s.hbf.flashWriteBandwidth)
    ensures WriteSlope(s, l) >= 0.0
  {}

  /** KV reads limit the probe's phases, and compute does not hide its KV write. */
  predicate ReadAndWriteBound(s: SystemConfig, l: Layer, k: nat)
    requires ValidHardware(s)
  {
    var compute, read := TransferNs((2 * l.headDim) as real, Rate(s, 1.0)),
                         KvReadNs(s, (l.headDim * k) as real, l.chunked, l.chunkOverride, 2);
    && compute <= read && ActNs(s, l.headDim as real) <= read
    && KvWriteNs(s, l, 2) >= 2.0 * compute + TransferNs(7.0, Rate(s, 1.0))
    && KvWriteNs(s, l, 4) == 2.0 * KvWriteNs(s, l, 2) - s.hbf.flashPageProgramNs
  }

  lemma ProbeComputes(s: SystemConfig, l: Layer, k: nat, t: Tally, w: Tally)
    requires ValidHardware(s) && s.mfuHalf > 0.0 && ProbeTallies(s, l, k, t, w)
    ensures var x, slow1, slow2 := (2 * l.headDim) as real, SlowNs(s, 1.0), SlowNs(s, 2.0);
      t.compute == x * slow1 && w.compute == x * slow2 && t.soft == 7.0 * slow1 && w.soft == 7.0 * slow2
  {
    SaturatingTimes(s, (2 * l.headDim) as real);
    SaturatingTimes(s, 7.0);
  }

  lemma ProbeMoves(s: SystemConfig, l: Layer, k: nat, t: Tally, w: Tally)
    requires ValidHardware(s) && ReadAndWriteBound(s, l, k) && ProbeTallies(s, l, k, t, w)
    ensures t.compute <= t.second && t.first <= t.second && t.write >= t.hiding
    ensures w.second >= 2.0 * t.second - s.hbf.flashPageReadNs / 2.0
    ensures w.write == 2.0 * t.write - s.hbf.flashPageProgramNs
  {
    RateNonNegative(7.0, Rate(s, 1.0));
    ReadGap(s, l.chunked, l.chunkOverride, (l.headDim * k) as real);
  }

  /** All that the difference between t and w depends on. */
  ghost predicate GapFacts(s: SystemConfig, x: real, slow1: real, slow2: real, t: Tally, w: Tally) {
    && Overlaps(s) && Consistent(s, t) && Consistent(s, w)
    && t.compute <= t.second && t.first <= t.second && t.write >= t.hiding
    && w.second >= 2.0 * t.second - s.hbf.flashPageReadNs / 2.0
    && w.write == 2.0 * t.write - s.hbf.flashPageProgramNs
    && t.compute == x * slow1 && w.compute == x * slow2 && t.soft == 7.0 * slow1 && w.soft == 7.0 * slow2
    && t.hiding == 2.0 * t.compute + (if s.kvWriteSoftmaxHide then t.soft else 0.0)
    && w.hiding == 2.0 * w.compute + (if s.kvWriteSoftmaxHide then w.soft else 0.0)
  }

  lemma ProbeGapFacts(s: SystemConfig, l: Layer, k: nat, t: Tally, w: Tally)
    requires ValidHardware(s) && HasScarceTier(s) && s.mfuHalf > 0.0
    requires ReadAndWriteBound(s, l, k) && ProbeTallies(s, l, k, t, w)
    ensures GapFacts(s, (2 * l.headDim) as real, SlowNs(s, 1.0), SlowNs(s, 2.0), t, w)
  {
    ProbeComputes(s, l, k, t, w);
    ProbeMoves(s, l, k, t, w);
  }

  lemma UnhiddenProbe(s: SystemConfig, x: real, slow1: real, slow2: real, t: Tally, w: Tally)
    requires GapFacts(s, x, slow1, slow2, t, w) && slow2 <= 2.0 * slow1
    requires Gain(x, 2.0 * slow1 - slow2) > s.hbf.flashPageReadNs + s.hbf.flashPageProgramNs
    ensures Total(w) > 2.0 * Total(t)
  {}

  lemma BoundProbe(s: SystemConfig, chunked: bool, chunkOverride: int, d: nat) returns (l: Layer, k: nat)
    requires ValidHardware(s) && HasScarceTier(s) && d >= 1
    ensures k >= 1 && IsProbe(l) && l.chunked == chunked && l.chunkOverride == chunkOverride && l.headDim == d
    ensures ReadAndWriteBound(s, l, k)
  {
    var compute := TransferNs((2 * d) as real, Rate(s, 1.0));
    l := LongWrite(s, d, chunked, chunkOverride, 2.0 * compute + TransferNs(7.0, Rate(s, 1.0)));
    var ns := Max(compute, ActNs(s, d as real));
    k := BytesFor(s, ns);
    MulMono(1, d, k);
    LongRead(s, chunked, chunkOverride, ns, d * k);
  }

  lemma GapProbe(s: SystemConfig, chunked: bool, chunkOverride: int, d: nat)
    returns (l: Layer, k: nat, t: Tally, w: Tally)
    requires ValidHardware(s) && HasScarceTier(s) && s.mfuHalf > 0.0 && d >= 1
    ensures IsProbeOf(s, chunked, chunkOverride, l, k, t, w)
    ensures GapFacts(s, (2 * d) as real, SlowNs(s, 1.0), SlowNs(s, 2.0), t, w)
  {
    l, k := BoundProbe(s, chunked, chunkOverride, d);
    ProbeTally(s, l, k);
    t, w := TallyOf(s, l, Probe(k), 1.0), TallyOf(s, l, Probe(k) + Probe(k), 2.0);
    ProbeGapFacts(s, l, k, t, w);
  }

  /** With utilization that rises with the batch there is a batch that takes longer, whatever the flash timing. */
  lemma LongerWrite(s: SystemConfig, chunked: bool, chunkOverride: int)
    returns (l: Layer, k: nat, t: Tally, w: Tally)
    requires ValidHardware(s) && HasScarceTier(s) && s.mfuHalf > 0.0
    ensures IsProbeOf(s, chunked, chunkOverride, l, k, t, w) && Total(w) > 2.0 * Total(t)
  {
    SavedCompute(s);
    var slow1, slow2 := SlowNs(s, 1.0), SlowNs(s, 2.0);
    var d := WideEnough(s.hbf.flashPageReadNs + s.hbf.flashPageProgramNs, 2.0 * slow1 - slow2);
    l, k, t, w := GapProbe(s, chunked, chunkOverride, d);
    UnhiddenProbe(s, (2 * d) as real, slow1, slow2, t, w);
  }

  lemma BytesFor(s: SystemConfig, ns: real) returns (k: nat)
    requires ValidHardware(s)
    ensures k >= 1 && k as real >= ns / GIGA * s.hbf.flashReadBandwidth
  {
    var bytes := ns / GIGA * s.hbf.flashReadBandwidth;
    k := if bytes > 0.0 then bytes.Floor + 1 else 1;
  }

  /** Main result. On flash, decode attention takes no longer for a batch than for its microbatches, for all layers
      with given chunk settings and all batches, exactly when utilization does not depend on the batch and a chunk's
      residual is within the half fill that each phase is charged. */
  lemma NeverLongerIff(s: SystemConfig, chunked: bool, chunkOverride: int)
    requires ValidHardware(s) && HasScarceTier(s)
    ensures NeverLonger(s, chunked, chunkOverride)
       <==> s.mfuHalf <= 0.0 && ResidualWithinFill(s, chunked, chunkOverride, 2)
  {
    if s.mfuHalf > 0.0 {
      var l, k, t, w := LongerWrite(s, chunked, chunkOverride);
      ProbePair(s, l, k);
    } else if !ResidualWithinFill(s, chunked, chunkOverride, 2) {
      var l, k, t, w := LongerRead(s, chunked, chunkOverride);
      ProbePair(s, l, k);
    } else {
      forall l: Layer, parts: seq<seq<Sequence>>
        | ValidLayer(l) && l.chunked == chunked && l.chunkOverride == chunkOverride && ValidParts(parts) && |parts| > 1
        ensures GenNs(s, l, Joined(parts)) <= SumNs(GenTimes(s, l, parts))
      {
        SplitBound(s, l, parts);
      }
    }
  }

  // ---- An input beyond the residual condition ------------------------------------------------------

  /** One flash stack with a staging buffer of 100 bytes and a page read of 1000 ns; 1 ns for every byte. */
  const SLOW_PAGES := SystemConfig(
    true, Hbf(1, 0, 100.0, 0.0, 0.0, 0.0, GIGA, GIGA, GIGA, GIGA, 1000.0, 0.0, false),
    GIGA, 0.0, false, 0.0, GIGA, false, 1000.0 * GIGA, 1.0, 0.0, 0, 1, false, false, false, true, true)

  /** One head of width 1 and one byte per element. */
  const HEAD := Layer(1, 1, 1, 1, 0, 1, true, false, 0, 0, 1, 1, 0.0)

  /** A sequence of 100 positions. */
  const DECODING := Sequence(1, 99)

  lemma SlowReads()
    ensures ValidHardware(SLOW_PAGES) && !ResidualWithinFill(SLOW_PAGES, false, 0, 2)
    ensures KvReadNs(SLOW_PAGES, 100.0, false, 0, 2) == 600.0 && KvReadNs(SLOW_PAGES, 200.0, false, 0, 2) == 1600.0
  {}

  lemma DecodingTally(batch: real)
    requires ValidHardware(SLOW_PAGES)
    ensures var s, t := SLOW_PAGES, TallyOf(SLOW_PAGES, HEAD, [DECODING], batch);
      && t.compute == TransferNs(200.0, Rate(s, batch)) && t.soft == TransferNs(700.0, Rate(s, batch)) && t.first == 1.0
      && t.second == KvReadNs(s, 100.0, false, 0, 2) && LoadOf(Costs(s, HEAD, [DECODING], batch)).kv == 100.0
  {
    var cs := Costs(SLOW_PAGES, HEAD, [DECODING], batch);
    assert cs == [CostOf(SLOW_PAGES, HEAD, DECODING, batch)] && cs[..0] == [];
    assert LoadOf(cs[..0]) == Load(0.0, 0.0, 0.0, 0.0) && SoftmaxNs(SLOW_PAGES, cs[..0]) == (0.0, 0.0);
    RateNonNegative(700.0, Rate(SLOW_PAGES, batch));
    assert Positions(HEAD, DECODING) == 100;
  }

  lemma SlowRate()
    requires ValidHardware(SLOW_PAGES)
    ensures Rate(SLOW_PAGES, 1.0) == Rate(SLOW_PAGES, 2.0) == 1000.0 * GIGA
    ensures TransferNs(200.0, 1000.0 * GIGA) <= 1.0
  {}

  lemma SlowTallies(t: Tally, w: Tally)
    requires ValidHardware(SLOW_PAGES)
    requires t == TallyOf(SLOW_PAGES, HEAD, [DECODING], 1.0)
    requires w == TallyOf(SLOW_PAGES, HEAD, [DECODING] + [DECODING], 2.0)
    ensures t.compute <= 1.0 && w.compute <= 2.0 && t.first == 1.0 && w.first == 2.0 && w.soft == 2.0 * t.soft
    ensures t.second == KvReadNs(SLOW_PAGES, 100.0, false, 0, 2) && w.second == KvReadNs(SLOW_PAGES, 200.0, false, 0, 2)
    ensures t.hiding >= 0.0 && w.hiding >= 0.0
  {
    SlowRate();
    DecodingTally(1.0);
    DecodingTally(2.0);
    DoubledTally(SLOW_PAGES, HEAD, [DECODING], 2.0);
    TallySigns(SLOW_PAGES, HEAD, [DECODING], 1.0);
    TallySigns(SLOW_PAGES, HEAD, [DECODING] + [DECODING], 2.0);
  }

  lemma SlowTotals(t: Tally, w: Tally)
    requires ValidHardware(SLOW_PAGES)
    requires t == TallyOf(SLOW_PAGES, HEAD, [DECODING], 1.0)
    requires w == TallyOf(SLOW_PAGES, HEAD, [DECODING] + [DECODING], 2.0)
    ensures Total(w) == 2.0 * Total(t) + 800.0
  {
    SlowReads();
    SlowTallies(t, w);
    TallyConsistent(SLOW_PAGES, HEAD, [DECODING], 1.0);
    TallyConsistent(SLOW_PAGES, HEAD, [DECODING] + [DECODING], 2.0);
    BareWrite(SLOW_PAGES, HEAD, 1);
    BareWrite(SLOW_PAGES, HEAD, 2);
  }

  /** Two microbatches of 100 KV bytes each. A phase takes 600 ns for one and 1600 ns for both, so the reconstruction
      charges 400 ns more than one microbatch takes. */
  lemma SmallBuffer()
    ensures var s, l, parts := SLOW_PAGES, HEAD, [[DECODING], [DECODING]];
      && ValidHardware(s) && ValidLayer(l) && ValidParts(parts)
      && GenNs(s, l, Joined(parts)) / 2.0 == SumNs(GenTimes(s, l, parts)) / 2.0 + 400.0
  {
    SlowReads();
    assert [DECODING][..0] == [];
    assert Tokens([DECODING]) == 1 by { assert Tokens([DECODING][..0]) == 0; }
    JoinedPair([DECODING]);
    PairTimes(SLOW_PAGES, HEAD, [DECODING]);
    WholePair(SLOW_PAGES, HEAD, [DECODING]);
    SlowTotals(TallyOf(SLOW_PAGES, HEAD, [DECODING], 1.0), TallyOf(SLOW_PAGES, HEAD, [DECODING] + [DECODING], 2.0));
  }
}
