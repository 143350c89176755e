/** Flash reads staged through a double buffer: the closed forms used everywhere, the prefetch
    schedule they stand for, and what they imply about chunk sizes and aggregation. */
module FlashTiming {
  import opened Arith
  import opened Hardware

  function Ceil(x: real): int { -((-x).Floor) }

  function NumChunks(size: real, chunk: real): (n: int)
    ensures n >= 1
  {
    var n := if chunk > 0.0 then Ceil(size / chunk) else 1;
    if n < 1 then 1 else n
  }

  function TransferNs(bytes: real, bandwidth: real): real
    requires bandwidth > 0.0
  {
    bytes / bandwidth * GIGA
  }

  /** The part of each further page read that the previous chunk's transfer cannot hide. */
  function ResidualNs(chunk: real, bandwidth: real, latency: real): real
    requires bandwidth > 0.0
  {
    Max(0.0, latency - TransferNs(chunk, bandwidth))
  }

  /** One read of size bytes: transfer, a share of the pipeline fill, and the per-chunk residuals. */
  function StreamNs(size: real, chunk: real, bandwidth: real, latency: real, amortize: int, hidden: bool): real
    requires bandwidth > 0.0 && amortize >= 1
  {
    TransferNs(size, bandwidth) +
    if hidden then 0.0
    else latency / amortize as real + (NumChunks(size, chunk) - 1) as real * ResidualNs(chunk, bandwidth, latency)
  }

  // ---- The schedule behind the closed form ------------------------------------------------------

  /** Bytes in chunk i: full chunks, then what is left. */
  function ChunkBytes(size: real, chunk: real, i: int): real {
    var n := NumChunks(size, chunk);
    if i < n - 1 then chunk else size - (n - 1) as real * chunk
  }

  /** When chunk i starts to transfer. The first page read is issued at time 0; the page read of chunk
      i + 1 is issued when chunk i starts; a transfer waits for its page and for the previous transfer. */
  function StartNs(size: real, chunk: real, bandwidth: real, latency: real, i: nat): real
    requires bandwidth > 0.0
  {
    if i == 0 then latency else
    var prev := StartNs(size, chunk, bandwidth, latency, i - 1);
    Max(prev + TransferNs(ChunkBytes(size, chunk, i - 1), bandwidth), prev + latency)
  }

  function FinishNs(size: real, chunk: real, bandwidth: real, latency: real): real
    requires bandwidth > 0.0
  {
    var last := NumChunks(size, chunk) - 1;
    StartNs(size, chunk, bandwidth, latency, last) + TransferNs(ChunkBytes(size, chunk, last), bandwidth)
  }

  lemma CeilBounds(x: real)
    ensures Ceil(x) as real - 1.0 < x <= Ceil(x) as real
  {}

  lemma DivBounds(size: real, chunk: real)
    requires size >= 0.0 && chunk > 0.0
    ensures var n := NumChunks(size, chunk);
      && (n - 1) as real * chunk <= size <= n as real * chunk
      && (size > 0.0 ==> (n - 1) as real * chunk < size)
  {
    var n, q := NumChunks(size, chunk), size / chunk;
    CeilBounds(q);
    assert q * chunk == size;
    RMulMono(q, n as real, chunk);
    if n > 1 { RMulStrict((n - 1) as real, q, chunk); }
  }

  /** The chunks of a read are all nonempty, none exceeds the buffer, and they add up to the read. */
  lemma ChunksPartition(size: real, chunk: real, i: nat)
    requires size > 0.0 && chunk > 0.0 && i < NumChunks(size, chunk)
    ensures 0.0 < ChunkBytes(size, chunk, i) <= chunk
    ensures var n := NumChunks(size, chunk);
      (n - 1) as real * chunk + ChunkBytes(size, chunk, n - 1) == size
  {
    DivBounds(size, chunk);
    var n := NumChunks(size, chunk);
    assert n as real * chunk == (n - 1) as real * chunk + chunk;
  }

  lemma {:induction false} StartClosedForm(size: real, chunk: real, bandwidth: real, latency: real, i: nat)
    requires bandwidth > 0.0 && i < NumChunks(size, chunk)
    ensures StartNs(size, chunk, bandwidth, latency, i) ==
            latency + i as real * Max(TransferNs(chunk, bandwidth), latency)
  {
    if i > 0 {
      StartClosedForm(size, chunk, bandwidth, latency, i - 1);
    }
  }

  lemma TransferSplits(n: int, chunk: real, size: real, bandwidth: real)
    requires bandwidth > 0.0
    ensures TransferNs(size - n as real * chunk, bandwidth) ==
            TransferNs(size, bandwidth) - n as real * TransferNs(chunk, bandwidth)
  {}

  /** The closed form is the finish time of the schedule, less the fill that neighbouring calls share;
      with an amortization of 1 it is the finish time itself. */
  lemma ClosedFormIsSchedule(size: real, chunk: real, bandwidth: real, latency: real, amortize: int)
    requires bandwidth > 0.0 && amortize >= 1
    ensures StreamNs(size, chunk, bandwidth, latency, amortize, false) ==
            FinishNs(size, chunk, bandwidth, latency) - (latency - latency / amortize as real)
    ensures StreamNs(size, chunk, bandwidth, latency, 1, false) == FinishNs(size, chunk, bandwidth, latency)
  {
    var n := NumChunks(size, chunk);
    StartClosedForm(size, chunk, bandwidth, latency, n - 1);
    TransferSplits(n - 1, chunk, size, bandwidth);
    var c, k := TransferNs(chunk, bandwidth), (n - 1) as real;
    assert k * Max(c, latency) == k * c + k * Max(0.0, latency - c) by {
      assert Max(c, latency) == c + Max(0.0, latency - c);
    }
    assert latency / 1.0 == latency;
  }

  // ---- The attention read -----------------------------------------------------------------------

  function KvChunkBytes(s: SystemConfig, chunked: bool, chunkOverride: int): real {
    var sram := SramBytes(s.hbf);
    var chunk := if chunkOverride > 0 then chunkOverride else s.chunkSize;
    if chunked && chunk > 0 then Min(chunk as real, sram) else sram
  }

  function KvReadNs(s: SystemConfig, kv: real, chunked: bool, chunkOverride: int, fillCalls: int): real
    requires ValidHardware(s)
  {
    StreamNs(kv, KvChunkBytes(s, chunked, chunkOverride), s.hbf.flashReadBandwidth, s.hbf.flashPageReadNs,
             AtLeastOne(fillCalls), s.paper2Mode)
  }

  function ActNs(s: SystemConfig, act: real): real
    requires ValidHardware(s)
  {
    TransferNs(act, ActBandwidth(s.hbf))
  }

  /** getAttentionMemoryDuration. */
  function AttentionReadNs(s: SystemConfig, kv: real, act: real, chunked: bool, chunkOverride: int,
                           fillCalls: int): real
    requires ValidHardware(s)
  {
    if HasScarceTier(s) then Max(KvReadNs(s, kv, chunked, chunkOverride, fillCalls), ActNs(s, act)) else 0.0
  }

  lemma ChunksAntitone(size: real, c0: real, c1: real)
    requires size >= 0.0 && 0.0 < c0 <= c1
    ensures NumChunks(size, c1) <= NumChunks(size, c0)
  {
    RDivAnti(size, c0, c1);
  }

  lemma ResidualAntitone(c0: real, c1: real, bandwidth: real, latency: real)
    requires bandwidth > 0.0 && c0 <= c1
    ensures ResidualNs(c1, bandwidth, latency) <= ResidualNs(c0, bandwidth, latency)
    ensures c0 < c1 && TransferNs(c0, bandwidth) < latency ==>
              ResidualNs(c1, bandwidth, latency) < ResidualNs(c0, bandwidth, latency)
  {}

  /** A larger chunk never reads slower. */
  lemma StreamAntitone(size: real, c0: real, c1: real, bandwidth: real, latency: real, amortize: int, hidden: bool)
    requires size >= 0.0 && 0.0 < c0 <= c1 && bandwidth > 0.0 && amortize >= 1
    ensures StreamNs(size, c1, bandwidth, latency, amortize, hidden) <=
            StreamNs(size, c0, bandwidth, latency, amortize, hidden)
  {
    ChunksAntitone(size, c0, c1);
    ResidualAntitone(c0, c1, bandwidth, latency);
    ProductOrder((NumChunks(size, c1) - 1) as real, (NumChunks(size, c0) - 1) as real,
                 ResidualNs(c1, bandwidth, latency), ResidualNs(c0, bandwidth, latency));
  }

  lemma ProductOrder(n1: real, n0: real, r1: real, r0: real)
    requires 0.0 <= n1 <= n0 && 0.0 <= r1 <= r0
    ensures n1 * r1 <= n0 * r0
  {}

  /** No chunk setting beats the full staging buffer; leaving both settings at 0 selects it. */
  lemma FullBufferIsOptimal(s: SystemConfig, kv: real, act: real, chunkOverride: int, fillCalls: int)
    requires ValidHardware(s) && kv >= 0.0
    ensures AttentionReadNs(s, kv, act, false, 0, fillCalls)
      <= AttentionReadNs(s, kv, act, true, chunkOverride, fillCalls)
    ensures chunkOverride <= 0 && s.chunkSize <= 0 ==>
      AttentionReadNs(s, kv, act, false, 0, fillCalls) == AttentionReadNs(s, kv, act, true, chunkOverride, fillCalls)
  {
    var c, sram := KvChunkBytes(s, true, chunkOverride), SramBytes(s.hbf);
    RMulMono(0.0, s.hbf.sramPerStackBytes, s.hbf.numFlashStacks as real);
    if sram > 0.0 {
      StreamAntitone(kv, c, sram, s.hbf.flashReadBandwidth, s.hbf.flashPageReadNs, AtLeastOne(fillCalls), s.paper2Mode);
    }
  }

  /** The effective chunk that checkMemorySize reports as the required double buffer (half of it). */
  function ReportedChunkBytes(s: SystemConfig): real {
    var delay := s.hbf.flashReadBandwidth * (s.hbf.flashPageReadNs / GIGA);
    Min(if s.chunkSize > 0 then s.chunkSize as real else delay, SramBytes(s.hbf))
  }

  lemma DelayBreaksEven(bandwidth: real, latency: real, chunk: real)
    requires bandwidth > 0.0
    ensures TransferNs(bandwidth * (latency / GIGA), bandwidth) == latency
    ensures chunk < bandwidth * (latency / GIGA) ==> TransferNs(chunk, bandwidth) < latency
    ensures chunk >= bandwidth * (latency / GIGA) ==> TransferNs(chunk, bandwidth) >= latency
  {}

  lemma SmallChunkIsSlower(size: real, c0: real, c1: real, bandwidth: real, latency: real, amortize: int)
    requires size >= 0.0 && 0.0 < c0 < c1 && bandwidth > 0.0 && amortize >= 1
    requires TransferNs(c0, bandwidth) < latency && NumChunks(size, c0) >= 2
    ensures StreamNs(size, c0, bandwidth, latency, amortize, false)
      > StreamNs(size, c1, bandwidth, latency, amortize, false)
  {
    ChunksAntitone(size, c0, c1);
    ResidualAntitone(c0, c1, bandwidth, latency);
    ProductsStrict((NumChunks(size, c1) - 1) as real, (NumChunks(size, c0) - 1) as real,
                   ResidualNs(c1, bandwidth, latency), ResidualNs(c0, bandwidth, latency));
  }

  lemma ProductsStrict(n1: real, n0: real, r1: real, r0: real)
    requires n1 <= n0 && 0.0 < n0 && 0.0 <= r1 < r0
    ensures n1 * r1 < n0 * r0
  {}

  lemma ZeroResidual(size: real, c0: real, c1: real, bandwidth: real, latency: real, amortize: int)
    requires bandwidth > 0.0 && amortize >= 1
    requires ResidualNs(c0, bandwidth, latency) == ResidualNs(c1, bandwidth, latency) == 0.0
    ensures StreamNs(size, c0, bandwidth, latency, amortize, false)
      == StreamNs(size, c1, bandwidth, latency, amortize, false)
  {}

  /** The reported minimal chunk reads as fast as the full buffer, and nothing smaller does: a smaller
      chunk is strictly slower on every read that it splits. */
  lemma ReportedChunkIsMinimal(s: SystemConfig, kv: real, chunk: real, amortize: int)
    requires ValidHardware(s) && kv >= 0.0 && amortize >= 1
    requires s.chunkSize <= 0 && !s.paper2Mode && s.hbf.flashPageReadNs > 0.0 && SramBytes(s.hbf) > 0.0
    ensures var bw, lat, best := s.hbf.flashReadBandwidth, s.hbf.flashPageReadNs, ReportedChunkBytes(s);
      && StreamNs(kv, best, bw, lat, amortize, false) == StreamNs(kv, SramBytes(s.hbf), bw, lat, amortize, false)
      && (0.0 < chunk < best && NumChunks(kv, chunk) >= 2 ==>
            StreamNs(kv, chunk, bw, lat, amortize, false) > StreamNs(kv, best, bw, lat, amortize, false))
  {
    var bw, lat, best, sram := s.hbf.flashReadBandwidth, s.hbf.flashPageReadNs, ReportedChunkBytes(s), SramBytes(s.hbf);
    DelayBreaksEven(bw, lat, best);
    DelayBreaksEven(bw, lat, sram);
    DelayBreaksEven(bw, lat, chunk);
    if best < sram {
      assert ResidualNs(best, bw, lat) == ResidualNs(sram, bw, lat) == 0.0;
      ZeroResidual(kv, best, sram, bw, lat, amortize);
    }
    if 0.0 < chunk < best && NumChunks(kv, chunk) >= 2 {
      SmallChunkIsSlower(kv, chunk, best, bw, lat, amortize);
    }
  }

  // ---- One call for the sum, or one call per sequence -------------------------------------------

  /** KV bytes and activation bytes of one sequence. */
  datatype Item = Item(kv: real, act: real)

  predicate NonNegative(items: seq<Item>) {
    forall i :: 0 <= i < |items| ==> items[i].kv >= 0.0 && items[i].act >= 0.0
  }

  function SumKv(items: seq<Item>): real { if items == [] then 0.0 else items[0].kv + SumKv(items[1..]) }

  function SumAct(items: seq<Item>): real { if items == [] then 0.0 else items[0].act + SumAct(items[1..]) }

  function SumCalls(s: SystemConfig, items: seq<Item>, chunked: bool, chunkOverride: int, fillCalls: int): real
    requires ValidHardware(s)
  {
    if items == [] then 0.0
    else AttentionReadNs(s, items[0].kv, items[0].act, chunked, chunkOverride, fillCalls)
         + SumCalls(s, items[1..], chunked, chunkOverride, fillCalls)
  }

  /** Charging the summed sizes once costs no more than charging each sequence. */
  ghost predicate AggregationNeverOvercharges(s: SystemConfig, chunked: bool, chunkOverride: int, fillCalls: int)
    requires ValidHardware(s)
  {
    forall items :: items != [] && NonNegative(items) ==>
      AttentionReadNs(s, SumKv(items), SumAct(items), chunked, chunkOverride, fillCalls)
        <= SumCalls(s, items, chunked, chunkOverride, fillCalls)
  }

  /** The residual of one chunk does not exceed one call's share of the fill. */
  predicate ResidualWithinFill(s: SystemConfig, chunked: bool, chunkOverride: int, fillCalls: int)
    requires ValidHardware(s)
  {
    var c := KvChunkBytes(s, chunked, chunkOverride);
    s.paper2Mode || c <= 0.0 ||
    ResidualNs(c, s.hbf.flashReadBandwidth, s.hbf.flashPageReadNs)
      <= s.hbf.flashPageReadNs / AtLeastOne(fillCalls) as real
  }

  lemma ChunksSubadditive(a: real, b: real, chunk: real)
    requires a >= 0.0 && b >= 0.0
    ensures NumChunks(a + b, chunk) <= NumChunks(a, chunk) + NumChunks(b, chunk)
  {
    if chunk > 0.0 {
      var x, y := a / chunk, b / chunk;
      assert (a + b) / chunk == x + y by { assert (x + y) * chunk == a + b; }
      CeilBounds(x); CeilBounds(y); CeilBounds(x + y);
    }
  }

  lemma TransferMono(a: real, b: real, bandwidth: real)
    requires bandwidth > 0.0 && a <= b
    ensures TransferNs(a, bandwidth) <= TransferNs(b, bandwidth)
  {}

  lemma TransferAdds(a: real, b: real, bandwidth: real)
    requires bandwidth > 0.0
    ensures TransferNs(a + b, bandwidth) == TransferNs(a, bandwidth) + TransferNs(b, bandwidth)
  {}

  lemma FillsAbsorbResiduals(fill: real, n: real, na: real, nb: real, r: real)
    requires n <= na + nb + 1.0 && 0.0 <= r <= fill
    ensures n * r <= na * r + nb * r + fill
  {
    RMulMono(n, na + nb + 1.0, r);
    assert (na + nb + 1.0) * r == na * r + nb * r + r;
  }

  lemma StreamSubadditive(a: real, b: real, c: real, bandwidth: real, latency: real, amortize: int, hidden: bool)
    requires a >= 0.0 && b >= 0.0 && bandwidth > 0.0 && latency >= 0.0 && amortize >= 1
    requires hidden || c <= 0.0 || ResidualNs(c, bandwidth, latency) <= latency / amortize as real
    ensures StreamNs(a + b, c, bandwidth, latency, amortize, hidden)
         <= StreamNs(a, c, bandwidth, latency, amortize, hidden) + StreamNs(b, c, bandwidth, latency, amortize, hidden)
  {
    TransferAdds(a, b, bandwidth);
    ChunksSubadditive(a, b, c);
    var r := ResidualNs(c, bandwidth, latency);
    var n, na, nb := (NumChunks(a + b, c) - 1) as real, (NumChunks(a, c) - 1) as real, (NumChunks(b, c) - 1) as real;
    var fill := latency / amortize as real;
    assert fill >= 0.0 by { RDivMono(0.0, latency, amortize as real); }
    if c > 0.0 {
      if !hidden { FillsAbsorbResiduals(fill, n, na, nb, r); }
    } else {
      assert n == na == nb == 0.0;
    }
  }

  lemma PairNeverOvercharges(s: SystemConfig, x: Item, y: Item, chunked: bool, chunkOverride: int, fillCalls: int)
    requires ValidHardware(s) && HasScarceTier(s) && ResidualWithinFill(s, chunked, chunkOverride, fillCalls)
    requires x.kv >= 0.0 && y.kv >= 0.0
    ensures AttentionReadNs(s, x.kv + y.kv, x.act + y.act, chunked, chunkOverride, fillCalls)
         <= AttentionReadNs(s, x.kv, x.act, chunked, chunkOverride, fillCalls)
          + AttentionReadNs(s, y.kv, y.act, chunked, chunkOverride, fillCalls)
  {
    TransferAdds(x.act, y.act, ActBandwidth(s.hbf));
    StreamSubadditive(x.kv, y.kv, KvChunkBytes(s, chunked, chunkOverride), s.hbf.flashReadBandwidth,
                      s.hbf.flashPageReadNs, AtLeastOne(fillCalls), s.paper2Mode);
  }

  lemma {:induction false} ListNeverOvercharges(s: SystemConfig, items: seq<Item>, chunked: bool, chunkOverride: int,
                                                fillCalls: int)
    requires ValidHardware(s) && HasScarceTier(s) && ResidualWithinFill(s, chunked, chunkOverride, fillCalls)
    requires items != [] && NonNegative(items)
    ensures SumKv(items) >= 0.0
    ensures AttentionReadNs(s, SumKv(items), SumAct(items), chunked, chunkOverride, fillCalls)
         <= SumCalls(s, items, chunked, chunkOverride, fillCalls)
  {
    if |items| > 1 {
      ListNeverOvercharges(s, items[1..], chunked, chunkOverride, fillCalls);
      PairNeverOvercharges(s, items[0], Item(SumKv(items[1..]), SumAct(items[1..])), chunked, chunkOverride, fillCalls);
    } else {
      assert items[1..] == [];
    }
  }

  /** Two reads of exactly one chunk each, aggregated, expose one residual and save one fill share. */
  lemma TwoFullChunks(s: SystemConfig, chunked: bool, chunkOverride: int, fillCalls: int)
    requires ValidHardware(s) && HasScarceTier(s) && KvChunkBytes(s, chunked, chunkOverride) > 0.0 && !s.paper2Mode
    ensures var c := KvChunkBytes(s, chunked, chunkOverride);
      var items := [Item(c, 0.0), Item(c, 0.0)];
      AttentionReadNs(s, SumKv(items), SumAct(items), chunked, chunkOverride, fillCalls)
        == SumCalls(s, items, chunked, chunkOverride, fillCalls)
           + ResidualNs(c, s.hbf.flashReadBandwidth, s.hbf.flashPageReadNs)
           - s.hbf.flashPageReadNs / AtLeastOne(fillCalls) as real
  {
    var c, bw := KvChunkBytes(s, chunked, chunkOverride), s.hbf.flashReadBandwidth;
    var items := [Item(c, 0.0), Item(c, 0.0)];
    assert items[1..] == [Item(c, 0.0)] && items[1..][1..] == [];
    var tail := items[1..];
    assert SumKv(tail) == c + SumKv(tail[1..]) && SumAct(tail) == 0.0 + SumAct(tail[1..]);
    assert SumCalls(s, tail, chunked, chunkOverride, fillCalls) ==
      AttentionReadNs(s, c, 0.0, chunked, chunkOverride, fillCalls)
      + SumCalls(s, tail[1..], chunked, chunkOverride, fillCalls);
    TransferAdds(c, c, bw);
    assert c / c == 1.0 && (c + c) / c == 2.0;
    assert NumChunks(c, c) == 1 && NumChunks(c + c, c) == 2;
    assert ActNs(s, 0.0) == 0.0;
    assert c / bw > 0.0;
    assert s.hbf.flashPageReadNs / AtLeastOne(fillCalls) as real >= 0.0;
    assert SumCalls(s, items, chunked, chunkOverride, fillCalls)
      == 2.0 * KvReadNs(s, c, chunked, chunkOverride, fillCalls);
  }

  /** Aggregation never over-charges exactly when the residual is within the fill share. */
  lemma AggregationIff(s: SystemConfig, chunked: bool, chunkOverride: int, fillCalls: int)
    requires ValidHardware(s) && HasScarceTier(s)
    ensures AggregationNeverOvercharges(s, chunked, chunkOverride, fillCalls)
       <==> ResidualWithinFill(s, chunked, chunkOverride, fillCalls)
    ensures fillCalls <= 1 ==> ResidualWithinFill(s, chunked, chunkOverride, fillCalls)
  {
    var c := KvChunkBytes(s, chunked, chunkOverride);
    if ResidualWithinFill(s, chunked, chunkOverride, fillCalls) {
      forall items | items != [] && NonNegative(items)
        ensures AttentionReadNs(s, SumKv(items), SumAct(items), chunked, chunkOverride, fillCalls)
             <= SumCalls(s, items, chunked, chunkOverride, fillCalls)
      {
        ListNeverOvercharges(s, items, chunked, chunkOverride, fillCalls);
      }
    } else {
      TwoFullChunks(s, chunked, chunkOverride, fillCalls);
      var items := [Item(c, 0.0), Item(c, 0.0)];
      assert NonNegative(items);
    }
    if c > 0.0 {
      assert c / s.hbf.flashReadBandwidth > 0.0;
      assert s.hbf.flashPageReadNs / 1.0 == s.hbf.flashPageReadNs;
    }
  }
}
