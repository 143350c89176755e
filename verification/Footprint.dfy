/** Resident intermediate data of one decode step: formulas, and how they scale with the batch. */
module Footprint {
  import opened Hardware

  /** Model dimensions; counts are reals because every formula computes in doubles. */
  datatype ModelDims = ModelDims(
    hidden: real, headDim: real, numHeads: real, numKvHeads: real, intermediate: real, expertIntermediate: real,
    precision: real, numRoutedExpert: real, numSharedExpert: real, topK: real, firstKDense: int, expertFreq: int,
    qLora: real, kvLora: real, qkNope: real, qkRope: real, expertTp: real, attnChunk: real,
    compressedKv: bool, useAbsorb: bool)

  predicate ValidDims(m: ModelDims) {
    && m.hidden >= 0.0 && m.headDim >= 0.0 && m.numHeads >= 0.0 && m.numKvHeads >= 0.0 && m.intermediate >= 0.0
    && m.expertIntermediate >= 0.0 && m.precision >= 0.0 && m.numRoutedExpert >= 0.0 && m.numSharedExpert >= 0.0
    && m.topK >= 0.0 && m.qLora >= 0.0 && m.kvLora >= 0.0 && m.qkNope >= 0.0 && m.qkRope >= 0.0
    && m.expertTp >= 0.0 && m.attnChunk >= 0.0
  }

  /** A tensor of the given width per sequence, split over tp devices. */
  function Sharded(batch: real, width: real, tp: real): real
    requires tp > 0.0
  {
    batch * width / tp
  }

  /** A tensor of the given width per sequence, whole on every device. */
  function Wide(batch: real, width: real): real { batch * width }

  function ExpertTp(m: ModelDims): (t: real)
    ensures t > 0.0
  {
    if m.expertTp > 0.0 then m.expertTp else 1.0
  }

  /** Total size of tensors that are live together. */
  function Sum(ts: seq<real>): real { if ts == [] then 0.0 else Sum(ts[..|ts| - 1]) + ts[|ts| - 1] }

  // Widths per sequence, in elements.
  function MlaQuery(m: ModelDims): real { (3.0 * m.qkRope + m.qkNope) * m.numHeads }
  function GqaQuery(m: ModelDims): real { (3.0 * m.qkRope + m.headDim) * m.numHeads }
  function GqaKv(m: ModelDims): real { 2.0 * m.headDim * m.numKvHeads }
  function Context(m: ModelDims): real { m.numHeads * m.headDim }
  function UpKeys(m: ModelDims): real { m.numHeads * m.kvLora }

  /** Live elements of the attention phase. Absorbed attention peaks before or after the scores; the
      other forms keep every output live together. */
  function AttentionElements(m: ModelDims, b: real, tp: real): real
    requires tp > 0.0
  {
    var h, kv, rope := Wide(b, m.hidden), Wide(b, m.kvLora), Wide(b, m.qkRope);
    if m.useAbsorb then
      var up := Sharded(b, UpKeys(m), tp);
      Max(Sum([h, kv, rope, Sharded(b, MlaQuery(m), tp), up]), Sum([h, up, Sharded(b, Context(m), tp), h]))
    else if m.compressedKv then
      Sum([h, Wide(b, m.qLora), kv, rope, Sharded(b, MlaQuery(m), tp), Sharded(b, Context(m), tp), h])
    else
      Sum([h, Wide(b, m.qLora), kv, rope, Sharded(b, GqaQuery(m), tp), Sharded(b, GqaKv(m), tp),
           Sharded(b, Context(m), tp), h])
  }

  /** Outputs of one expert that sees n tokens: gate and silu, up, down. */
  function ExpertElements(m: ModelDims, n: real, tp: real): real
    requires tp > 0.0
  {
    Sum([Sharded(n, m.expertIntermediate, tp), Sharded(n, m.expertIntermediate, tp),
         Sharded(n, m.expertIntermediate, tp), Wide(n, m.hidden)])
  }

  function RoutedElements(m: ModelDims, b: real, tp: real, expertBatch: real, experts: real): real
    requires tp > 0.0
  {
    Sum([Wide(ExpertElements(m, expertBatch, ExpertTp(m)), experts), Wide(ExpertElements(m, b, tp), m.numSharedExpert)])
  }

  function DenseElements(m: ModelDims, b: real, tp: real): real
    requires tp > 0.0
  {
    Sum([Sharded(b, 2.0 * m.intermediate, tp), Wide(b, m.hidden)])
  }

  /** Live elements of the feed-forward phase, the residual carries included. */
  function FfnElements(m: ModelDims, b: real, tp: real, expertBatch: real, experts: real, moe: bool, dense: bool): real
    requires tp > 0.0
  {
    Sum([Max(if moe && m.numRoutedExpert > 0.0 then RoutedElements(m, b, tp, expertBatch, experts) else 0.0,
             if dense then DenseElements(m, b, tp) else 0.0),
         Wide(b, m.hidden),
         if moe && m.numSharedExpert > 0.0 then Wide(b, m.hidden) else 0.0])
  }

  /** peakIntermediateBytes: the largest of the two phases and the out-of-place residual add. */
  function PeakBytes(m: ModelDims, b: real, tp: real, expertBatch: real, experts: real, moe: bool, dense: bool): real
    requires tp > 0.0
  {
    Wide(Max(Max(AttentionElements(m, b, tp), FfnElements(m, b, tp, expertBatch, experts, moe, dense)),
             Wide(b, 3.0 * m.hidden)),
         m.precision)
  }

  /** The materialized score and softmax sheet of one sequence. */
  function ScorePerSeq(m: ModelDims, tp: real, seqLen: real): real
    requires tp > 0.0
  {
    2.0 * (m.numHeads / tp) * (if m.attnChunk > 0.0 then Min(seqLen, m.attnChunk) else seqLen) * m.precision
  }

  /** scoreInclusiveIntermediateBytes. */
  function ScoreInclusiveBytes(m: ModelDims, b: real, tp: real, expertBatch: real, experts: real, moe: bool,
                               dense: bool, seqLen: real): real
    requires tp > 0.0
  {
    Sum([PeakBytes(m, b, tp, expertBatch, experts, moe, dense), Wide(b, ScorePerSeq(m, tp, seqLen))])
  }

  predicate HasDenseFfnLayer(m: ModelDims) {
    m.numRoutedExpert <= 0.0 || m.firstKDense > 0 || m.expertFreq > 1
  }

  /** kvWriteStagingBytes of one sequence: its new token's K and V for every layer of the stage. */
  function KvStagingPerSeq(m: ModelDims, tp: real, layers: real): real
    requires tp > 0.0
  {
    (if m.compressedKv then (m.kvLora + m.qkRope) * m.precision
     else (m.numKvHeads / tp) * (2.0 * m.headDim + m.qkRope) * m.precision) * layers
  }

  /** Compute tiles and communication scratch per sequence. */
  function ScratchPerSeq(m: ModelDims, tp: real, flashAttention: bool): real
    requires tp > 0.0
  {
    (if flashAttention then m.numHeads / tp * 256.0 * m.precision else 0.0)
    + m.hidden / tp * m.precision
    + (if m.numRoutedExpert > 0.0
       then m.topK * m.hidden * m.precision + m.topK * (m.expertIntermediate / ExpertTp(m)) * m.precision else 0.0)
    + 2048.0 * m.precision
  }

  /** intermediateExtrasBytes. */
  function ExtrasBytes(m: ModelDims, b: real, tp: real, layers: real, flashAttention: bool): real
    requires tp > 0.0
  {
    Sum([Wide(b, KvStagingPerSeq(m, tp, layers)), Wide(b, ScratchPerSeq(m, tp, flashAttention))])
  }

  // ---- Homogeneity -------------------------------------------------------------------------------

  function Scaled(k: real, x: real): real { k * x }

  lemma ShardedScales(k: real, b: real, width: real, tp: real)
    requires tp > 0.0
    ensures Sharded(Scaled(k, b), width, tp) == Scaled(k, Sharded(b, width, tp))
  {}

  lemma WideScales(k: real, b: real, width: real)
    ensures Wide(Scaled(k, b), width) == Scaled(k, Wide(b, width))
  {}

  lemma MaxScales(k: real, a: real, b: real)
    requires k >= 0.0
    ensures Max(Scaled(k, a), Scaled(k, b)) == Scaled(k, Max(a, b))
  {}

  lemma ScaledAdds(k: real, a: real, b: real)
    ensures Scaled(k, a + b) == Scaled(k, a) + Scaled(k, b) && Scaled(k, 0.0) == 0.0
  {}

  lemma {:induction false} SumScales(k: real, ts: seq<real>, us: seq<real>)
    requires |ts| == |us| && forall i :: 0 <= i < |ts| ==> us[i] == Scaled(k, ts[i])
    ensures Sum(us) == Scaled(k, Sum(ts))
  {
    ScaledAdds(k, 0.0, 0.0);
    if ts != [] {
      var n := |ts| - 1;
      SumScales(k, ts[..n], us[..n]);
      ScaledAdds(k, Sum(ts[..n]), ts[n]);
    }
  }

  lemma AttentionScales(m: ModelDims, k: real, b: real, tp: real)
    requires tp > 0.0 && k >= 0.0
    ensures AttentionElements(m, Scaled(k, b), tp) == Scaled(k, AttentionElements(m, b, tp))
  {
    WideScales(k, b, m.hidden);
    WideScales(k, b, m.kvLora);
    WideScales(k, b, m.qLora);
    WideScales(k, b, m.qkRope);
    ShardedScales(k, b, Context(m), tp);
    ShardedScales(k, b, UpKeys(m), tp);
    ShardedScales(k, b, MlaQuery(m), tp);
    ShardedScales(k, b, GqaQuery(m), tp);
    ShardedScales(k, b, GqaKv(m), tp);
    var h, q, kv, r := Wide(b, m.hidden), Wide(b, m.qLora), Wide(b, m.kvLora), Wide(b, m.qkRope);
    var c, u, mq := Sharded(b, Context(m), tp), Sharded(b, UpKeys(m), tp), Sharded(b, MlaQuery(m), tp);
    var gq, gkv := Sharded(b, GqaQuery(m), tp), Sharded(b, GqaKv(m), tp);
    if m.useAbsorb {
      SumScales(k, [h, kv, r, mq, u], [Scaled(k, h), Scaled(k, kv), Scaled(k, r), Scaled(k, mq), Scaled(k, u)]);
      SumScales(k, [h, u, c, h], [Scaled(k, h), Scaled(k, u), Scaled(k, c), Scaled(k, h)]);
      MaxScales(k, Sum([h, kv, r, mq, u]), Sum([h, u, c, h]));
    } else if m.compressedKv {
      SumScales(k, [h, q, kv, r, mq, c, h],
        [Scaled(k, h), Scaled(k, q), Scaled(k, kv), Scaled(k, r), Scaled(k, mq), Scaled(k, c), Scaled(k, h)]);
    } else {
      SumScales(k, [h, q, kv, r, gq, gkv, c, h],
        [Scaled(k, h), Scaled(k, q), Scaled(k, kv), Scaled(k, r), Scaled(k, gq), Scaled(k, gkv), Scaled(k, c),
         Scaled(k, h)]);
    }
  }

  lemma ExpertScales(m: ModelDims, k: real, n: real, tp: real, count: real)
    requires tp > 0.0
    ensures Wide(ExpertElements(m, Scaled(k, n), tp), count) == Scaled(k, Wide(ExpertElements(m, n, tp), count))
  {
    ShardedScales(k, n, m.expertIntermediate, tp);
    WideScales(k, n, m.hidden);
    var x, h := Sharded(n, m.expertIntermediate, tp), Wide(n, m.hidden);
    SumScales(k, [x, x, x, h], [Scaled(k, x), Scaled(k, x), Scaled(k, x), Scaled(k, h)]);
    WideScales(k, ExpertElements(m, n, tp), count);
  }

  lemma FfnScales(m: ModelDims, k: real, b: real, tp: real, expertBatch: real, experts: real, moe: bool, dense: bool)
    requires tp > 0.0 && k >= 0.0
    ensures FfnElements(m, Scaled(k, b), tp, Scaled(k, expertBatch), experts, moe, dense) ==
            Scaled(k, FfnElements(m, b, tp, expertBatch, experts, moe, dense))
  {
    WideScales(k, b, m.hidden);
    var h := Wide(b, m.hidden);
    RoutedScales(m, k, b, tp, expertBatch, experts);
    var routed := if moe && m.numRoutedExpert > 0.0 then RoutedElements(m, b, tp, expertBatch, experts) else 0.0;
    DenseScales(m, k, b, tp);
    var plain := if dense then DenseElements(m, b, tp) else 0.0;
    var shared := if moe && m.numSharedExpert > 0.0 then h else 0.0;
    ScaledAdds(k, 0.0, 0.0);
    MaxScales(k, routed, plain);
    SumScales(k, [Max(routed, plain), h, shared],
              [Max(Scaled(k, routed), Scaled(k, plain)), Scaled(k, h), Scaled(k, shared)]);
  }

  lemma RoutedScales(m: ModelDims, k: real, b: real, tp: real, expertBatch: real, experts: real)
    requires tp > 0.0
    ensures RoutedElements(m, Scaled(k, b), tp, Scaled(k, expertBatch), experts) ==
            Scaled(k, RoutedElements(m, b, tp, expertBatch, experts))
  {
    ExpertScales(m, k, expertBatch, ExpertTp(m), experts);
    ExpertScales(m, k, b, tp, m.numSharedExpert);
    var x, y := Wide(ExpertElements(m, expertBatch, ExpertTp(m)), experts),
                Wide(ExpertElements(m, b, tp), m.numSharedExpert);
    SumScales(k, [x, y], [Scaled(k, x), Scaled(k, y)]);
  }

  lemma DenseScales(m: ModelDims, k: real, b: real, tp: real)
    requires tp > 0.0
    ensures DenseElements(m, Scaled(k, b), tp) == Scaled(k, DenseElements(m, b, tp))
  {
    ShardedScales(k, b, 2.0 * m.intermediate, tp);
    WideScales(k, b, m.hidden);
    var x, y := Sharded(b, 2.0 * m.intermediate, tp), Wide(b, m.hidden);
    SumScales(k, [x, y], [Scaled(k, x), Scaled(k, y)]);
  }

  /** The peak is homogeneous in the batch, through every branch and maximum. */
  lemma PeakScales(m: ModelDims, k: real, b: real, tp: real, expertBatch: real, experts: real, moe: bool, dense: bool)
    requires tp > 0.0 && k >= 0.0
    ensures PeakBytes(m, Scaled(k, b), tp, Scaled(k, expertBatch), experts, moe, dense) ==
            Scaled(k, PeakBytes(m, b, tp, expertBatch, experts, moe, dense))
  {
    AttentionScales(m, k, b, tp);
    FfnScales(m, k, b, tp, expertBatch, experts, moe, dense);
    WideScales(k, b, 3.0 * m.hidden);
    var a, f, r := AttentionElements(m, b, tp), FfnElements(m, b, tp, expertBatch, experts, moe, dense),
                   Wide(b, 3.0 * m.hidden);
    MaxScales(k, a, f);
    MaxScales(k, Max(a, f), r);
    WideScales(k, Max(Max(a, f), r), m.precision);
  }

  lemma ScoreInclusiveScales(m: ModelDims, k: real, b: real, tp: real, expertBatch: real, experts: real, moe: bool,
                             dense: bool, seqLen: real)
    requires tp > 0.0 && k >= 0.0
    ensures ScoreInclusiveBytes(m, Scaled(k, b), tp, Scaled(k, expertBatch), experts, moe, dense, seqLen) ==
            Scaled(k, ScoreInclusiveBytes(m, b, tp, expertBatch, experts, moe, dense, seqLen))
  {
    PeakScales(m, k, b, tp, expertBatch, experts, moe, dense);
    WideScales(k, b, ScorePerSeq(m, tp, seqLen));
    var x, y := PeakBytes(m, b, tp, expertBatch, experts, moe, dense), Wide(b, ScorePerSeq(m, tp, seqLen));
    SumScales(k, [x, y], [Scaled(k, x), Scaled(k, y)]);
  }

  lemma ExtrasScale(m: ModelDims, k: real, b: real, tp: real, layers: real, flashAttention: bool)
    requires tp > 0.0
    ensures ExtrasBytes(m, Scaled(k, b), tp, layers, flashAttention)
      == Scaled(k, ExtrasBytes(m, b, tp, layers, flashAttention))
  {
    WideScales(k, b, KvStagingPerSeq(m, tp, layers));
    WideScales(k, b, ScratchPerSeq(m, tp, flashAttention));
    var x, y := Wide(b, KvStagingPerSeq(m, tp, layers)), Wide(b, ScratchPerSeq(m, tp, flashAttention));
    SumScales(k, [x, y], [Scaled(k, x), Scaled(k, y)]);
  }

  // ---- Signs -------------------------------------------------------------------------------------

  lemma PeakNonNegative(m: ModelDims, b: real, tp: real, expertBatch: real, experts: real, moe: bool, dense: bool)
    requires ValidDims(m) && tp > 0.0 && b >= 0.0
    ensures PeakBytes(m, b, tp, expertBatch, experts, moe, dense) >= 0.0
  {
    assert Wide(b, 3.0 * m.hidden) >= 0.0;
  }

  lemma ScoreInclusiveNonNegative(m: ModelDims, b: real, tp: real, expertBatch: real, experts: real, moe: bool,
                                  dense: bool, seqLen: real)
    requires ValidDims(m) && tp > 0.0 && b >= 0.0 && seqLen >= 0.0
    ensures ScoreInclusiveBytes(m, b, tp, expertBatch, experts, moe, dense, seqLen) >= 0.0
  {
    PeakNonNegative(m, b, tp, expertBatch, experts, moe, dense);
    var len := if m.attnChunk > 0.0 then Min(seqLen, m.attnChunk) else seqLen;
    assert 2.0 * (m.numHeads / tp) * len >= 0.0;
    assert ScorePerSeq(m, tp, seqLen) >= 0.0;
    SumOfTwo(PeakBytes(m, b, tp, expertBatch, experts, moe, dense), Wide(b, ScorePerSeq(m, tp, seqLen)));
  }

  lemma SumOfTwo(x: real, y: real)
    ensures Sum([x, y]) == x + y
  {
    assert [x, y][..1] == [x] && [x][..0] == [];
    assert Sum([x]) == Sum([x][..0]) + x;
  }

  lemma ExtrasNonNegative(m: ModelDims, b: real, tp: real, layers: real, flashAttention: bool)
    requires ValidDims(m) && tp > 0.0 && b >= 0.0 && layers >= 0.0
    ensures ExtrasBytes(m, b, tp, layers, flashAttention) >= 0.0
  {
    assert m.numKvHeads / tp >= 0.0 && m.numHeads / tp >= 0.0 && m.hidden / tp >= 0.0;
    assert (m.numKvHeads / tp) * (2.0 * m.headDim + m.qkRope) >= 0.0;
    assert KvStagingPerSeq(m, tp, layers) >= 0.0;
    assert m.numHeads / tp * 256.0 * m.precision >= 0.0 && m.hidden / tp * m.precision >= 0.0;
    assert m.topK * m.hidden >= 0.0 && m.expertIntermediate / ExpertTp(m) >= 0.0;
    assert m.topK * (m.expertIntermediate / ExpertTp(m)) >= 0.0;
    assert m.topK * m.hidden * m.precision >= 0.0 && m.topK * (m.expertIntermediate / ExpertTp(m)) * m.precision >= 0.0;
    assert ScratchPerSeq(m, tp, flashAttention) >= 0.0;
    SumOfTwo(Wide(b, KvStagingPerSeq(m, tp, layers)), Wide(b, ScratchPerSeq(m, tp, flashAttention)));
  }
}
