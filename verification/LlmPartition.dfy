/** How a model is cut into pipeline stages, and what flows through them. */
module LlmPartition {
  import opened Arith

  datatype ModelShape = ModelShape(numLayers: nat, pp: nat, tp: nat,
                                   numRoutedExpert: nat, firstKDense: nat, expertFreq: nat)

  predicate ValidShape(mc: ModelShape) { mc.pp >= 1 && mc.tp >= 1 }

  /** A module of the graph, or equally the op that it applies. */
  datatype Layer = Embedding | MoeDecoder(layer: nat) | DenseDecoder(layer: nat) | PipelineHop | LmHead

  predicate IsMoeLayer(mc: ModelShape, layer: nat) {
    mc.numRoutedExpert != 0 && !(mc.firstKDense > 0 && layer < mc.firstKDense) &&
    (mc.expertFreq == 0 || layer % mc.expertFreq == 0)
  }

  function DecoderOf(mc: ModelShape, layer: nat): Layer {
    if IsMoeLayer(mc, layer) then MoeDecoder(layer) else DenseDecoder(layer)
  }

  function StageOf(mc: ModelShape, rank: nat): (st: nat)
    requires ValidShape(mc)
    ensures st < mc.pp
  {
    (rank / mc.tp) % mc.pp
  }

  function StartLayer(mc: ModelShape, stage: nat): nat
    requires ValidShape(mc)
  {
    stage * (mc.numLayers / mc.pp)
  }

  function EndLayer(mc: ModelShape, stage: nat): nat
    requires ValidShape(mc)
  {
    if stage == mc.pp - 1 then mc.numLayers else StartLayer(mc, stage) + mc.numLayers / mc.pp
  }

  function Decoders(mc: ModelShape, from: nat, upTo: nat): seq<Layer> {
    if from >= upTo then [] else Decoders(mc, from, upTo - 1) + [DecoderOf(mc, upTo - 1)]
  }

  /** Which decoders each stage holds. */
  function DecodersByStage(mc: ModelShape): (ds: seq<seq<Layer>>)
    requires ValidShape(mc)
    ensures |ds| == mc.pp
  {
    seq(mc.pp, st requires 0 <= st < mc.pp => Decoders(mc, StartLayer(mc, st), EndLayer(mc, st)))
  }

  function Front(stage: nat): seq<Layer> { if stage == 0 then [Embedding] else [] }

  /** What follows the decoders: the hop to the next stage, or the head on the last one. */
  function Tail(pp: nat, stage: nat): seq<Layer> {
    (if pp > 1 && stage < pp - 1 then [PipelineHop] else []) + (if stage == pp - 1 then [LmHead] else [])
  }

  /** The modules of a rank of the given stage, in order, when ds says which decoders each stage holds. */
  function StageModules(ds: seq<seq<Layer>>, stage: nat): seq<Layer>
    requires stage < |ds|
  {
    Front(stage) + ds[stage] + Tail(|ds|, stage)
  }

  /** What forward computes from its input. A tensor is the list of ops applied so far. Without a
      decoder in the stage, the result is taken from the input and not from the embedding. */
  function StageOutput(ds: seq<seq<Layer>>, stage: nat, input: seq<Layer>): seq<Layer>
    requires stage < |ds|
  {
    (if ds[stage] == [] then input else input + Front(stage) + ds[stage]) + Tail(|ds|, stage)
  }

  /** Ranks below n of the given stage. */
  function StageDevices(mc: ModelShape, n: nat, stage: nat): seq<nat>
    requires ValidShape(mc)
  {
    if n == 0 then [] else
    StageDevices(mc, n - 1, stage) + if StageOf(mc, n - 1) == stage then [n - 1] else []
  }

  class Llm {
    const mc: ModelShape
    const rank: nat
    var modules: seq<Layer>
    var stageDevices: seq<nat>

    ghost predicate Valid()
      reads this
    {
      ValidShape(mc) && modules == StageModules(DecodersByStage(mc), StageOf(mc, rank))
    }

    constructor (mc: ModelShape, rank: nat, devices: nat)
      requires ValidShape(mc)
      ensures Valid() && this.mc == mc && this.rank == rank
      ensures stageDevices == StageDevices(mc, devices, StageOf(mc, rank))
    {
      this.mc, this.rank := mc, rank;
      var stage := StageOf(mc, rank);
      var start, end := StartLayer(mc, stage), EndLayer(mc, stage);
      LayersInOrder(mc, stage);

      var list: seq<nat> := [];
      for r := 0 to devices
        invariant list == StageDevices(mc, r, stage)
      {
        if StageOf(mc, r) == stage { list := list + [r]; }
      }
      var mods: seq<Layer> := [];
      if stage == 0 { mods := mods + [Embedding]; }
      for layer := start to end
        invariant mods == Front(stage) + Decoders(mc, start, layer)
      {
        mods := mods + [if IsMoeLayer(mc, layer) then MoeDecoder(layer) else DenseDecoder(layer)];
      }
      if mc.pp > 1 && stage < mc.pp - 1 { mods := mods + [PipelineHop]; }
      if stage == mc.pp - 1 { mods := mods + [LmHead]; }
      modules, stageDevices := mods, list;
    }

    /** Every module that it looks up is one that the constructor added, and it calls each of them once, in
        order. What it returns has gone through all of them, unless the first stage has no decoder. */
    method Forward(input: seq<Layer>) returns (out: seq<Layer>, ghost called: seq<Layer>)
      requires Valid()
      ensures out == StageOutput(DecodersByStage(mc), StageOf(mc, rank), input) && called == modules
      ensures out == input + modules <==> StageOf(mc, rank) > 0 || mc.numLayers >= mc.pp
    {
      var temp := input;
      called := [];
      var stage := StageOf(mc, rank);
      var start, end := StartLayer(mc, stage), EndLayer(mc, stage);
      LayersInOrder(mc, stage);
      if stage == 0 {
        assert Embedding in modules;
        temp, called := temp + [Embedding], called + [Embedding];
      }
      assert temp == input + Front(stage);
      ghost var decoders;
      out, decoders := ApplyDecoders(start, end, input, temp);
      called := called + decoders;
      DecodersLength(mc, start, end);
      assert Tail(mc.pp, stage)[0] in modules;
      if mc.pp > 1 && stage < mc.pp - 1 { out, called := out + [PipelineHop], called + [PipelineHop]; }
      if stage == mc.pp - 1 { out, called := out + [LmHead], called + [LmHead]; }
      OutputKeepsModulesIff(mc, stage, input);
    }

    /** The loop over the stage's decoders. The result starts out as the input, not as the embedding. */
    method ApplyDecoders(start: nat, end: nat, input: seq<Layer>, embedded: seq<Layer>)
        returns (out: seq<Layer>, ghost called: seq<Layer>)
      requires start <= end && forall d :: d in Decoders(mc, start, end) ==> d in modules
      ensures called == Decoders(mc, start, end)
      ensures out == if start == end then input else embedded + Decoders(mc, start, end)
    {
      var temp := embedded;
      out, called := input, [];
      for layer := start to end
        invariant called == Decoders(mc, start, layer) && temp == embedded + called
        invariant out == if layer == start then input else temp
      {
        var decoder := DecoderOf(mc, layer);
        DecoderMember(mc, start, end, layer);
        assert decoder in modules && temp + [decoder] == embedded + (called + [decoder]);
        out, called := temp + [decoder], called + [decoder];
        temp := out;
      }
    }
  }

  // ---- The layer ranges --------------------------------------------------------------------------

  /** Stage ranges are in order and contiguous. */
  lemma LayersInOrder(mc: ModelShape, stage: nat)
    requires ValidShape(mc) && stage < mc.pp
    ensures StartLayer(mc, stage) <= EndLayer(mc, stage) <= mc.numLayers
    ensures stage + 1 < mc.pp ==> EndLayer(mc, stage) == StartLayer(mc, stage + 1)
  {
    var lps := mc.numLayers / mc.pp;
    assert mc.pp * lps <= mc.numLayers;
    MulMono(stage + 1, mc.pp, lps);
    MulMono(0, stage, lps);
    assert (stage + 1) * lps == stage * lps + lps;
  }

  /** Stage 0 has a decoder exactly when there are at least as many layers as stages. */
  lemma FirstStageHasLayer(mc: ModelShape)
    requires ValidShape(mc)
    ensures DecodersByStage(mc)[0] != [] <==> mc.numLayers >= mc.pp
  {}

  lemma {:induction false} DecoderMember(mc: ModelShape, from: nat, upTo: nat, layer: nat)
    requires from <= layer < upTo
    ensures DecoderOf(mc, layer) in Decoders(mc, from, upTo)
  {
    if layer < upTo - 1 { DecoderMember(mc, from, upTo - 1, layer); }
  }

  lemma {:induction false} DecodersJoin(mc: ModelShape, a: nat, b: nat, c: nat)
    requires a <= b <= c
    ensures Decoders(mc, a, b) + Decoders(mc, b, c) == Decoders(mc, a, c)
  {
    if b < c { DecodersJoin(mc, a, b, c - 1); }
  }

  lemma {:induction false} DecodersLength(mc: ModelShape, a: nat, b: nat)
    ensures |Decoders(mc, a, b)| == if a <= b then b - a else 0
  {
    if a < b { DecodersLength(mc, a, b - 1); }
  }

  lemma {:induction false} DecodersAreNoHops(mc: ModelShape, a: nat, b: nat)
    ensures PipelineHop !in Decoders(mc, a, b)
  {
    if a < b { DecodersAreNoHops(mc, a, b - 1); }
  }

  function Flatten(ds: seq<seq<Layer>>, k: nat): seq<Layer>
    requires k <= |ds|
  {
    if k == 0 then [] else Flatten(ds, k - 1) + ds[k - 1]
  }

  /** The stages' decoders, put together, are all decoders in order. */
  lemma {:induction false} StagesCoverLayers(mc: ModelShape, k: nat)
    requires ValidShape(mc) && 1 <= k <= mc.pp
    ensures Flatten(DecodersByStage(mc), k) == Decoders(mc, 0, EndLayer(mc, k - 1))
  {
    var ds := DecodersByStage(mc);
    LayersInOrder(mc, k - 1);
    if k == 1 {
      assert StartLayer(mc, 0) == 0 && Flatten(ds, 1) == [] + ds[0];
    } else {
      StagesCoverLayers(mc, k - 1);
      LayersInOrder(mc, k - 2);
      DecodersJoin(mc, 0, StartLayer(mc, k - 1), EndLayer(mc, k - 1));
    }
  }

  // ---- The split preserves the model -------------------------------------------------------------

  function FullModel(mc: ModelShape): seq<Layer> {
    [Embedding] + Decoders(mc, 0, mc.numLayers) + [LmHead]
  }

  function DropHops(ls: seq<Layer>): seq<Layer> {
    if ls == [] then [] else
    DropHops(ls[..|ls| - 1]) + if ls[|ls| - 1] == PipelineHop then [] else [ls[|ls| - 1]]
  }

  ghost predicate HopFree(ds: seq<seq<Layer>>) {
    forall st :: 0 <= st < |ds| ==> PipelineHop !in ds[st]
  }

  lemma {:induction false} DropHopsConcat(a: seq<Layer>, b: seq<Layer>)
    ensures DropHops(a + b) == DropHops(a) + DropHops(b)
  {
    if b == [] {
      assert a + b == a;
    } else {
      assert (a + b)[..|a + b| - 1] == a + b[..|b| - 1];
      DropHopsConcat(a, b[..|b| - 1]);
    }
  }

  lemma {:induction false} NoHops(ls: seq<Layer>)
    requires PipelineHop !in ls
    ensures DropHops(ls) == ls
  {
    if ls != [] { NoHops(ls[..|ls| - 1]); }
  }

  function Head(pp: nat, stage: nat): seq<Layer> { if stage == pp - 1 then [LmHead] else [] }

  lemma DropTail(pp: nat, stage: nat, before: seq<Layer>)
    requires stage < pp && PipelineHop !in before
    ensures DropHops(before + Tail(pp, stage)) == before + Head(pp, stage)
  {
    var t := Tail(pp, stage);
    NoHops(before);
    DropHopsConcat(before, t);
    assert t[..0] == [] && DropHops(t) == DropHops(t[..0]) + if t[0] == PipelineHop then [] else [t[0]];
  }

  /** The modules of the first k stages, in stage order. */
  function StagesModules(ds: seq<seq<Layer>>, k: nat): seq<Layer>
    requires k <= |ds|
  {
    if k == 0 then [] else StagesModules(ds, k - 1) + StageModules(ds, k - 1)
  }

  function Hops(ls: seq<Layer>): int { |ls| - |DropHops(ls)| }

  lemma Regroup(a: seq<Layer>, b: seq<Layer>, c: seq<Layer>, d: seq<Layer>)
    ensures (a + b) + (c + d) == a + (b + c) + d
    ensures [] + a == a == a + []
  {}

  lemma StagesModulesGrow(ds: seq<seq<Layer>>, st: nat)
    requires HopFree(ds) && st < |ds|
    ensures DropHops(StagesModules(ds, st + 1)) ==
            DropHops(StagesModules(ds, st)) + ((Front(st) + ds[st]) + Head(|ds|, st))
  {
    var own := Front(st) + ds[st];
    DropTail(|ds|, st, own);
    DropHopsConcat(StagesModules(ds, st), own + Tail(|ds|, st));
  }

  lemma {:induction false} SplitPrefix(ds: seq<seq<Layer>>, k: nat)
    requires HopFree(ds) && 1 <= k <= |ds|
    ensures DropHops(StagesModules(ds, k)) == [Embedding] + Flatten(ds, k) + Head(|ds|, k - 1)
  {
    var st := k - 1;
    StagesModulesGrow(ds, st);
    Regroup([Embedding], Flatten(ds, st), ds[st], Head(|ds|, st));
    if st == 0 {
      Regroup(ds[0], [], [], []);
      Regroup([Embedding] + ds[0] + Head(|ds|, 0), [], [], []);
    } else {
      SplitPrefix(ds, st);
      Regroup(ds[st], [], [], []);
      Regroup([Embedding] + Flatten(ds, st), [], [], []);
    }
  }

  lemma {:induction false} CountHops(ds: seq<seq<Layer>>, k: nat)
    requires HopFree(ds) && k <= |ds|
    ensures Hops(StagesModules(ds, k)) == if k == |ds| && k > 0 then k - 1 else k
  {
    if k > 0 {
      CountHops(ds, k - 1);
      CountStageHops(ds, k - 1);
      HopsAdd(StagesModules(ds, k - 1), StageModules(ds, k - 1));
    }
  }

  lemma HopsAdd(a: seq<Layer>, b: seq<Layer>)
    ensures Hops(a + b) == Hops(a) + Hops(b)
  {
    DropHopsConcat(a, b);
  }

  lemma CountStageHops(ds: seq<seq<Layer>>, st: nat)
    requires HopFree(ds) && st < |ds|
    ensures Hops(StageModules(ds, st)) == if st == |ds| - 1 then 0 else 1
  {
    DropTail(|ds|, st, Front(st) + ds[st]);
  }

  /** Main result. For any layer count and stage count, dividing or not, the stages' modules in order,
      hops aside, are the unsplit model's, and there is one hop fewer than there are stages. */
  lemma SplitPreservesModules(mc: ModelShape)
    requires ValidShape(mc)
    ensures DropHops(StagesModules(DecodersByStage(mc), mc.pp)) == FullModel(mc)
    ensures FullModel(mc) == StageModules(DecodersByStage(mc.(pp := 1)), 0)
    ensures Hops(StagesModules(DecodersByStage(mc), mc.pp)) == mc.pp - 1
  {
    StagesAreHopFree(mc);
    SplitPrefix(DecodersByStage(mc), mc.pp);
    CountHops(DecodersByStage(mc), mc.pp);
    StagesCoverLayers(mc, mc.pp);
    StagesCoverLayers(mc.(pp := 1), 1);
    SameDecoders(mc, mc.(pp := 1), mc.numLayers);
  }

  lemma StagesAreHopFree(mc: ModelShape)
    requires ValidShape(mc)
    ensures HopFree(DecodersByStage(mc))
  {
    forall st | 0 <= st < mc.pp ensures PipelineHop !in DecodersByStage(mc)[st] {
      DecodersAreNoHops(mc, StartLayer(mc, st), EndLayer(mc, st));
    }
  }

  lemma {:induction false} SameDecoders(mc: ModelShape, mc': ModelShape, n: nat)
    requires mc' == mc.(pp := mc'.pp)
    ensures Decoders(mc, 0, n) == Decoders(mc', 0, n)
  {
    if n > 0 { SameDecoders(mc, mc', n - 1); }
  }

  lemma OutputKeepsModules(ds: seq<seq<Layer>>, stage: nat, input: seq<Layer>)
    requires stage < |ds|
    ensures StageOutput(ds, stage, input) == input + StageModules(ds, stage) <==> stage > 0 || ds[0] != []
  {}

  /** Each rank runs forward on an input of its own. Its result has gone through the rank's modules exactly on
      the later stages, and on the first one when there is a layer for every stage; otherwise the embedding
      is called and its output dropped. */
  lemma OutputKeepsModulesIff(mc: ModelShape, stage: nat, input: seq<Layer>)
    requires ValidShape(mc) && stage < mc.pp
    ensures StageOutput(DecodersByStage(mc), stage, input) == input + StageModules(DecodersByStage(mc), stage) <==>
      stage > 0 || mc.numLayers >= mc.pp
  {
    FirstStageHasLayer(mc);
    OutputKeepsModules(DecodersByStage(mc), stage, input);
  }
}
