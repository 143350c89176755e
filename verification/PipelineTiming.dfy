/** How op times become a decode step time: per-device clocks, and the reconstruction of the
    pipelined step from each stage's clock and its batch-dependent part. */
module PipelineTiming {
  import opened Hardware
  import opened FlashTiming
  import opened OpTiming
  import opened StageOps
  import opened Tagging
  import AttentionKernel
  import AttentionLimits
  import AttentionSplit

  class Tensor {
    var shape: seq<nat>
    const precision: nat
    /** This tensor belongs to an expert that gets no tokens in the first microbatch. */
    var coldAtMicro: bool
    /** One-shot: the next linear op on this weight exposes a full page latency. */
    var exposeFirst: bool

    constructor (shape: seq<nat>, precision: nat, cold: bool, expose: bool)
      ensures this.shape == shape && this.precision == precision && coldAtMicro == cold && exposeFirst == expose
    {
      this.shape, this.precision, coldAtMicro, exposeFirst := shape, precision, cold, expose;
    }
  }

  /** The linear op that the tensors' shapes describe; batched shapes lead with the head count. */
  function LinearOf(input: seq<nat>, weight: seq<nat>, precision: nat, heads: nat, dup: bool, expose: bool): Op
    requires if heads > 1 then |input| == |weight| == 3 else |input| == |weight| == 2
  {
    var i := if heads > 1 then 1 else 0;
    Linear(input[i] as real, input[i + 1] as real, weight[i + 1] as real, precision as real, heads, dup, expose)
  }

  /** linearCore without the external DRAM simulator. */
  method LinearCore(s: SystemConfig, u: Unit, input: Tensor, weight: Tensor, output: Tensor,
                    heads: nat, dup: bool, pp: int) returns (st: ExecStatus)
    requires ValidHardware(s) && ValidUnit(u) && heads >= 1 && input.precision == weight.precision
    requires if heads > 1 then |input.shape| == |weight.shape| == 3 else |input.shape| == |weight.shape| == 2
    modifies weight`exposeFirst, output`coldAtMicro
    ensures var o := LinearOf(input.shape, weight.shape, weight.precision, heads, dup, old(weight.exposeFirst));
      && Status(st.total, st.dep) == Execute(s, u, o, old(input.coldAtMicro), pp)
      && (!Empty(o) ==> output.coldAtMicro == old(input.coldAtMicro))
    ensures !weight.exposeFirst
  {
    var expose := weight.exposeFirst;
    weight.exposeFirst := false;
    var o := LinearOf(input.shape, weight.shape, weight.precision, heads, dup, expose);
    if o.m == 0.0 || o.k == 0.0 || o.precision == 0.0 {
      return IDLE;
    }
    st := LinearStatus(s, u, o, input.coldAtMicro, pp);
    output.coldAtMicro := input.coldAtMicro;
  }

  /** The duration and tag of a nonempty linear op, field by field. */
  method LinearStatus(s: SystemConfig, u: Unit, o: Op, cold: bool, pp: int) returns (st: ExecStatus)
    requires ValidHardware(s) && ValidUnit(u) && o.Linear? && !Empty(o)
    ensures Status(st.total, st.dep) == Execute(s, u, o, cold, pp)
    ensures st.compute == ComputeNs(s, u, o) && st.memory == MemoryNs(s, u, o)
  {
    var compute, memory := ComputeNs(s, u, o), MemoryNs(s, u, o);
    var total := Max(compute, memory);
    var dep := LinearTag(s, u, o, compute, memory, total);
    dep := Override(total, dep, cold, pp);
    st := ExecStatus(compute, memory, total, dep, 0.0);
  }

  /** The tag of a cold op, such that the reconstruction keeps nothing of it. */
  method Override(total: real, tag: real, cold: bool, pp: int) returns (dep: real)
    ensures Status(total, dep) == Tagged(total, tag, cold, pp)
  {
    dep := tag;
    if pp > 1 && cold && total > 0.0 {
      dep := total * pp as real / (pp - 1) as real;
    }
  }

  method LinearTag(s: SystemConfig, u: Unit, o: Op, compute: real, memory: real, total: real) returns (dep: real)
    requires ValidHardware(s) && ValidUnit(u) && o.Linear?
    requires compute == ComputeNs(s, u, o) && memory == MemoryNs(s, u, o) && total == RooflineNs(s, u, o)
    ensures dep == TagNs(s, u, o)
  {
    if compute > memory { return total; }
    if HasScarceTier(s) {
      var actTime := TransferNs(TokenBytes(o), ActBandwidth(s.hbf));
      return if actTime >= memory then total else 0.0;
    }
    var totalBytes := TokenBytes(o) + WeightBytes(o);
    var actBytes := totalBytes - WeightBytes(o);
    assert actBytes == TokenBytes(o);
    dep := if totalBytes > 0.0 then memory * (actBytes / totalBytes) else 0.0;
  }

  /** activationCore; width is the number of elements per token of the three operands together. */
  method ActivationCore(s: SystemConfig, u: Unit, tokens: nat, width: nat, input: Tensor, output: Tensor, pp: int)
      returns (st: ExecStatus)
    requires ValidHardware(s) && ValidUnit(u)
    modifies output`coldAtMicro
    ensures var o := Activation(tokens as real, width as real, input.precision as real);
      && Status(st.total, st.dep) == Execute(s, u, o, old(input.coldAtMicro), pp)
      && (!Empty(o) ==> output.coldAtMicro == old(input.coldAtMicro))
  {
    var o := Activation(tokens as real, width as real, input.precision as real);
    st := IDLE;
    if o.m == 0.0 || o.width == 0.0 || o.precision == 0.0 { return; }
    st := st.(compute := ComputeNs(s, u, o), memory := MemoryNs(s, u, o));
    st := st.(total := Max(st.compute, st.memory));
    var dep := Override(st.total, st.total, input.coldAtMicro, pp);
    st := st.(dep := dep);
    output.coldAtMicro := input.coldAtMicro;
  }

  // ---- One stage ---------------------------------------------------------------------------------

  /** What a stage dispatches, at the size of the whole batch: a linear op or activation on unit u, a layer norm or
      residual add, decode attention over the sequences of all microbatches, an all-reduce, an expert exchange. */
  datatype Task =
    | Compute(u: Unit, op: Op, cold: bool)
    | Element(e: Elementwise)
    | Attention(l: AttentionKernel.Layer, parts: seq<seq<AttentionKernel.Sequence>>)
    | Reduce(net: Network, size: real, ranks: nat, nodes: nat)
    | Exchange(net: Network, send: Volumes, receive: Volumes)

  predicate ValidTask(t: Task, pp: int) {
    match t
    case Compute(u, op, _) => ValidUnit(u) && ValidOp(op)
    case Element(e) => ValidElementwise(e)
    case Attention(l, parts) => AttentionKernel.ValidLayer(l) && |parts| == pp && AttentionSplit.ValidParts(parts)
    case Reduce(net, _, _, nodes) => ValidNetwork(net) && nodes >= 1
    case Exchange(net, send, receive) => ValidNetwork(net) && ValidVolumes(send) && ValidVolumes(receive)
  }

  predicate ValidTasks(ts: seq<Task>, pp: int) { forall i :: 0 <= i < |ts| ==> ValidTask(ts[i], pp) }

  /** What a task adds to its device's clocks. */
  function TaskStatus(s: SystemConfig, t: Task, pp: int): Status
    requires ValidHardware(s) && ValidTask(t, pp)
  {
    match t
    case Compute(u, op, cold) => Execute(s, u, op, cold, pp)
    case Element(e) => Status(ElementNs(s, e), ElementNs(s, e))
    case Attention(l, parts) => AttentionStatus(s, l, parts)
    case Reduce(net, size, ranks, nodes) => AllReduceStatus(net, size, ranks, nodes)
    case Exchange(net, send, receive) => ExchangeStatus(net, send, receive)
  }

  function AttentionStatus(s: SystemConfig, l: AttentionKernel.Layer, parts: seq<seq<AttentionKernel.Sequence>>): Status
    requires ValidHardware(s) && AttentionKernel.ValidLayer(l)
  {
    var ns := AttentionSplit.GenNs(s, l, AttentionSplit.Joined(parts));
    Status(ns, ns)
  }

  /** A task's time in one microbatch, at its share of the tokens; attention's is the mean over the microbatches,
      which need not be equal. */
  function TaskMicroNs(s: SystemConfig, t: Task, pp: int): real
    requires ValidHardware(s) && ValidTask(t, pp) && pp >= 1
  {
    match t
    case Compute(u, op, cold) => if cold && pp > 1 then 0.0 else Execute(s, u, Micro(op, pp), false, pp).total
    case Element(e) => ElementNs(s, MicroElement(e, pp))
    case Attention(l, parts) => AttentionSplit.SumNs(AttentionSplit.GenTimes(s, l, parts)) / pp as real
    case Reduce(net, size, ranks, nodes) => AllReduceStatus(net, size / pp as real, ranks, nodes).total
    case Exchange(net, send, receive) => ExchangeStatus(net, MicroVolumes(send, pp), MicroVolumes(receive, pp)).total
  }

  /** Clock and batch-dependent clock that a list of tasks adds up to. */
  function Clock(s: SystemConfig, ts: seq<Task>, pp: int): Status
    requires ValidHardware(s) && ValidTasks(ts, pp)
  {
    if ts == [] then Status(0.0, 0.0) else
    var n := |ts| - 1;
    var a, b := Clock(s, ts[..n], pp), TaskStatus(s, ts[n], pp);
    Status(a.total + b.total, a.dep + b.dep)
  }

  /** The time of one microbatch: every task that is dispatched in it. */
  function MicroNs(s: SystemConfig, ts: seq<Task>, pp: int): real
    requires ValidHardware(s) && ValidTasks(ts, pp) && pp >= 1
  {
    if ts == [] then 0.0 else MicroNs(s, ts[..|ts| - 1], pp) + TaskMicroNs(s, ts[|ts| - 1], pp)
  }

  datatype Board = Board(time: real, dep: real, hop: real)

  /** A device's status, as the module graph accumulates it over one step. */
  class Device {
    var board: Board

    constructor ()
      ensures board == Board(0.0, 0.0, 0.0)
    {
      board := Board(0.0, 0.0, 0.0);
    }

    /** One task's forward call. */
    method Dispatch(s: SystemConfig, t: Task, pp: int)
      requires ValidHardware(s) && ValidTask(t, pp)
      modifies this
      ensures var st := TaskStatus(s, t, pp);
        board == old(board).(time := old(board.time) + st.total, dep := old(board.dep) + st.dep)
    {
      var st;
      match t {
        case Compute(u, op, cold) =>
          st := Execute(s, u, op, cold, pp);
        case Element(e) =>
          st := ElementForward(s, e);
        case Attention(l, parts) =>
          var qs := AttentionSplit.Joined(parts);
          var call := AttentionKernel.AttentionGen(s, l, qs, AttentionSplit.Tokens(qs) as real);
          st := Status(call.total, call.dep);
        case Reduce(net, size, ranks, nodes) =>
          st := AllReduceForward(net, size, ranks, nodes);
        case Exchange(net, send, receive) =>
          st := ExchangeForward(net, send, receive);
      }
      board := board.(time := board.time + st.total, dep := board.dep + st.dep);
    }

    /** All tasks of this device's stage, then the hop to the next stage (none on the last stage). */
    method RunStage(s: SystemConfig, ts: seq<Task>, pp: int, lastStage: bool, commNs: real)
      requires ValidHardware(s) && ValidTasks(ts, pp)
      modifies this
      ensures var c, hop := Clock(s, ts, pp), if lastStage then 0.0 else commNs;
        board == Board(old(board.time) + c.total + hop, old(board.dep) + c.dep, old(board.hop) + hop)
    {
      for i := 0 to |ts|
        invariant var c := Clock(s, ts[..i], pp);
          board == Board(old(board.time) + c.total, old(board.dep) + c.dep, old(board.hop))
      {
        assert ts[..i + 1][..i] == ts[..i];
        Dispatch(s, ts[i], pp);
      }
      assert ts[..|ts|] == ts;
      if !lastStage {
        board := board.(time := board.time + commNs, hop := board.hop + commNs);
      }
    }
  }

  // ---- What the reconstruction keeps of a stage ----------------------------------------------------

  /** On flash, attention reads whose residual the half fill covers, and a KV write that does not depend on the
      batch's utilization: batch-independent, or hidden. Every other task is within the bound as it is. */
  predicate WithinBound(s: SystemConfig, t: Task)
    requires ValidHardware(s) && (t.Attention? ==> AttentionKernel.ValidLayer(t.l))
  {
    t.Attention? && HasScarceTier(s) ==>
      && ResidualWithinFill(s, t.l.chunked, t.l.chunkOverride, 2)
      && (s.mfuHalf <= 0.0 || AttentionSplit.WriteHidden(s, t.l, t.parts))
  }

  predicate AllWithinBound(s: SystemConfig, ts: seq<Task>, pp: int)
    requires ValidHardware(s) && ValidTasks(ts, pp)
  {
    forall i :: 0 <= i < |ts| ==> WithinBound(s, ts[i])
  }

  /** The reconstruction can charge a task its microbatch time. */
  predicate StaysExact(s: SystemConfig, t: Task, pp: int)
    requires ValidHardware(s) && ValidTask(t, pp) && pp >= 1
  {
    match t
    case Compute(u, op, cold) => cold || Empty(op) || !TurnsWeightLimited(s, u, op, pp)
    case Element(e) => NormStaysHidden(s, e, pp)
    case Attention(l, parts) => AttentionSplit.SplitsExactly(s, l, parts)
    case Reduce(_, _, _, _) => true
    case Exchange(net, send, receive) => SlowestLinkStays(net, send, receive, pp)
  }

  predicate AllStayExact(s: SystemConfig, ts: seq<Task>, pp: int)
    requires ValidHardware(s) && ValidTasks(ts, pp) && pp >= 1
  {
    forall i :: 0 <= i < |ts| ==> StaysExact(s, ts[i], pp)
  }

  lemma TaskBound(s: SystemConfig, t: Task, pp: int)
    requires ValidHardware(s) && ValidTask(t, pp) && pp > 1 && WithinBound(s, t)
    ensures Kept(TaskStatus(s, t, pp), pp) <= TaskMicroNs(s, t, pp)
    ensures s.mfuHalf <= 0.0 ==>
      (Kept(TaskStatus(s, t, pp), pp) == TaskMicroNs(s, t, pp) <==> StaysExact(s, t, pp))
  {
    match t
    case Compute(u, op, cold) => ComputeBound(s, u, op, cold, pp);
    case Element(e) =>
      FullyDependentKeeps(ElementNs(s, e), pp);
      ElementBound(s, e, pp);
    case Attention(l, parts) => AttentionBound(s, l, parts, pp);
    case Reduce(net, size, ranks, nodes) => AllReduceKeeps(net, size, ranks, nodes, pp);
    case Exchange(net, send, receive) => ExchangeBound(net, send, receive, pp);
  }

  lemma ComputeBound(s: SystemConfig, u: Unit, op: Op, cold: bool, pp: int)
    requires ValidHardware(s) && ValidTask(Compute(u, op, cold), pp) && pp > 1
    ensures var t := Compute(u, op, cold);
      && Kept(TaskStatus(s, t, pp), pp) <= TaskMicroNs(s, t, pp)
      && (s.mfuHalf <= 0.0 ==>
           (Kept(TaskStatus(s, t, pp), pp) == TaskMicroNs(s, t, pp) <==> StaysExact(s, t, pp)))
  {
    if cold {
      ColdOpVanishes(s, u, op, pp);
    } else {
      WarmOpBound(s, u, op, pp);
      if Empty(op) { EmptyIsExact(s, u, op, pp); }
    }
  }

  /** Decode attention keeps at most the mean of its microbatches' times. */
  lemma AttentionBound(s: SystemConfig, l: AttentionKernel.Layer, parts: seq<seq<AttentionKernel.Sequence>>, pp: int)
    requires ValidHardware(s) && ValidTask(Attention(l, parts), pp) && pp > 1 && WithinBound(s, Attention(l, parts))
    ensures var kept, micro := Kept(AttentionStatus(s, l, parts), pp), TaskMicroNs(s, Attention(l, parts), pp);
      && kept <= micro
      && (s.mfuHalf <= 0.0 ==> (kept == micro <==> AttentionSplit.SplitsExactly(s, l, parts)))
  {
    var whole := AttentionSplit.GenNs(s, l, AttentionSplit.Joined(parts));
    var sum := AttentionSplit.SumNs(AttentionSplit.GenTimes(s, l, parts));
    assert whole <= sum && (s.mfuHalf <= 0.0 ==> (whole == sum <==> AttentionSplit.SplitsExactly(s, l, parts))) by {
      if !HasScarceTier(s) { AttentionSplit.NothingWritten(s, l, parts); }
      AttentionSplit.SplitBound(s, l, parts);
    }
    FullyDependentKeeps(whole, pp);
    SharesCompare(whole, sum, pp);
  }

  lemma SharesCompare(a: real, b: real, pp: int)
    requires pp >= 1 && a <= b
    ensures a / pp as real <= b / pp as real && (a / pp as real == b / pp as real <==> a == b)
  {}

  /** No attention task with these chunk settings keeps more than the mean of its microbatches' times. */
  ghost predicate AttentionNeverExceeds(s: SystemConfig, chunked: bool, chunkOverride: int)
    requires ValidHardware(s)
  {
    forall t: Task, pp: int ::
      pp > 1 && t.Attention? && ValidTask(t, pp) && t.l.chunked == chunked && t.l.chunkOverride == chunkOverride ==>
      Kept(TaskStatus(s, t, pp), pp) <= TaskMicroNs(s, t, pp)
  }

  /** On flash, the reconstruction never charges attention more than its microbatches, exactly when utilization does
      not depend on the batch and a chunk's residual is within the half fill. */
  lemma AttentionNeverExceedsIff(s: SystemConfig, chunked: bool, chunkOverride: int)
    requires ValidHardware(s) && HasScarceTier(s)
    ensures AttentionNeverExceeds(s, chunked, chunkOverride)
       <==> s.mfuHalf <= 0.0 && ResidualWithinFill(s, chunked, chunkOverride, 2)
  {
    AttentionLimits.NeverLongerIff(s, chunked, chunkOverride);
    if s.mfuHalf <= 0.0 && ResidualWithinFill(s, chunked, chunkOverride, 2) {
      forall t: Task, pp: int
        | pp > 1 && t.Attention? && ValidTask(t, pp) && t.l.chunked == chunked && t.l.chunkOverride == chunkOverride
        ensures Kept(TaskStatus(s, t, pp), pp) <= TaskMicroNs(s, t, pp)
      {
        TaskBound(s, t, pp);
      }
    } else {
      var l: AttentionKernel.Layer, parts: seq<seq<AttentionKernel.Sequence>> :|
        && AttentionKernel.ValidLayer(l) && l.chunked == chunked && l.chunkOverride == chunkOverride
        && AttentionSplit.ValidParts(parts) && |parts| > 1
        && AttentionSplit.GenNs(s, l, AttentionSplit.Joined(parts))
           > AttentionSplit.SumNs(AttentionSplit.GenTimes(s, l, parts));
      ExceedsTask(s, l, parts);
    }
  }

  lemma ExceedsTask(s: SystemConfig, l: AttentionKernel.Layer, parts: seq<seq<AttentionKernel.Sequence>>)
    requires ValidHardware(s) && |parts| > 1 && ValidTask(Attention(l, parts), |parts|)
    requires AttentionSplit.GenNs(s, l, AttentionSplit.Joined(parts))
      > AttentionSplit.SumNs(AttentionSplit.GenTimes(s, l, parts))
    ensures var t, pp := Attention(l, parts), |parts|; Kept(TaskStatus(s, t, pp), pp) > TaskMicroNs(s, t, pp)
  {
    var whole := AttentionSplit.GenNs(s, l, AttentionSplit.Joined(parts));
    var sum := AttentionSplit.SumNs(AttentionSplit.GenTimes(s, l, parts));
    FullyDependentKeeps(whole, |parts|);
    SharesCompare(sum, whole, |parts|);
  }

  /** A task list whose attention is within the bound keeps at most its microbatch time; at batch-independent
      utilization it keeps exactly that if and only if every task stays exact. */
  lemma {:induction false} StageBound(s: SystemConfig, ts: seq<Task>, pp: int)
    requires ValidHardware(s) && ValidTasks(ts, pp) && pp > 1 && AllWithinBound(s, ts, pp)
    ensures Kept(Clock(s, ts, pp), pp) <= MicroNs(s, ts, pp)
    ensures s.mfuHalf <= 0.0 ==> (Kept(Clock(s, ts, pp), pp) == MicroNs(s, ts, pp) <==> AllStayExact(s, ts, pp))
  {
    if ts == [] {
      assert 0.0 * (pp - 1) as real / pp as real == 0.0;
    } else {
      var n := |ts| - 1;
      LastTask(s, ts, pp);
      StageBound(s, ts[..n], pp);
      TaskBound(s, ts[n], pp);
      ExactSnoc(s, ts, pp);
    }
  }

  lemma LastTask(s: SystemConfig, ts: seq<Task>, pp: int)
    requires ValidHardware(s) && ValidTasks(ts, pp) && pp > 1 && ts != []
    ensures var init, t := ts[..|ts| - 1], ts[|ts| - 1];
      && Kept(Clock(s, ts, pp), pp) == Kept(Clock(s, init, pp), pp) + Kept(TaskStatus(s, t, pp), pp)
      && MicroNs(s, ts, pp) == MicroNs(s, init, pp) + TaskMicroNs(s, t, pp)
      && (AllWithinBound(s, ts, pp) ==> AllWithinBound(s, init, pp) && WithinBound(s, t))
  {
    KeptAdds(Clock(s, ts[..|ts| - 1], pp), TaskStatus(s, ts[|ts| - 1], pp), pp);
  }

  lemma ExactSnoc(s: SystemConfig, ts: seq<Task>, pp: int)
    requires ValidHardware(s) && ValidTasks(ts, pp) && pp >= 1 && ts != []
    ensures AllStayExact(s, ts, pp) <==> AllStayExact(s, ts[..|ts| - 1], pp) && StaysExact(s, ts[|ts| - 1], pp)
  {}

  /** A cold op is charged exactly nothing. */
  lemma ColdOpVanishes(s: SystemConfig, u: Unit, o: Op, pp: int)
    requires ValidHardware(s) && ValidUnit(u) && ValidOp(o) && pp > 1
    ensures Kept(Execute(s, u, o, true, pp), pp) == 0.0
  {
    TimesNonNegative(s, u, o);
    var t, tag := if Empty(o) then 0.0 else RooflineNs(s, u, o), if Empty(o) then 0.0 else TagNs(s, u, o);
    assert Execute(s, u, o, true, pp) == Tagged(t, tag, true, pp);
    ColdKeepsNothing(t, tag, pp);
  }

  lemma TimesNonNegative(s: SystemConfig, u: Unit, o: Op)
    requires ValidHardware(s) && ValidUnit(u) && ValidOp(o)
    ensures ComputeNs(s, u, o) >= 0.0 && TokenNs(s, o) >= 0.0 && RooflineNs(s, u, o) >= 0.0
    ensures RooflineNs(s, u, o) == 0.0 ==> TagNs(s, u, o) == 0.0
  {}

  lemma EmptyIsExact(s: SystemConfig, u: Unit, o: Op, pp: int)
    requires ValidHardware(s) && ValidUnit(u) && pp >= 1 && Empty(o)
    ensures Kept(Execute(s, u, o, false, pp), pp) == 0.0 == Execute(s, u, Micro(o, pp), false, pp).total
  {}
}
