/** reportedIterationTime: the decode step time of a cluster, rebuilt from the stages' clocks. */
module ClusterTiming {
  import opened Arith
  import opened Hardware
  import opened PipelineTiming
  import opened Tagging

  /** The first tensor-parallel peer of stage st in replica d. */
  function Rep(d: int, st: int, tp: int, pp: int): int { d * (tp * pp) + st * tp }

  lemma RepInRange(n: int, d: int, st: int, tp: int, pp: int)
    requires n >= 0 && tp >= 1 && pp >= 1 && 0 <= d < n / (tp * pp) && 0 <= st < pp
    ensures 0 <= Rep(d, st, tp, pp) < n
  {
    var b := tp * pp;
    MulMono(1, tp, pp);
    MulMono(d + 1, n / b, b);
    assert n / b * b <= n;
    MulMono(st + 1, pp, tp);
    MulMono(0, d, b);
    MulMono(0, st, tp);
  }

  datatype Sums = Sums(indep: real, dep: real, hop: real)

  ghost predicate RepsExist(boards: seq<Board>, tp: int, pp: int, d: int) {
    forall st {:trigger Rep(d, st, tp, pp)} :: 0 <= st < pp ==> 0 <= Rep(d, st, tp, pp) < |boards|
  }

  /** The three sums over the first k stages of replica d. */
  function StageSums(boards: seq<Board>, tp: int, pp: int, d: int, k: nat): Sums
    requires k <= pp && RepsExist(boards, tp, pp, d)
  {
    if k == 0 then Sums(0.0, 0.0, 0.0) else
    var a, b := StageSums(boards, tp, pp, d, k - 1), boards[Rep(d, k - 1, tp, pp)];
    Sums(a.indep + (b.time - b.hop - b.dep), a.dep + b.dep, a.hop + b.hop)
  }

  function Candidate(boards: seq<Board>, tp: int, pp: int, d: int, pipelined: bool): real
    requires pp >= 1 && RepsExist(boards, tp, pp, d)
  {
    var sums := StageSums(boards, tp, pp, d, pp);
    sums.indep + (if pipelined then sums.dep / pp as real else sums.dep) + sums.hop
  }

  /** The slowest device, as every step without pipelining reports it. */
  method MaxDeviceTime(boards: seq<Board>) returns (t: real)
    ensures t >= 0.0 && forall i :: 0 <= i < |boards| ==> boards[i].time <= t
    ensures t == 0.0 || exists i :: 0 <= i < |boards| && boards[i].time == t
  {
    t := 0.0;
    for i := 0 to |boards|
      invariant t >= 0.0 && forall j :: 0 <= j < i ==> boards[j].time <= t
      invariant t == 0.0 || exists j :: 0 <= j < i && boards[j].time == t
    {
      t := Max(t, boards[i].time);
    }
  }

  function Replicas(devices: nat, tp: int, pp: int): (dp: int)
    requires tp >= 1 && pp >= 1
  {
    MulMono(1, tp, pp);
    devices / (tp * pp)
  }

  lemma AllRepsExist(boards: seq<Board>, tp: int, pp: int, d: int)
    requires tp >= 1 && pp >= 1 && 0 <= d < Replicas(|boards|, tp, pp)
    ensures RepsExist(boards, tp, pp, d)
  {
    forall st {:trigger Rep(d, st, tp, pp)} | 0 <= st < pp ensures 0 <= Rep(d, st, tp, pp) < |boards| {
      RepInRange(|boards|, d, st, tp, pp);
    }
  }

  method ReplicaTime(boards: seq<Board>, tp: int, pp: int, d: int, pipelined: bool) returns (candidate: real)
    requires pp >= 1 && RepsExist(boards, tp, pp, d)
    ensures candidate == Candidate(boards, tp, pp, d, pipelined)
  {
    var indepSum, depSum, hopSum := 0.0, 0.0, 0.0;
    for st := 0 to pp
      invariant Sums(indepSum, depSum, hopSum) == StageSums(boards, tp, pp, d, st)
    {
      var b := boards[Rep(d, st, tp, pp)];
      var ownHop := b.hop;
      depSum := depSum + b.dep;
      indepSum := indepSum + (b.time - ownHop - b.dep);
      hopSum := hopSum + ownHop;
    }
    var depTerm := if pipelined then depSum / pp as real else depSum;
    candidate := indepSum + depTerm + hopSum;
  }

  /** best is the largest candidate over the first k replicas, and at least 0. */
  ghost predicate IsBest(boards: seq<Board>, tp: int, pp: int, pipelined: bool, k: int, best: real)
    requires pp >= 1
  {
    && best >= 0.0
    && (forall d :: 0 <= d < k ==> RepsExist(boards, tp, pp, d) && Candidate(boards, tp, pp, d, pipelined) <= best)
    && (best == 0.0 || exists d :: 0 <= d < k && Candidate(boards, tp, pp, d, pipelined) == best)
  }

  /** One stage: the slowest device. More: the slowest replica's reconstruction. */
  method ReportedIterationTime(s: SystemConfig, boards: seq<Board>, ppDegree: int, tpDegree: int) returns (best: real)
    ensures AtLeastOne(ppDegree) == 1 ==>
      && (forall i :: 0 <= i < |boards| ==> boards[i].time <= best)
      && (best == 0.0 || exists i :: 0 <= i < |boards| && boards[i].time == best)
    ensures AtLeastOne(ppDegree) > 1 ==>
      var pp, tp := AtLeastOne(ppDegree), AtLeastOne(tpDegree);
      IsBest(boards, tp, pp, s.ppPipelinedTiming, Replicas(|boards|, tp, pp), best)
  {
    var pp, tp := AtLeastOne(ppDegree), AtLeastOne(tpDegree);
    if pp <= 1 {
      best := MaxDeviceTime(boards);
      return;
    }
    var dp := Replicas(|boards|, tp, pp);
    assert dp >= 0 by { MulMono(1, tp, pp); }
    best := 0.0;
    for d := 0 to dp
      invariant IsBest(boards, tp, pp, s.ppPipelinedTiming, d, best)
    {
      AllRepsExist(boards, tp, pp, d);
      var candidate := ReplicaTime(boards, tp, pp, d, s.ppPipelinedTiming);
      best := Max(best, candidate);
    }
  }

  // ---- What the candidates mean ------------------------------------------------------------------

  /** Replica d's representatives have run these op lists and hops, one list and hop per stage. */
  ghost predicate RanStages(s: SystemConfig, boards: seq<Board>, tp: int, pp: int, d: int,
                            stages: seq<seq<Task>>, hops: seq<real>)
    requires ValidHardware(s)
  {
    && RepsExist(boards, tp, pp, d) && |stages| == |hops| == pp
    && (forall st :: 0 <= st < pp ==> ValidTasks(stages[st], pp))
    && forall st {:trigger Rep(d, st, tp, pp)} :: 0 <= st < pp ==>
         var c := Clock(s, stages[st], pp);
         boards[Rep(d, st, tp, pp)] == Board(c.total + hops[st], c.dep, hops[st])
  }

  function SumHops(hops: seq<real>, k: nat): real
    requires k <= |hops|
  {
    if k == 0 then 0.0 else SumHops(hops, k - 1) + hops[k - 1]
  }

  /** Time of one microbatch through the first k stages. */
  function SumMicroNs(s: SystemConfig, stages: seq<seq<Task>>, pp: int, k: nat): real
    requires ValidHardware(s) && pp >= 1 && k <= |stages|
    requires forall st :: 0 <= st < |stages| ==> ValidTasks(stages[st], pp)
  {
    if k == 0 then 0.0 else SumMicroNs(s, stages, pp, k - 1) + MicroNs(s, stages[k - 1], pp)
  }

  function SumClocks(boards: seq<Board>, tp: int, pp: int, d: int, k: nat): real
    requires k <= pp && RepsExist(boards, tp, pp, d)
  {
    if k == 0 then 0.0 else SumClocks(boards, tp, pp, d, k - 1) + boards[Rep(d, k - 1, tp, pp)].time
  }

  /** Every task of the first k stages stays exact. */
  ghost predicate StagesStayExact(s: SystemConfig, stages: seq<seq<Task>>, pp: int, k: nat)
    requires ValidHardware(s) && pp >= 1 && k <= |stages|
    requires forall st :: 0 <= st < |stages| ==> ValidTasks(stages[st], pp)
  {
    forall st :: 0 <= st < k ==> AllStayExact(s, stages[st], pp)
  }

  /** Every attention task of the first k stages is within the bound. */
  ghost predicate StagesWithinBound(s: SystemConfig, stages: seq<seq<Task>>, pp: int, k: nat)
    requires ValidHardware(s) && k <= |stages| && forall st :: 0 <= st < |stages| ==> ValidTasks(stages[st], pp)
  {
    forall st :: 0 <= st < k ==> AllWithinBound(s, stages[st], pp)
  }

  lemma {:induction false} SumsAreClocks(s: SystemConfig, boards: seq<Board>, tp: int, pp: int, d: int,
                                         stages: seq<seq<Task>>, hops: seq<real>, k: nat)
    requires ValidHardware(s) && pp > 1 && RanStages(s, boards, tp, pp, d, stages, hops) && k <= pp
    ensures var x := StageSums(boards, tp, pp, d, k);
      x.hop == SumHops(hops, k) && x.indep + x.dep + x.hop == SumClocks(boards, tp, pp, d, k)
  {
    if k > 0 {
      SumsAreClocks(s, boards, tp, pp, d, stages, hops, k - 1);
      assert boards[Rep(d, k - 1, tp, pp)].hop == hops[k - 1];
    }
  }

  /** What the reconstruction keeps of the first k stages of replica d. */
  function KeptSums(boards: seq<Board>, tp: int, pp: int, d: int, k: nat): real
    requires pp >= 1 && k <= pp && RepsExist(boards, tp, pp, d)
  {
    var x := StageSums(boards, tp, pp, d, k);
    Kept(Status(x.indep + x.dep, x.dep), pp)
  }

  lemma KeptSumsGrow(s: SystemConfig, boards: seq<Board>, tp: int, pp: int, d: int,
                     stages: seq<seq<Task>>, hops: seq<real>, k: nat)
    requires ValidHardware(s) && pp > 1 && RanStages(s, boards, tp, pp, d, stages, hops) && k < pp
    ensures KeptSums(boards, tp, pp, d, k + 1) == KeptSums(boards, tp, pp, d, k) + Kept(Clock(s, stages[k], pp), pp)
  {
    var a, b, c := StageSums(boards, tp, pp, d, k), boards[Rep(d, k, tp, pp)], Clock(s, stages[k], pp);
    assert b == Board(c.total + hops[k], c.dep, hops[k]);
    KeptAdds(Status(a.indep + a.dep, a.dep), c, pp);
  }

  lemma {:induction false} SumsBound(s: SystemConfig, boards: seq<Board>, tp: int, pp: int, d: int,
                                     stages: seq<seq<Task>>, hops: seq<real>, k: nat)
    requires ValidHardware(s) && pp > 1 && RanStages(s, boards, tp, pp, d, stages, hops) && k <= pp
    requires StagesWithinBound(s, stages, pp, k)
    ensures KeptSums(boards, tp, pp, d, k) <= SumMicroNs(s, stages, pp, k)
    ensures s.mfuHalf <= 0.0 ==>
      (KeptSums(boards, tp, pp, d, k) == SumMicroNs(s, stages, pp, k) <==> StagesStayExact(s, stages, pp, k))
  {
    if k == 0 {
      assert 0.0 * (pp - 1) as real / pp as real == 0.0;
    } else {
      SumsBound(s, boards, tp, pp, d, stages, hops, k - 1);
      KeptSumsGrow(s, boards, tp, pp, d, stages, hops, k - 1);
      StageBound(s, stages[k - 1], pp);
      ExactStagesSnoc(s, stages, pp, k);
    }
  }

  lemma ExactStagesSnoc(s: SystemConfig, stages: seq<seq<Task>>, pp: int, k: nat)
    requires ValidHardware(s) && pp >= 1 && 1 <= k <= |stages|
    requires forall st :: 0 <= st < |stages| ==> ValidTasks(stages[st], pp)
    ensures StagesStayExact(s, stages, pp, k)
       <==> StagesStayExact(s, stages, pp, k - 1) && AllStayExact(s, stages[k - 1], pp)
  {}

  /** One microbatch through all stages, and the hops between them. */
  function PathNs(s: SystemConfig, stages: seq<seq<Task>>, hops: seq<real>, pp: int): real
    requires ValidHardware(s) && pp >= 1 && |stages| == |hops| == pp
    requires forall st :: 0 <= st < |stages| ==> ValidTasks(stages[st], pp)
  {
    SumMicroNs(s, stages, pp, pp) + SumHops(hops, pp)
  }

  /** Main result. With pipelined timing a replica's candidate is at most one microbatch's time through all
      stages plus the hops between them, provided that every attention task is within the bound; at
      batch-independent utilization it is then equal if and only if every task stays exact. Without pipelined
      timing the candidate is exactly the sum of the stages' own clocks. */
  lemma ReconstructionBound(s: SystemConfig, boards: seq<Board>, tp: int, pp: int, d: int,
                            stages: seq<seq<Task>>, hops: seq<real>)
    requires ValidHardware(s) && pp > 1 && RanStages(s, boards, tp, pp, d, stages, hops)
    ensures StagesWithinBound(s, stages, pp, pp) ==> Candidate(boards, tp, pp, d, true) <= PathNs(s, stages, hops, pp)
    ensures StagesWithinBound(s, stages, pp, pp) && s.mfuHalf <= 0.0 ==>
      (Candidate(boards, tp, pp, d, true) == PathNs(s, stages, hops, pp) <==> StagesStayExact(s, stages, pp, pp))
    ensures Candidate(boards, tp, pp, d, false) == SumClocks(boards, tp, pp, d, pp)
  {
    SumsAreClocks(s, boards, tp, pp, d, stages, hops, pp);
    var x := StageSums(boards, tp, pp, d, pp);
    KeptIsShare(x.indep, x.dep, pp);
    if StagesWithinBound(s, stages, pp, pp) { SumsBound(s, boards, tp, pp, d, stages, hops, pp); }
  }

  /** Replica d has run these stages and hops, and its microbatch path takes at least x, or at most x. */
  ghost predicate PathAtLeast(s: SystemConfig, boards: seq<Board>, tp: int, pp: int, d: int,
                              stages: seq<seq<Task>>, hops: seq<real>, x: real)
    requires ValidHardware(s) && pp > 1
  {
    RanStages(s, boards, tp, pp, d, stages, hops) && x <= PathNs(s, stages, hops, pp)
  }

  ghost predicate PathAtMost(s: SystemConfig, boards: seq<Board>, tp: int, pp: int, d: int,
                             stages: seq<seq<Task>>, hops: seq<real>, x: real)
    requires ValidHardware(s) && pp > 1
  {
    RanStages(s, boards, tp, pp, d, stages, hops) && PathNs(s, stages, hops, pp) <= x
  }

  /** Replica d has run these stages, and every attention task is within the bound. */
  ghost predicate RanWithinBound(s: SystemConfig, boards: seq<Board>, tp: int, pp: int, d: int,
                                 stages: seq<seq<Task>>, hops: seq<real>)
    requires ValidHardware(s) && pp > 1
  {
    RanStages(s, boards, tp, pp, d, stages, hops) && StagesWithinBound(s, stages, pp, pp)
  }

  ghost predicate AllRanWithinBound(s: SystemConfig, boards: seq<Board>, tp: int, pp: int,
                                    stages: seq<seq<seq<Task>>>, hops: seq<seq<real>>)
    requires ValidHardware(s) && pp > 1 && |stages| == |hops|
  {
    forall d :: 0 <= d < |stages| ==> RanWithinBound(s, boards, tp, pp, d, stages[d], hops[d])
  }

  /** Within the bound, and every task stays exact. */
  ghost predicate RanExact(s: SystemConfig, boards: seq<Board>, tp: int, pp: int, d: int,
                           stages: seq<seq<Task>>, hops: seq<real>)
    requires ValidHardware(s) && pp > 1
  {
    RanWithinBound(s, boards, tp, pp, d, stages, hops) && s.mfuHalf <= 0.0 && StagesStayExact(s, stages, pp, pp)
  }

  /** What reportedIterationTime reports over all replicas, when every representative has run its stage: no
      more than some replica's microbatch path if all attention tasks are within the bound, no less than that of
      any replica whose tasks all stay exact; and the slowest replica's serialized clocks when timing is not
      pipelined. */
  lemma ReportedTimeBound(s: SystemConfig, boards: seq<Board>, tp: int, pp: int, stages: seq<seq<seq<Task>>>,
                          hops: seq<seq<real>>, best: real)
    requires ValidHardware(s) && tp >= 1 && pp > 1 && |stages| == |hops| == Replicas(|boards|, tp, pp)
    requires forall d :: 0 <= d < |stages| ==> RanStages(s, boards, tp, pp, d, stages[d], hops[d])
    requires IsBest(boards, tp, pp, s.ppPipelinedTiming, |stages|, best)
    ensures s.ppPipelinedTiming && AllRanWithinBound(s, boards, tp, pp, stages, hops) ==>
      best == 0.0 || exists d :: 0 <= d < |stages| && PathAtLeast(s, boards, tp, pp, d, stages[d], hops[d], best)
    ensures s.ppPipelinedTiming ==>
      forall d :: 0 <= d < |stages| && RanExact(s, boards, tp, pp, d, stages[d], hops[d]) ==>
        PathAtMost(s, boards, tp, pp, d, stages[d], hops[d], best)
    ensures !s.ppPipelinedTiming ==>
      && (forall d :: 0 <= d < |stages| ==> RepsExist(boards, tp, pp, d) && SumClocks(boards, tp, pp, d, pp) <= best)
      && (best == 0.0 || exists d :: 0 <= d < |stages| && SumClocks(boards, tp, pp, d, pp) == best)
  {
    forall d | 0 <= d < |stages|
      ensures RanWithinBound(s, boards, tp, pp, d, stages[d], hops[d]) ==>
        PathAtLeast(s, boards, tp, pp, d, stages[d], hops[d], Candidate(boards, tp, pp, d, true))
      ensures RanExact(s, boards, tp, pp, d, stages[d], hops[d]) ==>
        PathAtMost(s, boards, tp, pp, d, stages[d], hops[d], Candidate(boards, tp, pp, d, true))
      ensures Candidate(boards, tp, pp, d, false) == SumClocks(boards, tp, pp, d, pp)
    {
      ReconstructionBound(s, boards, tp, pp, d, stages[d], hops[d]);
    }
    if best != 0.0 {
      var d :| 0 <= d < |stages| && Candidate(boards, tp, pp, d, s.ppPipelinedTiming) == best;
      assert RepsExist(boards, tp, pp, d);
    }
  }
}
