/** The analytic_configs_only mode: for each structural tuple, bracket-then-bisect the capacity
    ceiling and bisect the latency hint that seed the simulator-verified search. */
module AnalyticListing {
  import opened Arith
  import opened PerConfigSearch

  datatype Tuple = Tuple(tp: int, pp: int, ep: int, dp: int)
  datatype Estimate = Estimate(oom: bool, latencyMs: real)
  type Evaluator = (Tuple, int) -> Estimate

  /** The total-batch guard that stops the bracketing loop. */
  const MAX_TOTAL_BATCH := 0x4000_0000

  predicate Fits(eval: Evaluator, t: Tuple, k: int) { !eval(t, k * t.dp).oom }

  function Latency(eval: Evaluator, t: Tuple, k: int): real { eval(t, k * t.dp).latencyMs }

  /** Some power-of-two probe below the guard ran out of memory. */
  ghost predicate BracketCloses(eval: Evaluator, t: Tuple) {
    exists j: nat :: j >= 1 && Pow2(j) * t.dp <= MAX_TOTAL_BATCH && !Fits(eval, t, Pow2(j))
  }

  ghost predicate CapacityDownwardClosed(eval: Evaluator, t: Tuple) {
    forall j, k :: 1 <= j <= k && Fits(eval, t, k) ==> Fits(eval, t, j)
  }

  ghost predicate LatencyNondecreasing(eval: Evaluator, t: Tuple) {
    forall j, k :: 1 <= j <= k ==> Latency(eval, t, j) <= Latency(eval, t, k)
  }

  /** What the emitted line certifies, whatever the evaluator does: a ceiling that fits and whose
      successor does not (or a power of two at the guard), and a hint at the edge of the SLO. */
  ghost predicate LocalLine(eval: Evaluator, t: Tuple, sloMs: real, c: Config) {
    var kCap, kHint := KCap(c), KHint(c);
    && t == Tuple(c.tp, c.pp, c.ep, c.dp) && Dp(c) == t.dp
    && c.capBatch == kCap * t.dp && c.sloHintBatch == kHint * t.dp
    && Fits(eval, t, kCap)
    && (BracketCloses(eval, t) ==> !Fits(eval, t, kCap + 1))
    && (!BracketCloses(eval, t) ==> 2 * c.capBatch > MAX_TOTAL_BATCH && exists j: nat :: kCap == Pow2(j))
    && c.estLatMinMs == Latency(eval, t, 1)
    && c.estLatHintMs == Latency(eval, t, kHint)
    && if c.estLatHintMs <= sloMs
       then kHint == kCap || Latency(eval, t, kHint + 1) > sloMs
       else kHint == 1
  }

  lemma {:induction false} Pow2Monotone(i: nat, j: nat)
    requires i <= j
    ensures 1 <= Pow2(i) <= Pow2(j)
  {
    BitsOfPow2(i);
    if i < j { Pow2Monotone(i, j - 1); }
  }

  lemma {:induction false} Pow2Adds(i: nat, j: nat)
    ensures Pow2(i + j) == Pow2(i) * Pow2(j)
  {
    if j > 0 { Pow2Adds(i, j - 1); }
  }

  /** Doubling: the last power of two that fits, and the probe that failed (-1 if the guard came first). */
  method Bracket(eval: Evaluator, t: Tuple) returns (kCap: int, kFail: int, ghost j: nat)
    requires t.dp >= 1 && Fits(eval, t, 1)
    ensures kCap == Pow2(j) >= 1 && Fits(eval, t, kCap)
    ensures kFail > 0 ==> kFail == 2 * kCap && BracketCloses(eval, t) && !Fits(eval, t, kFail)
    ensures kFail <= 0 ==> !BracketCloses(eval, t) && 2 * (kCap * t.dp) > MAX_TOTAL_BATCH
  {
    kCap, j := 1, 0;
    kFail := -1;
    var k := 2;
    while k * t.dp <= MAX_TOTAL_BATCH
      invariant k == 2 * kCap && kCap == Pow2(j) >= 1 && Fits(eval, t, kCap)
      invariant forall i: nat :: 1 <= i <= j ==> Fits(eval, t, Pow2(i))
      decreases MAX_TOTAL_BATCH - k
    {
      MulMono(1, t.dp, k);
      if eval(t, k * t.dp).oom {
        assert Pow2(j + 1) == k;
        return kCap, k, j;
      }
      kCap, k, j := k, k * 2, j + 1;
    }
    assert k * t.dp == 2 * (kCap * t.dp);
    forall i: nat | i > j
      ensures Pow2(i) * t.dp > MAX_TOTAL_BATCH
    {
      Pow2Monotone(j + 1, i);
      MulMono(k, Pow2(i), t.dp);
    }
  }

  /** The capacity ceiling: bracket, then bisect between the last fit and the first failure. */
  method CapacityCeiling(eval: Evaluator, t: Tuple) returns (kCap: int, ghost j: nat)
    requires t.dp >= 1 && Fits(eval, t, 1)
    ensures kCap >= 1 && Fits(eval, t, kCap)
    ensures BracketCloses(eval, t) ==> !Fits(eval, t, kCap + 1)
    ensures !BracketCloses(eval, t) ==> kCap == Pow2(j) && 2 * (kCap * t.dp) > MAX_TOTAL_BATCH
  {
    var kFail;
    kCap, kFail, j := Bracket(eval, t);
    if kFail > 0 {
      var lo, hi := kCap + 1, kFail - 1;
      while lo <= hi
        invariant kCap == lo - 1 >= 1 && lo <= hi + 1
        invariant Fits(eval, t, kCap) && !Fits(eval, t, hi + 1)
      {
        var mid := lo + (hi - lo) / 2;
        if !eval(t, mid * t.dp).oom { kCap := mid; lo := mid + 1; }
        else { hi := mid - 1; }
      }
    }
  }

  /** The latency hint: the ceiling itself if it clears the SLO, else a bisection below it. */
  method LatencyHint(eval: Evaluator, t: Tuple, sloMs: real, kCap: int) returns (kHint: int, estMs: real)
    requires kCap >= 1
    ensures 1 <= kHint <= kCap && estMs == Latency(eval, t, kHint)
    ensures estMs <= sloMs ==> kHint == kCap || Latency(eval, t, kHint + 1) > sloMs
    ensures estMs > sloMs ==> kHint == 1
  {
    kHint, estMs := 1, eval(t, 1 * t.dp).latencyMs;
    var atCap := eval(t, kCap * t.dp);
    if atCap.latencyMs <= sloMs {
      return kCap, atCap.latencyMs;
    }
    var lo, hi := 1, kCap - 1;
    while lo <= hi
      invariant 1 <= lo <= hi + 1 <= kCap && estMs == Latency(eval, t, kHint)
      invariant Latency(eval, t, hi + 1) > sloMs
      invariant kHint == if lo == 1 then 1 else lo - 1
      invariant lo > 1 ==> estMs <= sloMs
    {
      var mid := lo + (hi - lo) / 2;
      var atMid := eval(t, mid * t.dp);
      if atMid.latencyMs <= sloMs {
        kHint, estMs := mid, atMid.latencyMs;
        lo := mid + 1;
      } else {
        hi := mid - 1;
      }
    }
  }

  /** The tuples that survive the capacity test at their own smallest batch, in order. */
  function Kept(eval: Evaluator, tuples: seq<Tuple>): seq<Tuple> {
    if tuples == [] then [] else
    var last := tuples[|tuples| - 1];
    Kept(eval, tuples[..|tuples| - 1]) + if Fits(eval, last, 1) then [last] else []
  }

  method ListConfigs(eval: Evaluator, tuples: seq<Tuple>, sloMs: real)
      returns (capFeasibleAt1: bool, lines: seq<Config>)
    requires forall i :: 0 <= i < |tuples| ==> tuples[i].dp >= 1
    ensures capFeasibleAt1 <==> exists i :: 0 <= i < |tuples| && tuples[i].dp == 1 && Fits(eval, tuples[i], 1)
    ensures |lines| == |Kept(eval, tuples)|
    ensures forall i :: 0 <= i < |lines| ==> LocalLine(eval, Kept(eval, tuples)[i], sloMs, lines[i])
  {
    capFeasibleAt1 := false;
    for i := 0 to |tuples|
      invariant capFeasibleAt1 <==> exists j :: 0 <= j < i && tuples[j].dp == 1 && Fits(eval, tuples[j], 1)
    {
      if tuples[i].dp == 1 && !eval(tuples[i], 1).oom { capFeasibleAt1 := true; }
    }
    lines := [];
    for i := 0 to |tuples|
      invariant |lines| == |Kept(eval, tuples[..i])|
      invariant forall j :: 0 <= j < |lines| ==> LocalLine(eval, Kept(eval, tuples[..i])[j], sloMs, lines[j])
    {
      var t := tuples[i];
      assert tuples[..i + 1][..i] == tuples[..i];
      var atMin := eval(t, 1 * t.dp);
      if !atMin.oom {
        ghost var j;
        var kCap, kHint, est;
        kCap, j := CapacityCeiling(eval, t);
        kHint, est := LatencyHint(eval, t, sloMs, kCap);
        DivMultiple(kCap, t.dp);
        DivMultiple(kHint, t.dp);
        var c := Config(t.tp, t.pp, t.ep, t.dp, kCap * t.dp, kHint * t.dp, atMin.latencyMs, est);
        assert LocalLine(eval, t, sloMs, c);
        lines := lines + [c];
      }
    }
    assert tuples[..|tuples|] == tuples;
  }

  /** Under the two monotonicity premises the line is exact: the ceiling separates what fits from what
      does not, and the hint is the largest k up to the ceiling within the SLO, or 1 when none is. */
  lemma ListingIsExact(eval: Evaluator, t: Tuple, sloMs: real, c: Config)
    requires LocalLine(eval, t, sloMs, c)
    requires CapacityDownwardClosed(eval, t) && LatencyNondecreasing(eval, t)
    ensures BracketCloses(eval, t) ==> forall k :: k >= 1 ==> (Fits(eval, t, k) <==> k <= KCap(c))
    ensures forall k :: 1 <= k <= KCap(c) && Latency(eval, t, k) <= sloMs ==>
              k <= KHint(c) && c.estLatHintMs <= sloMs
    ensures c.estLatHintMs > sloMs ==> KHint(c) == 1
  {}
}
