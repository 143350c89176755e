/** The max-batch search for one forced parallelism configuration: probe the hint, jump to the
    analytic ceiling, widen exponentially, bisect. Batches are k * dp for k = 1, 2, ... */
module PerConfigSearch {
  import opened Arith
  import opened SimTypes

  datatype Config = Config(tp: int, pp: int, ep: int, dp: int,
                           capBatch: int, sloHintBatch: int, estLatMinMs: real, estLatHintMs: real)

  /** The replica count the search steps by. */
  function Dp(c: Config): (dp: int)
    ensures dp >= 1
  {
    if c.dp > 1 then c.dp else 1
  }

  predicate Feasible(sim: int -> Verdict, dp: int, k: int) {
    sim(k * dp).Success?
  }

  /** Every multiple of dp beyond limit * dp fails. The widening loop needs no more than this to stop. */
  ghost predicate BoundedBy(sim: int -> Verdict, dp: int, limit: nat) {
    forall k :: k > limit ==> !Feasible(sim, dp, k)
  }

  /** A batch that fits keeps fitting when it shrinks: the premise that the search's comments state. */
  ghost predicate DownwardClosed(sim: int -> Verdict, dp: int) {
    forall j, k :: 1 <= j <= k && Feasible(sim, dp, k) ==> Feasible(sim, dp, j)
  }

  /** res is the simulator's own answer at k; k == 0 stands for "nothing verified yet". */
  ghost predicate Verified(sim: int -> Verdict, dp: int, k: int, res: Option<Verdict>) {
    k >= 0 &&
    if k == 0 then res == None else Feasible(sim, dp, k) && res == Some(sim(k * dp))
  }

  /** fail is the answer of a failing probe at k. */
  ghost predicate FailsAt(sim: int -> Verdict, dp: int, k: int, fail: Option<FailReason>) {
    !Feasible(sim, dp, k) && fail == Some(sim(k * dp).why)
  }

  /** Length of n in binary: floor(log2(n)) + 1 for n >= 1, and 0 for n == 0. */
  function Bits(n: nat): nat {
    if n == 0 then 0 else 1 + Bits(n / 2)
  }

  lemma {:induction false} BitsMonotone(m: nat, n: nat)
    requires m <= n
    ensures Bits(m) <= Bits(n)
  {
    if m > 0 { BitsMonotone(m / 2, n / 2); }
  }

  function Pow2(j: nat): (p: nat)
    ensures p >= 1
  {
    if j == 0 then 1 else 2 * Pow2(j - 1)
  }

  lemma {:induction false} BelowPow2(n: nat)
    ensures n < Pow2(Bits(n))
  {
    if n > 0 { BelowPow2(n / 2); }
  }

  /** The bisection loop, which the search runs on three different intervals. It closes in on a
      verified k whose successor was probed and failed. */
  method Bisect(sim: int -> Verdict, dp: int, from: int, upTo: int,
                res0: Option<Verdict>, fail0: Option<FailReason>)
      returns (bestK: int, bestRes: Option<Verdict>, fail: Option<FailReason>, ghost probes: nat)
    requires 1 <= from <= upTo + 1
    requires Verified(sim, dp, from - 1, res0) && FailsAt(sim, dp, upTo + 1, fail0)
    ensures from - 1 <= bestK <= upTo
    ensures Verified(sim, dp, bestK, bestRes) && FailsAt(sim, dp, bestK + 1, fail)
    ensures probes <= Bits(upTo + 1 - from)
  {
    bestK, bestRes, fail, probes := from - 1, res0, fail0, 0;
    var lo, hi := from, upTo;
    ghost var left := Bits(upTo + 1 - from);
    BelowPow2(upTo + 1 - from);
    while lo <= hi
      invariant from <= lo <= hi + 1 <= upTo + 1
      invariant bestK == lo - 1
      invariant Verified(sim, dp, bestK, bestRes) && FailsAt(sim, dp, hi + 1, fail)
      invariant hi + 1 - lo < Pow2(left) && probes + left == Bits(upTo + 1 - from)
    {
      var mid := (lo + hi) / 2;
      var r := sim(mid * dp);
      probes, left := probes + 1, left - 1;
      if r.Success? {
        bestK, bestRes := mid, Some(r);
        lo := mid + 1;
      } else {
        fail := Some(r.why);
        hi := mid - 1;
      }
    }
  }

  function KCap(c: Config): int {
    var k := c.capBatch / Dp(c);
    if k > 1 then k else 1
  }

  function KHint(c: Config): int {
    var k := c.sloHintBatch / Dp(c);
    var k1 := if k > 1 then k else 1;
    if k1 < KCap(c) then k1 else KCap(c)
  }

  lemma {:induction false} BitsOfPow2(j: nat)
    ensures Bits(Pow2(j)) == j + 1 && Bits(Pow2(j) - 1) == j
  {
    if j > 0 {
      BitsOfPow2(j - 1);
      assert (Pow2(j) - 1) / 2 == Pow2(j - 1) - 1;
    }
  }

  /** j doublings and a bisection of the last gap fit the budget of the span they cover. */
  lemma DoublingBudget(j: nat, span: int)
    requires span >= Pow2(j)
    ensures j + Bits(Pow2(j) - 1) <= 2 * (Bits(span) - 1)
  {
    BitsOfPow2(j);
    BitsMonotone(Pow2(j), span);
  }

  /** The upward probe past a verified point: double the step until a probe fails, then bisect the gap. */
  method Widen(sim: int -> Verdict, dp: int, from: int, res0: Option<Verdict>, ghost limit: nat)
      returns (bestK: int, bestRes: Option<Verdict>, fail: Option<FailReason>, ghost probes: nat)
    requires from >= 1 && Verified(sim, dp, from, res0) && BoundedBy(sim, dp, limit)
    ensures bestK >= from
    ensures Verified(sim, dp, bestK, bestRes) && FailsAt(sim, dp, bestK + 1, fail)
    ensures probes <= 1 + 2 * (Bits(bestK - from + 1) - 1)
  {
    bestK, bestRes, probes := from, res0, 0;
    ghost var j := 0;
    var gap := 1;
    while true
      invariant Verified(sim, dp, bestK, bestRes)
      invariant gap == Pow2(j) >= 1 && bestK == from + gap - 1
      invariant probes == j
      decreases limit - bestK
    {
      var kTry := bestK + gap;
      var r := sim(kTry * dp);
      probes := probes + 1;
      if r.Success? {
        assert Feasible(sim, dp, kTry);
        bestK, bestRes := kTry, Some(r);
        gap, j := gap * 2, j + 1;
      } else {
        ghost var p;
        bestK, bestRes, fail, p := Bisect(sim, dp, bestK + 1, kTry - 1, bestRes, Some(r.why));
        probes := probes + p;
        DoublingBudget(j, bestK - from + 1);
        return;
      }
    }
  }

  /** The largest feasible multiple that does not exceed limit; 0 if there is none. */
  ghost function MaxK(sim: int -> Verdict, dp: int, limit: nat): (k: nat)
    ensures k <= limit && (k > 0 ==> Feasible(sim, dp, k))
    ensures forall i :: k < i <= limit ==> !Feasible(sim, dp, i)
  {
    if limit == 0 || Feasible(sim, dp, limit) then limit else MaxK(sim, dp, limit - 1)
  }

  /** Under the monotonicity premise the local boundary is the global one: the returned batch is
      the largest feasible multiple of dp, and every smaller multiple is feasible too. */
  lemma BoundaryIsMaximum(sim: int -> Verdict, dp: int, limit: nat, k: int, res: Option<Verdict>)
    requires BoundedBy(sim, dp, limit) && DownwardClosed(sim, dp)
    requires Verified(sim, dp, k, res) && !Feasible(sim, dp, k + 1)
    ensures k == MaxK(sim, dp, limit)
    ensures forall j :: j >= 1 ==> (Feasible(sim, dp, j) <==> j <= k)
  {}

  /** b is a verified multiple of dp, or 0; the next multiple failed as fail says; and where feasibility
      is downward closed, b is the largest feasible multiple of all. */
  ghost predicate IsBoundary(sim: int -> Verdict, dp: int, limit: nat, b: int, res: Option<Verdict>,
                             fail: Option<FailReason>)
    requires dp >= 1
  {
    && b >= 0 && b % dp == 0
    && Verified(sim, dp, b / dp, res) && FailsAt(sim, dp, b / dp + 1, fail)
    && (DownwardClosed(sim, dp) ==> b / dp == MaxK(sim, dp, limit))
  }

  lemma AtMultiple(sim: int -> Verdict, dp: int, limit: nat, k: int, res: Option<Verdict>, fail: Option<FailReason>)
    requires dp >= 1 && BoundedBy(sim, dp, limit) && Verified(sim, dp, k, res) && FailsAt(sim, dp, k + 1, fail)
    ensures k * dp / dp == k && IsBoundary(sim, dp, limit, k * dp, res, fail)
  {
    DivMultiple(k, dp);
    MulMono(0, k, dp);
    if DownwardClosed(sim, dp) { BoundaryIsMaximum(sim, dp, limit, k, res); }
  }

  /** How many simulator calls the search may take to end at k, by the branch that it takes. */
  function ProbeBudget(sim: int -> Verdict, dp: int, kCap: int, kHint: int, k: int): int
    requires 1 <= kHint <= kCap && k >= 0
  {
    if !Feasible(sim, dp, kHint) then 1 + Bits(kHint - 1)
    else if kHint < kCap && !Feasible(sim, dp, kCap) then 2 + Bits(kCap - kHint - 1)
    else if k < kCap then 0
    else 3 + 2 * (Bits(k - kCap + 1) - 1)
  }

  /** Whatever the simulator answers, the search returns a verified batch whose successor multiple
      was probed and failed, and reports that very failure. The hint and the ceiling only decide how
      many probes it takes. */
  method PerConfigMaxBatch(sim: int -> Verdict, c: Config, ghost limit: nat)
      returns (bestB: int, bestRes: Option<Verdict>, cfgFail: Option<FailReason>, ghost probes: nat)
    requires BoundedBy(sim, Dp(c), limit)
    ensures IsBoundary(sim, Dp(c), limit, bestB, bestRes, cfgFail)
    ensures probes <= ProbeBudget(sim, Dp(c), KCap(c), KHint(c), bestB / Dp(c))
  {
    var k;
    k, bestRes, cfgFail, probes := SearchFrom(sim, Dp(c), KCap(c), KHint(c), limit);
    AtMultiple(sim, Dp(c), limit, k, bestRes, cfgFail);
    bestB := k * Dp(c);
  }

  /** The search in units of dp. */
  method SearchFrom(sim: int -> Verdict, dp: int, kCap: int, kHint: int, ghost limit: nat)
      returns (bestK: int, bestRes: Option<Verdict>, cfgFail: Option<FailReason>, ghost probes: nat)
    requires 1 <= kHint <= kCap && BoundedBy(sim, dp, limit)
    ensures Verified(sim, dp, bestK, bestRes) && FailsAt(sim, dp, bestK + 1, cfgFail)
    ensures probes <= ProbeBudget(sim, dp, kCap, kHint, bestK)
  {
    var resHint := sim(kHint * dp);
    ghost var p;
    if !resHint.Success? {
      // The analytic hint over-shot the simulator.
      bestK, bestRes, cfgFail, p := Bisect(sim, dp, 1, kHint - 1, None, Some(resHint.why));
      return bestK, bestRes, cfgFail, 1 + p;
    }
    bestK, bestRes, cfgFail, p := SearchUp(sim, dp, kCap, kHint, Some(resHint), limit);
    probes := 1 + p;
  }

  /** The search from a verified hint: jump to the ceiling, then bisect below it or widen past it. */
  method SearchUp(sim: int -> Verdict, dp: int, kCap: int, kHint: int, resHint: Option<Verdict>, ghost limit: nat)
      returns (bestK: int, bestRes: Option<Verdict>, cfgFail: Option<FailReason>, ghost probes: nat)
    requires 1 <= kHint <= kCap && Verified(sim, dp, kHint, resHint) && BoundedBy(sim, dp, limit)
    ensures Verified(sim, dp, bestK, bestRes) && FailsAt(sim, dp, bestK + 1, cfgFail)
    ensures 1 + probes <= ProbeBudget(sim, dp, kCap, kHint, bestK)
  {
    bestK, bestRes, probes := kHint, resHint, 0;
    ghost var p;
    if kCap > kHint {
      var resCap := sim(kCap * dp);
      probes := 1;
      if !resCap.Success? {
        bestK, bestRes, cfgFail, p := Bisect(sim, dp, kHint + 1, kCap - 1, bestRes, Some(resCap.why));
        assert ProbeBudget(sim, dp, kCap, kHint, bestK) == 2 + Bits(kCap - kHint - 1);
        return bestK, bestRes, cfgFail, 1 + p;
      }
      bestK, bestRes := kCap, Some(resCap);
    }
    assert bestK == kCap;
    bestK, bestRes, cfgFail, p := Widen(sim, dp, kCap, bestRes, limit);
    probes := probes + p;
    assert ProbeBudget(sim, dp, kCap, kHint, bestK) == 3 + 2 * (Bits(bestK - kCap + 1) - 1);
  }
}
