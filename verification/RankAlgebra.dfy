/** Ranks, replicas, stages and tensor-parallel peers. */
module RankAlgebra {
  import opened Arith
  import opened LlmPartition
  import ClusterTiming

  datatype Coord = Coord(replica: int, stage: int, peer: int)

  /** Replica as the device picks its batch shard, stage as the model picks its layers. */
  function CoordOf(mc: ModelShape, rank: nat): Coord
    requires ValidShape(mc)
  {
    MulMono(1, mc.tp, mc.pp);
    Coord(rank / (mc.tp * mc.pp), StageOf(mc, rank), rank % mc.tp)
  }

  function RankOf(mc: ModelShape, c: Coord): int {
    c.replica * (mc.tp * mc.pp) + c.stage * mc.tp + c.peer
  }

  predicate InGrid(mc: ModelShape, dp: nat, c: Coord) {
    0 <= c.replica < dp && 0 <= c.stage < mc.pp && 0 <= c.peer < mc.tp
  }

  /** Division by a product is two divisions. */
  lemma DivDiv(x: nat, a: nat, b: nat)
    requires a >= 1 && b >= 1
    ensures a * b >= 1 && x / (a * b) == x / a / b
  {
    MulMono(1, a, b);
    var q, r := x / a / b, (x / a) % b;
    assert x / a == q * b + r;
    assert x == (x / a) * a + x % a;
    MulMono(r + 1, b, a);
    MulMono(0, r, a);
    Expand(q, b, r, a);
    DivModUnique(x, a * b, q, r * a + x % a);
  }

  lemma Expand(q: int, b: int, r: int, a: int)
    ensures (q * b + r) * a == q * (a * b) + r * a
  {}

  lemma CoordDigits(mc: ModelShape, d: nat, st: nat, t: nat)
    requires ValidShape(mc) && st < mc.pp && t < mc.tp
    ensures RankOf(mc, Coord(d, st, t)) >= 0
    ensures CoordOf(mc, RankOf(mc, Coord(d, st, t))) == Coord(d, st, t)
  {
    var x := RankOf(mc, Coord(d, st, t));
    Expand(d, mc.pp, st, mc.tp);
    var q := d * mc.pp + st;
    MulMono(0, d, mc.pp);
    MulMono(0, q, mc.tp);
    assert x == q * mc.tp + t;
    DivModUnique(x, mc.tp, q, t);
    DivModUnique(q, mc.pp, d, st);
    DivDiv(x, mc.tp, mc.pp);
  }

  lemma RankDigits(mc: ModelShape, rank: nat)
    requires ValidShape(mc)
    ensures RankOf(mc, CoordOf(mc, rank)) == rank
  {
    var x := rank / mc.tp;
    DivDiv(rank, mc.tp, mc.pp);
    assert rank == x * mc.tp + rank % mc.tp;
    assert x == x / mc.pp * mc.pp + x % mc.pp;
    Expand(x / mc.pp, mc.pp, x % mc.pp, mc.tp);
  }

  lemma RankInGrid(mc: ModelShape, dp: nat, rank: nat)
    requires ValidShape(mc)
    ensures rank < dp * (mc.tp * mc.pp) <==> InGrid(mc, dp, CoordOf(mc, rank))
  {
    MulMono(1, mc.tp, mc.pp);
    DivLess(rank, mc.tp * mc.pp, dp);
  }

  /** With dp * tp * pp devices, ranks and grid coordinates determine each other. */
  lemma RanksAreGrid(mc: ModelShape, dp: nat, rank: nat, c: Coord)
    requires ValidShape(mc)
    ensures RankOf(mc, CoordOf(mc, rank)) == rank
    ensures rank < dp * (mc.tp * mc.pp) <==> InGrid(mc, dp, CoordOf(mc, rank))
    ensures InGrid(mc, dp, c) ==>
      0 <= RankOf(mc, c) < dp * (mc.tp * mc.pp) && CoordOf(mc, RankOf(mc, c)) == c
  {
    RankDigits(mc, rank);
    RankInGrid(mc, dp, rank);
    if InGrid(mc, dp, c) {
      CoordDigits(mc, c.replica, c.stage, c.peer);
      RankInGrid(mc, dp, RankOf(mc, c));
    }
  }

  /** The rank whose clock stands for stage st of replica d is that stage's first peer, both as the
      device and as the model compute their coordinates. */
  lemma RepresentativeIsFirstPeer(mc: ModelShape, dp: nat, d: nat, st: nat)
    requires ValidShape(mc) && d < dp && st < mc.pp
    ensures 0 <= ClusterTiming.Rep(d, st, mc.tp, mc.pp) < dp * (mc.tp * mc.pp)
    ensures CoordOf(mc, ClusterTiming.Rep(d, st, mc.tp, mc.pp)) == Coord(d, st, 0)
  {
    RanksAreGrid(mc, dp, 0, Coord(d, st, 0));
    assert RankOf(mc, Coord(d, st, 0)) == ClusterTiming.Rep(d, st, mc.tp, mc.pp);
  }

  /** The hop's destination, tp ranks up, is the same peer of the next stage of the same replica. */
  lemma HopReachesNextStage(mc: ModelShape, dp: nat, rank: nat)
    requires ValidShape(mc) && rank < dp * (mc.tp * mc.pp) && StageOf(mc, rank) < mc.pp - 1
    ensures rank + mc.tp < dp * (mc.tp * mc.pp)
    ensures CoordOf(mc, rank + mc.tp) == CoordOf(mc, rank).(stage := StageOf(mc, rank) + 1)
  {
    var c := CoordOf(mc, rank);
    RanksAreGrid(mc, dp, rank, c.(stage := c.stage + 1));
    assert (c.stage + 1) * mc.tp == c.stage * mc.tp + mc.tp;
  }

  // ---- The stage device lists --------------------------------------------------------------------

  lemma {:induction false} StageDevicesMembers(mc: ModelShape, n: nat, st: nat, rank: nat)
    requires ValidShape(mc)
    ensures rank in StageDevices(mc, n, st) <==> rank < n && StageOf(mc, rank) == st
    ensures forall i, j :: 0 <= i < j < |StageDevices(mc, n, st)| ==>
      StageDevices(mc, n, st)[i] < StageDevices(mc, n, st)[j] < n
  {
    if n > 0 {
      StageDevicesMembers(mc, n - 1, st, rank);
      var l := StageDevices(mc, n - 1, st);
      forall i | 0 <= i < |l| ensures l[i] < n - 1 { StageDevicesMembers(mc, n - 1, st, l[i]); }
    }
  }

  function Clamp(x: int, hi: nat): nat { if x < 0 then 0 else if x > hi then hi else x }

  /** Inside block d, the first y ranks hold this many of stage st. */
  lemma {:induction false} StageDevicesCount(mc: ModelShape, st: nat, d: nat, y: nat)
    requires ValidShape(mc) && st < mc.pp && y <= mc.tp * mc.pp
    ensures d * (mc.tp * mc.pp) + y >= 0
    ensures |StageDevices(mc, d * (mc.tp * mc.pp) + y, st)| == d * mc.tp + Clamp(y - st * mc.tp, mc.tp)
    decreases d, y
  {
    var b := mc.tp * mc.pp;
    MulMono(1, mc.tp, mc.pp);
    MulMono(0, d, b);
    MulMono(0, st, mc.tp);
    if y > 0 {
      StageDevicesCount(mc, st, d, y - 1);
      StageInBlock(mc, d, y - 1, st);
      var n := d * b + y;
      assert StageDevices(mc, n, st) ==
        StageDevices(mc, n - 1, st) + if StageOf(mc, n - 1) == st then [n - 1] else [];
    } else if d > 0 {
      StageDevicesCount(mc, st, d - 1, b);
      assert (d - 1) * b + b == d * b && (d - 1) * mc.tp + mc.tp == d * mc.tp;
      MulMono(st + 1, mc.pp, mc.tp);
      assert (st + 1) * mc.tp == st * mc.tp + mc.tp;
    }
  }

  lemma StageInBlock(mc: ModelShape, d: nat, x: nat, st: nat)
    requires ValidShape(mc) && x < mc.tp * mc.pp && st < mc.pp
    ensures d * (mc.tp * mc.pp) + x >= 0
    ensures StageOf(mc, d * (mc.tp * mc.pp) + x) == st <==> st * mc.tp <= x < st * mc.tp + mc.tp
  {
    var q, t := x / mc.tp, x % mc.tp;
    DivLess(x, mc.tp, mc.pp);
    assert x == q * mc.tp + t;
    CoordDigits(mc, d, q, t);
    assert RankOf(mc, Coord(d, q, t)) == d * (mc.tp * mc.pp) + x;
    QuotientInterval(q, st, t, mc.tp);
  }

  lemma QuotientInterval(q: int, k: int, r: int, n: int)
    requires 0 <= r < n
    ensures q == k <==> k * n <= q * n + r < k * n + n
  {
    assert (q + 1) * n == q * n + n && (k + 1) * n == k * n + n;
    if q < k { MulMono(q + 1, k, n); } else if q > k { MulMono(k + 1, q, n); }
  }

  /** Every rank is in exactly one stage's list, and all stages get dp * tp ranks. */
  lemma StageListsPartition(mc: ModelShape, dp: nat, st: nat, rank: nat)
    requires ValidShape(mc) && st < mc.pp
    ensures dp * (mc.tp * mc.pp) >= 0
    ensures |StageDevices(mc, dp * (mc.tp * mc.pp), st)| == dp * mc.tp
    ensures rank in StageDevices(mc, dp * (mc.tp * mc.pp), st)
      <==> rank < dp * (mc.tp * mc.pp) && st == StageOf(mc, rank)
  {
    MulMono(1, mc.tp, mc.pp);
    MulMono(0, st, mc.tp);
    StageDevicesCount(mc, st, dp, 0);
    StageDevicesMembers(mc, dp * (mc.tp * mc.pp), st, rank);
  }
}
