/** find_max_batch_size: the argmax of verified throughput over all parallelism configurations, in
    descending order of an analytic bound that also prunes configurations without simulating them. */
module ConfigSearch {
  import opened Arith
  import opened SimTypes
  import opened PerConfigSearch
  import opened AnalyticListing

  type Simulator = (Config, int) -> Verdict

  datatype Best = Best(tps: real, b: int, res: Verdict, bound: BoundReason, config: Config)

  function Probe(sim: Simulator, c: Config): int -> Verdict { (b: int) => sim(c, b) }

  /** What every caller of the search relies on: positive step times, and feasibility that is
      monotone in the batch and bounded, for each configuration. */
  ghost predicate Tame(sim: Simulator, c: Config, limit: nat) {
    && BoundedBy(Probe(sim, c), Dp(c), limit)
    && DownwardClosed(Probe(sim, c), Dp(c))
    && forall b :: sim(c, b).Success? ==> sim(c, b).tpot > 0.0
  }

  function Tps(b: int, tpot: real, gpus: int): real
    requires tpot > 0.0 && gpus > 0
  {
    b as real / (tpot * gpus as real)
  }

  lemma TpsOrder(b0: int, t0: real, b1: int, t1: real, gpus: int)
    requires t0 > 0.0 && t1 > 0.0 && gpus > 0 && b0 as real / t0 <= b1 as real / t1
    ensures Tps(b0, t0, gpus) <= Tps(b1, t1, gpus)
  {}

  /** The analytic throughput at the latency hint: sort key and pruning bound. */
  function Seed(c: Config, gpus: int): real
    requires gpus > 0
  {
    var est := c.estLatHintMs / 1000.0;
    c.sloHintBatch as real / (if est > 0.000000001 then est else 0.000000001) / gpus as real
  }

  /** Stable insertion: c goes before the first configuration that does not beat it. */
  function Insert(c: Config, cs: seq<Config>, key: Config -> real): seq<Config> {
    if cs == [] || key(cs[0]) <= key(c) then [c] + cs else [cs[0]] + Insert(c, cs[1..], key)
  }

  /** A stable sort, largest key first. */
  function Sort(cs: seq<Config>, key: Config -> real): seq<Config> {
    if cs == [] then [] else Insert(cs[0], Sort(cs[1..], key), key)
  }

  function SortBySeed(cs: seq<Config>, gpus: int): seq<Config>
    requires gpus > 0
  {
    Sort(cs, (c: Config) => Seed(c, gpus))
  }

  ghost predicate Descending(cs: seq<Config>, key: Config -> real) {
    forall i, j :: 0 <= i < j < |cs| ==> key(cs[i]) >= key(cs[j])
  }

  /** The configurations of one key, in order. */
  function WithKey(cs: seq<Config>, key: Config -> real, k: real): seq<Config> {
    if cs == [] then [] else (if key(cs[0]) == k then [cs[0]] else []) + WithKey(cs[1..], key, k)
  }

  lemma {:induction false} InsertKeepsElements(c: Config, cs: seq<Config>, key: Config -> real)
    ensures multiset(Insert(c, cs, key)) == multiset{c} + multiset(cs)
  {
    if !(cs == [] || key(cs[0]) <= key(c)) {
      InsertKeepsElements(c, cs[1..], key);
      assert cs == [cs[0]] + cs[1..];
    }
  }

  lemma {:induction false} SortKeepsElements(cs: seq<Config>, key: Config -> real)
    ensures multiset(Sort(cs, key)) == multiset(cs)
  {
    if cs != [] {
      SortKeepsElements(cs[1..], key);
      InsertKeepsElements(cs[0], Sort(cs[1..], key), key);
      assert cs == [cs[0]] + cs[1..];
    }
  }

  lemma {:induction false} InsertKeepsOrder(c: Config, cs: seq<Config>, key: Config -> real)
    requires Descending(cs, key)
    ensures Descending(Insert(c, cs, key), key)
  {
    if !(cs == [] || key(cs[0]) <= key(c)) {
      var rest := Insert(c, cs[1..], key);
      InsertKeepsOrder(c, cs[1..], key);
      InsertKeepsElements(c, cs[1..], key);
      forall j | 0 <= j < |rest| ensures key(cs[0]) >= key(rest[j]) {
        assert rest[j] in multiset(rest);
        assert rest[j] == c || rest[j] in cs[1..];
      }
    }
  }

  lemma {:induction false} InsertIsStable(c: Config, cs: seq<Config>, key: Config -> real, k: real)
    ensures WithKey(Insert(c, cs, key), key, k) == WithKey([c] + cs, key, k)
  {
    assert ([c] + cs)[1..] == cs;
    if !(cs == [] || key(cs[0]) <= key(c)) {
      InsertIsStable(c, cs[1..], key, k);
      assert ([cs[0]] + Insert(c, cs[1..], key))[1..] == Insert(c, cs[1..], key) && ([c] + cs[1..])[1..] == cs[1..];
    }
  }

  /** The order is descending, and configurations of equal key keep their listed order. */
  lemma {:induction false} SortIsStable(cs: seq<Config>, key: Config -> real, k: real)
    ensures Descending(Sort(cs, key), key)
    ensures WithKey(Sort(cs, key), key, k) == WithKey(cs, key, k)
  {
    if cs != [] {
      var rest := Sort(cs[1..], key);
      SortIsStable(cs[1..], key, k);
      InsertKeepsOrder(cs[0], rest, key);
      InsertIsStable(cs[0], rest, key, k);
      assert ([cs[0]] + rest)[1..] == rest;
    }
  }

  /** The operating point of one configuration: its largest feasible batch, if any. */
  ghost function Operating(sim: Simulator, c: Config, gpus: int, limit: nat): (o: Option<Best>)
    requires gpus > 0 && Tame(sim, c, limit)
  {
    var k := MaxK(Probe(sim, c), Dp(c), limit);
    if k == 0 then None else
    assert Feasible(Probe(sim, c), Dp(c), k) && !Feasible(Probe(sim, c), Dp(c), k + 1);
    var res := sim(c, k * Dp(c));
    Some(Best(Tps(k * Dp(c), res.tpot, gpus), k * Dp(c), res,
              Classify(Some(sim(c, (k + 1) * Dp(c)).why)), c))
  }

  /** What the per-config search returns is the configuration's operating point. */
  lemma SearchFindsOperating(sim: Simulator, c: Config, gpus: int, limit: nat, b: int,
                             res: Option<Verdict>, fail: Option<FailReason>)
    requires gpus > 0 && Tame(sim, c, limit)
    requires IsBoundary(Probe(sim, c), Dp(c), limit, b, res, fail)
    ensures b > 0 <==> res.Some?
    ensures b > 0 ==> res.value.Success? && res.value.tpot > 0.0
    ensures Operating(sim, c, gpus, limit) ==
      if b == 0 then None else Some(Best(Tps(b, res.value.tpot, gpus), b, res.value, Classify(fail), c))
  {
    var k := b / Dp(c);
    assert b == k * Dp(c);
    BoundaryIsMaximum(Probe(sim, c), Dp(c), limit, k, res);
  }

  /** One round of the argmax: a strictly better operating point replaces the current one. */
  function Better(best: Option<Best>, o: Option<Best>): Option<Best> {
    if o.None? || (best.Some? && o.value.tps <= best.value.tps) then best else o
  }

  function Skips(prune: bool, best: Option<Best>, c: Config, gpus: int): bool
    requires gpus > 0
  {
    prune && best.Some? && Seed(c, gpus) <= best.value.tps
  }

  ghost predicate AllTame(sim: Simulator, cs: seq<Config>, limit: nat) {
    forall i :: 0 <= i < |cs| ==> Tame(sim, cs[i], limit)
  }

  ghost function Scan(sim: Simulator, cs: seq<Config>, gpus: int, prune: bool, limit: nat): Option<Best>
    requires gpus > 0 && AllTame(sim, cs, limit)
  {
    if cs == [] then None else
    var best := Scan(sim, cs[..|cs| - 1], gpus, prune, limit);
    var c := cs[|cs| - 1];
    if Skips(prune, best, c, gpus) then best else Better(best, Operating(sim, c, gpus, limit))
  }

  /** The simulate-or-prune loop. lastFail is the failure of the last probe that failed, if any did. */
  method ScanConfigs(sim: Simulator, cs: seq<Config>, gpus: int, prune: bool, ghost limit: nat)
      returns (best: Option<Best>, lastFail: Option<FailReason>)
    requires gpus > 0 && AllTame(sim, cs, limit)
    ensures best == Scan(sim, cs, gpus, prune, limit)
    ensures best == None && cs != [] ==>
              FailsAt(Probe(sim, cs[|cs| - 1]), Dp(cs[|cs| - 1]), 1, lastFail)
  {
    best, lastFail := None, None;
    for i := 0 to |cs|
      invariant best == Scan(sim, cs[..i], gpus, prune, limit)
      invariant best == None && i > 0 ==> FailsAt(Probe(sim, cs[i - 1]), Dp(cs[i - 1]), 1, lastFail)
    {
      var c := cs[i];
      assert cs[..i + 1][..i] == cs[..i];
      if prune && best.Some? && Seed(c, gpus) <= best.value.tps {
        continue;
      }
      var bStar, resStar, cfgFail;
      ghost var p;
      bStar, resStar, cfgFail, p := PerConfigMaxBatch(Probe(sim, c), c, limit);
      SearchFindsOperating(sim, c, gpus, limit, bStar, resStar, cfgFail);
      lastFail := cfgFail;
      if bStar <= 0 || resStar == None {
        continue;
      }
      var tps := Tps(bStar, resStar.value.tpot, gpus);
      if best == None || tps > best.value.tps {
        best := Some(Best(tps, bStar, resStar.value, Classify(cfgFail), c));
      }
    }
    assert cs[..|cs|] == cs;
  }

  /** The seed bounds whatever the simulator can verify for this configuration. */
  ghost predicate SeedDominates(sim: Simulator, c: Config, gpus: int, limit: nat)
    requires gpus > 0 && Tame(sim, c, limit)
  {
    var o := Operating(sim, c, gpus, limit);
    o.Some? ==> o.value.tps <= Seed(c, gpus)
  }

  /** Pruning changes nothing, for any order of the configurations. */
  lemma {:induction false} PruningIsLossless(sim: Simulator, cs: seq<Config>, gpus: int, limit: nat)
    requires gpus > 0 && AllTame(sim, cs, limit)
    requires forall i :: 0 <= i < |cs| ==> SeedDominates(sim, cs[i], gpus, limit)
    ensures Scan(sim, cs, gpus, true, limit) == Scan(sim, cs, gpus, false, limit)
  {
    if cs != [] {
      PruningIsLossless(sim, cs[..|cs| - 1], gpus, limit);
      assert SeedDominates(sim, cs[|cs| - 1], gpus, limit);
    }
  }

  /** w is the first of the best operating points among cs. */
  ghost predicate Wins(sim: Simulator, cs: seq<Config>, gpus: int, limit: nat, best: Best, w: int)
    requires gpus > 0 && AllTame(sim, cs, limit)
  {
    && 0 <= w < |cs| && Operating(sim, cs[w], gpus, limit) == Some(best)
    && forall i :: 0 <= i < |cs| && Operating(sim, cs[i], gpus, limit).Some? ==>
         && Operating(sim, cs[i], gpus, limit).value.tps <= best.tps
         && (i < w ==> Operating(sim, cs[i], gpus, limit).value.tps < best.tps)
  }

  lemma WinnerExtends(sim: Simulator, cs: seq<Config>, gpus: int, limit: nat, prev: Best, w: int)
    requires gpus > 0 && AllTame(sim, cs, limit) && cs != [] && Wins(sim, cs[..|cs| - 1], gpus, limit, prev, w)
    ensures var o := Operating(sim, cs[|cs| - 1], gpus, limit);
      if o.Some? && o.value.tps > prev.tps then Wins(sim, cs, gpus, limit, o.value, |cs| - 1)
      else Wins(sim, cs, gpus, limit, prev, w)
  {}

  /** The unpruned scan returns the first configuration of highest throughput. */
  lemma {:induction false} ScanIsArgmax(sim: Simulator, cs: seq<Config>, gpus: int, limit: nat)
    requires gpus > 0 && AllTame(sim, cs, limit)
    ensures var best := Scan(sim, cs, gpus, false, limit);
      && (best == None <==> forall i :: 0 <= i < |cs| ==> Operating(sim, cs[i], gpus, limit) == None)
      && (best.Some? ==> exists w :: Wins(sim, cs, gpus, limit, best.value, w))
  {
    if cs != [] {
      var n := |cs| - 1;
      ScanIsArgmax(sim, cs[..n], gpus, limit);
      var prev := Scan(sim, cs[..n], gpus, false, limit);
      assert forall i :: 0 <= i < n ==> cs[..n][i] == cs[i];
      if prev.Some? {
        var w :| Wins(sim, cs[..n], gpus, limit, prev.value, w);
        WinnerExtends(sim, cs, gpus, limit, prev.value, w);
        assert cs[w] == cs[..n][w];
      } else {
        assert forall i :: 0 <= i < n ==> Operating(sim, cs[..n][i], gpus, limit) == None;
        var o := Operating(sim, cs[n], gpus, limit);
        assert o.Some? ==> Wins(sim, cs, gpus, limit, o.value, n);
      }
    }
  }

  // ---- Why the seed bounds the simulator ------------------------------------------------------

  /** Estimated batch over estimated latency, in sequences per millisecond. */
  function EstRate(eval: Evaluator, t: Tuple, k: int): real {
    if Latency(eval, t, k) > 0.0 then (k * t.dp) as real / Latency(eval, t, k) else 0.0
  }

  /** The estimate is at least a nanosecond, and grows at most linearly. */
  ghost predicate EstimateGrows(eval: Evaluator, t: Tuple) {
    && (forall k :: k >= 1 ==> Latency(eval, t, k) / 1000.0 >= 0.000000001)
    && (forall j, k :: 1 <= j <= k ==> EstRate(eval, t, j) <= EstRate(eval, t, k))
  }

  /** The simulator's verified batches fit analytically, are never faster than estimated, and meet the SLO. */
  ghost predicate MeasuredAbove(sim: Simulator, eval: Evaluator, t: Tuple, c: Config, slo: real) {
    forall k :: k >= 1 && Feasible(Probe(sim, c), t.dp, k) ==>
      Fits(eval, t, k) && Latency(eval, t, k) / 1000.0 <= sim(c, k * t.dp).tpot <= slo
  }

  /** No batch that the bracket's guard kept out of the listing promises more throughput than the hint. */
  ghost predicate NothingBeyondCeiling(eval: Evaluator, t: Tuple, c: Config, sloMs: real, limit: nat) {
    forall k :: KCap(c) < k <= limit && Fits(eval, t, k) && Latency(eval, t, k) <= sloMs ==>
      EstRate(eval, t, k) <= EstRate(eval, t, KHint(c))
  }

  /** It holds whenever a bracket probe failed, or the SLO already binds at the ceiling, or no batch beyond it runs. */
  lemma CeilingSuffices(eval: Evaluator, t: Tuple, c: Config, sloMs: real, limit: nat)
    requires LocalLine(eval, t, sloMs, c) && CapacityDownwardClosed(eval, t) && LatencyNondecreasing(eval, t)
    requires BracketCloses(eval, t) || Latency(eval, t, KCap(c)) > sloMs || limit <= KCap(c)
    ensures NothingBeyondCeiling(eval, t, c, sloMs, limit)
  {}

  lemma RateBound(b: int, latMs: real, tpot: real, hintB: int, hintMs: real)
    requires b >= 0 && 0.0 < latMs / 1000.0 <= tpot && hintMs > 0.0
    requires b as real / latMs <= hintB as real / hintMs
    ensures b as real / tpot <= hintB as real / (hintMs / 1000.0)
  {
    RDivAnti(b as real, latMs / 1000.0, tpot);
    ScaleDivisor(b as real, latMs);
    ScaleDivisor(hintB as real, hintMs);
  }

  lemma ScaleDivisor(x: real, ms: real)
    requires ms > 0.0
    ensures x / (ms / 1000.0) == x / ms * 1000.0
  {}

  lemma SeedAsTps(c: Config, gpus: int)
    requires gpus > 0 && c.estLatHintMs / 1000.0 >= 0.000000001
    ensures Seed(c, gpus) == Tps(c.sloHintBatch, c.estLatHintMs / 1000.0, gpus)
  {}

  /** The pruning bound follows from the audited invariant estimate <= measured. */
  lemma SeedIsUpperBound(sim: Simulator, eval: Evaluator, t: Tuple, c: Config, slo: real, gpus: int, limit: nat)
    requires gpus > 0 && Tame(sim, c, limit)
    requires LocalLine(eval, t, slo * 1000.0, c) && NothingBeyondCeiling(eval, t, c, slo * 1000.0, limit)
    requires CapacityDownwardClosed(eval, t) && LatencyNondecreasing(eval, t)
    requires EstimateGrows(eval, t) && MeasuredAbove(sim, eval, t, c, slo)
    ensures SeedDominates(sim, c, gpus, limit)
  {
    var k := MaxK(Probe(sim, c), Dp(c), limit);
    if k > 0 {
      var tpot := sim(c, k * t.dp).tpot;
      assert Feasible(Probe(sim, c), t.dp, k) && tpot > 0.0;
      assert Fits(eval, t, k) && Latency(eval, t, k) / 1000.0 <= tpot <= slo;
      EstimateAtHint(eval, t, c, slo * 1000.0, limit, k);
      MulMono(1, k, t.dp);
      RateBound(k * t.dp, Latency(eval, t, k), tpot, c.sloHintBatch, c.estLatHintMs);
      TpsOrder(k * t.dp, tpot, c.sloHintBatch, c.estLatHintMs / 1000.0, gpus);
      SeedAsTps(c, gpus);
    }
  }

  /** No batch that fits and meets the SLO promises more than the hint. */
  lemma EstimateAtHint(eval: Evaluator, t: Tuple, c: Config, sloMs: real, limit: nat, k: int)
    requires LocalLine(eval, t, sloMs, c) && NothingBeyondCeiling(eval, t, c, sloMs, limit)
    requires CapacityDownwardClosed(eval, t) && LatencyNondecreasing(eval, t) && EstimateGrows(eval, t)
    requires 1 <= k <= limit
    ensures Fits(eval, t, k) && Latency(eval, t, k) <= sloMs ==> EstRate(eval, t, k) <= EstRate(eval, t, KHint(c))
    ensures Latency(eval, t, k) > 0.0 && c.estLatHintMs / 1000.0 >= 0.000000001
  {
    ListingIsExact(eval, t, sloMs, c);
    assert Latency(eval, t, k) / 1000.0 >= 0.000000001 && Latency(eval, t, KHint(c)) / 1000.0 >= 0.000000001;
  }

  // ---- When the guard costs the seed its bound ----------------------------------------------------

  /** A simulator of c that is as fast as the estimate and accepts exactly the batches up to m * dp. */
  function FastUpTo(eval: Evaluator, t: Tuple, c: Config, m: nat): Simulator {
    (x: Config, b: int) =>
      if x == c && b > 0 && b % Dp(c) == 0 && b / Dp(c) <= m
      then Success(Latency(eval, t, b / Dp(c)) / 1000.0, 0, None, None) else Failure(OtherFailure)
  }

  lemma FastUpToAt(eval: Evaluator, t: Tuple, c: Config, m: nat, k: int)
    ensures Feasible(Probe(FastUpTo(eval, t, c, m), c), Dp(c), k) <==> 1 <= k <= m
    ensures 1 <= k <= m ==> FastUpTo(eval, t, c, m)(c, k * Dp(c)).tpot == Latency(eval, t, k) / 1000.0
  {
    DivMultiple(k, Dp(c));
    if k >= 1 { MulMono(1, k, Dp(c)); } else { MulMono(k, 0, Dp(c)); }
  }

  lemma FastUpToIsTame(eval: Evaluator, t: Tuple, c: Config, m: nat, limit: nat)
    requires EstimateGrows(eval, t) && m <= limit
    ensures Tame(FastUpTo(eval, t, c, m), c, limit) && MaxK(Probe(FastUpTo(eval, t, c, m), c), Dp(c), limit) == m
  {
    var sim := FastUpTo(eval, t, c, m);
    forall k ensures Feasible(Probe(sim, c), Dp(c), k) <==> 1 <= k <= m { FastUpToAt(eval, t, c, m, k); }
    forall b | sim(c, b).Success? ensures sim(c, b).tpot > 0.0 {
      assert b / Dp(c) >= 1;
      assert Latency(eval, t, b / Dp(c)) / 1000.0 >= 0.000000001;
    }
  }

  lemma FastUpToOperates(eval: Evaluator, t: Tuple, c: Config, m: nat, gpus: int, limit: nat)
    requires gpus > 0 && EstimateGrows(eval, t) && 1 <= m <= limit
    ensures Latency(eval, t, m) / 1000.0 > 0.0 && Tame(FastUpTo(eval, t, c, m), c, limit)
    ensures var o := Operating(FastUpTo(eval, t, c, m), c, gpus, limit);
      o.Some? && o.value.tps == Tps(m * Dp(c), Latency(eval, t, m) / 1000.0, gpus)
  {
    FastUpToIsTame(eval, t, c, m, limit);
    FastUpToAt(eval, t, c, m, m);
    assert Latency(eval, t, m) / 1000.0 >= 0.000000001;
  }

  lemma FastUpToIsAbove(eval: Evaluator, t: Tuple, c: Config, slo: real, m: nat)
    requires Dp(c) == t.dp && CapacityDownwardClosed(eval, t) && LatencyNondecreasing(eval, t)
    requires m >= 1 && Fits(eval, t, m) && Latency(eval, t, m) <= slo * 1000.0
    ensures MeasuredAbove(FastUpTo(eval, t, c, m), eval, t, c, slo)
  {
    forall k | k >= 1 && Feasible(Probe(FastUpTo(eval, t, c, m), c), t.dp, k)
      ensures Fits(eval, t, k) && Latency(eval, t, k) / 1000.0 <= FastUpTo(eval, t, c, m)(c, k * t.dp).tpot <= slo
    {
      FastUpToAt(eval, t, c, m, k);
      assert Latency(eval, t, k) <= Latency(eval, t, m);
    }
  }

  lemma TpsStrict(b0: int, lat0: real, b1: int, lat1: real, gpus: int)
    requires lat0 > 0.0 && lat1 > 0.0 && gpus > 0 && b0 as real / lat0 < b1 as real / lat1
    ensures Tps(b0, lat0 / 1000.0, gpus) < Tps(b1, lat1 / 1000.0, gpus)
  {}

  /** The seed bounds every simulator that stands in the audited relation exactly when no batch beyond the
      ceiling promises more than the hint. */
  lemma SeedBoundsIff(eval: Evaluator, t: Tuple, c: Config, slo: real, gpus: int, limit: nat)
    requires gpus > 0 && LocalLine(eval, t, slo * 1000.0, c)
    requires CapacityDownwardClosed(eval, t) && LatencyNondecreasing(eval, t) && EstimateGrows(eval, t)
    ensures (forall sim: Simulator ::
              Tame(sim, c, limit) && MeasuredAbove(sim, eval, t, c, slo) ==> SeedDominates(sim, c, gpus, limit))
       <==> NothingBeyondCeiling(eval, t, c, slo * 1000.0, limit)
  {
    if NothingBeyondCeiling(eval, t, c, slo * 1000.0, limit) {
      forall sim: Simulator | Tame(sim, c, limit) && MeasuredAbove(sim, eval, t, c, slo)
        ensures SeedDominates(sim, c, gpus, limit)
      {
        SeedIsUpperBound(sim, eval, t, c, slo, gpus, limit);
      }
    } else {
      var m :| KCap(c) < m <= limit && Fits(eval, t, m) && Latency(eval, t, m) <= slo * 1000.0 &&
        EstRate(eval, t, m) > EstRate(eval, t, KHint(c));
      GuardHides(eval, t, c, slo, gpus, limit, m);
    }
  }

  lemma PromiseBeatsSeed(eval: Evaluator, t: Tuple, c: Config, sloMs: real, gpus: int, m: nat)
    requires gpus > 0 && LocalLine(eval, t, sloMs, c) && EstimateGrows(eval, t)
    requires m >= 1 && EstRate(eval, t, m) > EstRate(eval, t, KHint(c))
    ensures Latency(eval, t, m) / 1000.0 > 0.0 && Tps(m * Dp(c), Latency(eval, t, m) / 1000.0, gpus) > Seed(c, gpus)
  {
    assert Latency(eval, t, m) / 1000.0 >= 0.000000001 && Latency(eval, t, KHint(c)) / 1000.0 >= 0.000000001;
    SeedAsTps(c, gpus);
    TpsStrict(c.sloHintBatch, c.estLatHintMs, m * t.dp, Latency(eval, t, m), gpus);
  }

  /** A hidden batch of higher promise lets some simulator beat the seed. */
  lemma GuardHides(eval: Evaluator, t: Tuple, c: Config, slo: real, gpus: int, limit: nat, m: nat)
    requires gpus > 0 && LocalLine(eval, t, slo * 1000.0, c)
    requires CapacityDownwardClosed(eval, t) && LatencyNondecreasing(eval, t) && EstimateGrows(eval, t)
    requires KCap(c) < m <= limit && Fits(eval, t, m) && Latency(eval, t, m) <= slo * 1000.0
    requires EstRate(eval, t, m) > EstRate(eval, t, KHint(c))
    ensures var sim := FastUpTo(eval, t, c, m);
      Tame(sim, c, limit) && MeasuredAbove(sim, eval, t, c, slo) && !SeedDominates(sim, c, gpus, limit)
  {
    FastUpToIsAbove(eval, t, c, slo, m);
    FastUpToOperates(eval, t, c, m, gpus, limit);
    PromiseBeatsSeed(eval, t, c, slo * 1000.0, gpus, m);
  }

  /** Verified batch size over step time. */
  function Rate(sim: Simulator, c: Config, k: int): real {
    var res := sim(c, k * Dp(c));
    if res.Success? && res.tpot > 0.0 then (k * Dp(c)) as real / res.tpot else 0.0
  }

  /** Larger verified batches of one configuration never lose throughput. */
  ghost predicate ThroughputNondecreasing(sim: Simulator, c: Config) {
    forall j, k :: 1 <= j <= k && Feasible(Probe(sim, c), Dp(c), k) ==> Rate(sim, c, j) <= Rate(sim, c, k)
  }

  /** The configuration's operating point beats each of its other verified batches. */
  lemma OperatingIsBest(sim: Simulator, c: Config, gpus: int, limit: nat, k: int)
    requires gpus > 0 && Tame(sim, c, limit) && ThroughputNondecreasing(sim, c)
    requires k >= 1 && Feasible(Probe(sim, c), Dp(c), k)
    ensures Operating(sim, c, gpus, limit).Some?
    ensures Tps(k * Dp(c), sim(c, k * Dp(c)).tpot, gpus) <= Operating(sim, c, gpus, limit).value.tps
  {
    var m := MaxK(Probe(sim, c), Dp(c), limit);
    assert k <= m;
    assert Feasible(Probe(sim, c), Dp(c), m);
    assert Rate(sim, c, k) <= Rate(sim, c, m);
    TpsOrder(k * Dp(c), sim(c, k * Dp(c)).tpot, m * Dp(c), sim(c, m * Dp(c)).tpot, gpus);
  }

  // ---- The whole search --------------------------------------------------------------------------

  function FoundAt(b: int, res: Verdict, bound: BoundReason): Found
    requires res.Success?
  {
    Found(b, res.tpot, res.pecKv, res.pecCap, if res.dp == 0 then 1 else res.dp, bound)
  }

  const INFEASIBLE := Found(0, 0.0, None, None, 1, Unknown)

  function WithoutPipeline(cs: seq<Config>): seq<Config> {
    if cs == [] then [] else (if cs[0].pp == 1 then [cs[0]] else []) + WithoutPipeline(cs[1..])
  }

  /** The configurations that the search visits, in visiting order. */
  function Candidates(configs: seq<Config>, gpus: int, restrictPp1: bool): seq<Config>
    requires gpus > 0
  {
    SortBySeed(if restrictPp1 then WithoutPipeline(configs) else configs, gpus)
  }

  /** One optimizer-picked run at batch 1. */
  function Fallback(auto: Verdict, lastFail: Option<FailReason>): Found {
    if auto.Success? then FoundAt(1, auto, Classify(lastFail))
    else INFEASIBLE.(bound := Classify(Some(auto.why)))
  }

  lemma NothingLostBySorting(cs: seq<Config>, gpus: int)
    requires gpus > 0
    ensures SortBySeed(cs, gpus) == [] <==> cs == []
  {}

  lemma {:induction false} ScanSucceeds(sim: Simulator, cs: seq<Config>, gpus: int, prune: bool, limit: nat)
    requires gpus > 0 && AllTame(sim, cs, limit)
    ensures var best := Scan(sim, cs, gpus, prune, limit); best.Some? ==> best.value.res.Success?
  {
    if cs != [] { ScanSucceeds(sim, cs[..|cs| - 1], gpus, prune, limit); }
  }

  /** The search's result: the scan's winner; without one, the infeasible result where nothing was visited, or the
      optimizer's pick together with the last visited configuration's failure. */
  ghost function SearchResult(sim: Simulator, auto: Verdict, capFeasibleAt1: bool, configs: seq<Config>,
                        gpus: int, restrictPp1: bool, prune: bool, limit: nat): Found
    requires gpus > 0 && AllTame(sim, Candidates(configs, gpus, restrictPp1), limit)
  {
    var cs := Candidates(configs, gpus, restrictPp1);
    ScanSucceeds(sim, cs, gpus, prune, limit);
    var best := Scan(sim, cs, gpus, prune, limit);
    if best.Some? then FoundAt(best.value.b, best.value.res, best.value.bound)
    else if cs == [] then if !capFeasibleAt1 || (restrictPp1 && configs != []) then INFEASIBLE else Fallback(auto, None)
    else Fallback(auto, FailureOf(sim(cs[|cs| - 1], Dp(cs[|cs| - 1]))))
  }

  function FailureOf(v: Verdict): Option<FailReason> { if v.Success? then None else Some(v.why) }

  /** auto is the simulator's answer at batch 1 when it picks the configuration itself. */
  method FindMaxBatchSize(sim: Simulator, auto: Verdict, capFeasibleAt1: bool, configs: seq<Config>,
                          gpus: int, restrictPp1: bool, prune: bool, ghost limit: nat)
      returns (found: Found)
    requires gpus > 0 && AllTame(sim, Candidates(configs, gpus, restrictPp1), limit)
    ensures found == SearchResult(sim, auto, capFeasibleAt1, configs, gpus, restrictPp1, prune, limit)
    ensures var cs := Candidates(configs, gpus, restrictPp1);
      Scan(sim, cs, gpus, prune, limit) == None && cs != [] ==>
        var last := cs[|cs| - 1];
        !sim(last, Dp(last)).Success? && found == Fallback(auto, Some(sim(last, Dp(last)).why))
  {
    var cs := configs;
    if restrictPp1 {
      cs := WithoutPipeline(configs);
      if configs != [] && cs == [] {
        return INFEASIBLE;
      }
    }
    NothingLostBySorting(cs, gpus);
    if cs == [] {
      return if !capFeasibleAt1 then INFEASIBLE else Fallback(auto, None);
    }
    cs := SortBySeed(cs, gpus);
    var best, lastFail := ScanConfigs(sim, cs, gpus, prune, limit);
    if best == None {
      return Fallback(auto, lastFail);
    }
    ScanSucceeds(sim, cs, gpus, prune, limit);
    return FoundAt(best.value.b, best.value.res, best.value.bound);
  }

  lemma {:induction false} WithoutPipelineMembers(cs: seq<Config>, c: Config)
    ensures c in WithoutPipeline(cs) <==> c in cs && c.pp == 1
  {
    if cs != [] { WithoutPipelineMembers(cs[1..], c); assert cs == [cs[0]] + cs[1..]; }
  }

  /** Sorting and restricting lose no eligible configuration and invent none. */
  lemma CandidateMembers(configs: seq<Config>, gpus: int, restrictPp1: bool, c: Config)
    requires gpus > 0
    ensures c in Candidates(configs, gpus, restrictPp1) <==> c in configs && (restrictPp1 ==> c.pp == 1)
  {
    WithoutPipelineMembers(configs, c);
    var cs := if restrictPp1 then WithoutPipeline(configs) else configs;
    SortKeepsElements(cs, (x: Config) => Seed(x, gpus));
    assert c in cs <==> c in multiset(cs);
    assert c in SortBySeed(cs, gpus) <==> c in multiset(SortBySeed(cs, gpus));
  }

  function TupleOf(c: Config): Tuple { Tuple(c.tp, c.pp, c.ep, c.dp) }

  /** c is a line of the analytic listing, and the audited relation holds for it. */
  ghost predicate Audited(sim: Simulator, eval: Evaluator, c: Config, slo: real, limit: nat) {
    && Tame(sim, c, limit)
    && LocalLine(eval, TupleOf(c), slo * 1000.0, c) && NothingBeyondCeiling(eval, TupleOf(c), c, slo * 1000.0, limit)
    && CapacityDownwardClosed(eval, TupleOf(c)) && LatencyNondecreasing(eval, TupleOf(c))
    && EstimateGrows(eval, TupleOf(c))
    && MeasuredAbove(sim, eval, TupleOf(c), c, slo) && ThroughputNondecreasing(sim, c)
  }

  /** The verified batch k * dp of c runs, and at no higher throughput than tps. */
  ghost predicate NoFaster(sim: Simulator, c: Config, k: int, gpus: int, tps: real)
    requires gpus > 0
  {
    var res := sim(c, k * Dp(c));
    res.Success? && res.tpot > 0.0 && Tps(k * Dp(c), res.tpot, gpus) <= tps
  }

  /** Main result. When the analytic model stands in the audited relation to the simulator, the pruned
      search finds the very winner of the unpruned one: the first, in visiting order, of the operating
      points of highest throughput. No listed configuration has a verified batch that beats it. */
  lemma PrunedSearchIsOptimal(sim: Simulator, eval: Evaluator, configs: seq<Config>, gpus: int,
                              restrictPp1: bool, slo: real, limit: nat)
    requires gpus > 0 && forall c :: c in configs ==> Audited(sim, eval, c, slo, limit)
    ensures var cs := Candidates(configs, gpus, restrictPp1);
      && AllTame(sim, cs, limit)
      && var best := Scan(sim, cs, gpus, true, limit);
      && best == Scan(sim, cs, gpus, false, limit)
      && (best.Some? ==> exists w :: Wins(sim, cs, gpus, limit, best.value, w))
      && forall c, k :: c in configs && (restrictPp1 ==> c.pp == 1) && k >= 1 && Feasible(Probe(sim, c), Dp(c), k) ==>
           best.Some? && NoFaster(sim, c, k, gpus, best.value.tps)
  {
    var cs := Candidates(configs, gpus, restrictPp1);
    forall i | 0 <= i < |cs|
      ensures Tame(sim, cs[i], limit) && SeedDominates(sim, cs[i], gpus, limit)
    {
      CandidateMembers(configs, gpus, restrictPp1, cs[i]);
      assert Audited(sim, eval, cs[i], slo, limit);
      SeedIsUpperBound(sim, eval, TupleOf(cs[i]), cs[i], slo, gpus, limit);
    }
    PruningIsLossless(sim, cs, gpus, limit);
    ScanIsArgmax(sim, cs, gpus, limit);
    var best := Scan(sim, cs, gpus, false, limit);
    forall c, k | c in configs && (restrictPp1 ==> c.pp == 1) && k >= 1 && Feasible(Probe(sim, c), Dp(c), k)
      ensures best.Some? && NoFaster(sim, c, k, gpus, best.value.tps)
    {
      CandidateMembers(configs, gpus, restrictPp1, c);
      var i :| 0 <= i < |cs| && cs[i] == c;
      OperatingIsBest(sim, c, gpus, limit, k);
    }
  }

  /** So the reported result does not depend on pruning either, the fallbacks included. */
  lemma PruningKeepsResult(sim: Simulator, eval: Evaluator, auto: Verdict, capFeasibleAt1: bool, configs: seq<Config>,
                           gpus: int, restrictPp1: bool, slo: real, limit: nat)
    requires gpus > 0 && forall c :: c in configs ==> Audited(sim, eval, c, slo, limit)
    ensures AllTame(sim, Candidates(configs, gpus, restrictPp1), limit)
    ensures SearchResult(sim, auto, capFeasibleAt1, configs, gpus, restrictPp1, true, limit)
         == SearchResult(sim, auto, capFeasibleAt1, configs, gpus, restrictPp1, false, limit)
  {
    PrunedSearchIsOptimal(sim, eval, configs, gpus, restrictPp1, slo, limit);
  }
}
