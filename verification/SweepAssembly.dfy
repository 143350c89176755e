/** The sweep driver: cells run in process pools whose futures complete in any order, some workers die, and
    the result tables are assembled afterwards from the dictionaries that the completions filled. */
module SweepAssembly {
  import opened SimTypes

  type Gpus = n: nat | n >= 1 witness 1

  /** One call of find_max_batch_size: the token lengths follow from the workload's name. */
  datatype Cell = Cell(model: string, workload: string, mem: string, gpu: Gpus, slo: real)

  /** Which pool a cell is submitted to. The same cell may run in two of them, with different luck. */
  datatype Stage = Baseline | Sweep | Sensitivity | Pec

  /** What the pools' workers return, None for a worker that died. */
  type Workers = (Stage, Cell) -> Option<Found>

  const CRASHED := Found(0, 0.0, None, None, 1, WorkerCrashed)
  const ONLINE := 0.1
  const OFFLINE := 86400.0

  function Got(ran: Workers, stage: Stage, c: Cell): Found {
    var o := ran(stage, c);
    if o.Some? then o.value else CRASHED
  }

  datatype Scope = Scope(
    models: seq<string>, workloads: seq<string>, mems: seq<string>, gpus: seq<Gpus>, slos: seq<real>,
    sensitivityGpus: seq<Gpus>, pecWorkloads: seq<string>, pecGpus: seq<Gpus>, pecMems: seq<string>)

  const SHIPPED := Scope(
    ["llama3_405B", "llama4_maverick"], ["SHORT", "MID", "LONG"], ["HBM4", "HBF", "HBF+", "CONV", "CONV+"],
    [1, 2, 4, 8, 16], [0.05, 0.1, 0.2, 86400.0],
    [4, 8, 16], ["SHORT", "MID", "LONG"], [1, 8, 16], ["HBF", "HBF+"])

  // ---- Which cells a sweep covers, and which run a cell's outcome comes from ---------------------

  predicate OnBaseline(sc: Scope, c: Cell) {
    c.model in sc.models && c.workload in sc.workloads && c.mem == "HBM4" && c.gpu == 8 && c.slo == ONLINE
  }

  predicate OnSweep(sc: Scope, c: Cell) {
    c.model in sc.models && c.workload in sc.workloads && c.mem in sc.mems && c.gpu in sc.gpus && c.slo == ONLINE
  }

  predicate OnSensitivity(sc: Scope, c: Cell) {
    c.model in sc.models && c.workload == "LONG" && c.mem in sc.mems && c.gpu in sc.sensitivityGpus && c.slo in sc.slos
  }

  predicate OnPec(sc: Scope, c: Cell) {
    c.model in sc.models && c.workload in sc.pecWorkloads && c.mem in sc.pecMems && c.gpu in sc.pecGpus &&
    c.slo == OFFLINE
  }

  /** The HBM4 cell on 8 GPUs that a cell is normalized to. */
  function BaseOf(c: Cell): Cell { c.(mem := "HBM4", gpu := 8) }

  function SweepStage(c: Cell): Stage { if c.mem == "HBM4" && c.gpu == 8 then Baseline else Sweep }

  function SensitivityStage(c: Cell): Stage {
    if c.mem == "HBM4" && c.gpu == 8 && c.slo == ONLINE then Baseline else Sensitivity
  }

  /** PEC cells that the sensitivity sweep has already run. */
  predicate PecDuplicate(c: Cell) {
    c.workload == "LONG" && (c.gpu == 8 || c.gpu == 16) && (c.mem == "HBF" || c.mem == "HBF+")
  }

  function PecStage(c: Cell): Stage { if PecDuplicate(c) then Sensitivity else Pec }

  // ---- Canonical specification lists -------------------------------------------------------------

  function FlatMap<A(!new), B(!new)>(f: A -> seq<B>, xs: seq<A>): (r: seq<B>)
    ensures forall b :: b in r <==> exists x :: x in xs && b in f(x)
  {
    if xs == [] then [] else
    assert forall b :: (exists x :: x in xs && b in f(x)) ==> b in f(xs[0]) || exists x :: x in xs[1..] && b in f(x);
    f(xs[0]) + FlatMap(f, xs[1..])
  }

  function Filter<A(!new)>(p: A -> bool, xs: seq<A>): (r: seq<A>)
    ensures forall x :: x in r <==> x in xs && p(x)
  {
    if xs == [] then [] else (if p(xs[0]) then [xs[0]] else []) + Filter(p, xs[1..])
  }

  function BaselineSpecs(sc: Scope): (r: seq<Cell>)
    ensures forall c :: c in r <==> OnBaseline(sc, c)
  {
    FlatMap(m => FlatMap(w => [Cell(m, w, "HBM4", 8, ONLINE)], sc.workloads), sc.models)
  }

  function SweepBlock(sc: Scope, m: string, w: string): (r: seq<Cell>)
    ensures forall c ::
      c in r <==> c.model == m && c.workload == w && c.mem in sc.mems && c.gpu in sc.gpus && c.slo == ONLINE
  {
    FlatMap(mem => FlatMap(g => [Cell(m, w, mem, g, ONLINE)], sc.gpus), sc.mems)
  }

  function SweepSpecs(sc: Scope): (r: seq<Cell>)
    ensures forall c :: c in r <==> OnSweep(sc, c)
  {
    FlatMap(m => FlatMap(w => SweepBlock(sc, m, w), sc.workloads), sc.models)
  }

  function SensitivityBlock(sc: Scope, m: string, mem: string): (r: seq<Cell>)
    ensures forall c :: c in r <==>
      c.model == m && c.workload == "LONG" && c.mem == mem && c.gpu in sc.sensitivityGpus && c.slo in sc.slos
  {
    FlatMap(g => FlatMap(slo => [Cell(m, "LONG", mem, g, slo)], sc.slos), sc.sensitivityGpus)
  }

  function SensitivitySpecs(sc: Scope): (r: seq<Cell>)
    ensures forall c :: c in r <==> OnSensitivity(sc, c)
  {
    FlatMap(m => FlatMap(mem => SensitivityBlock(sc, m, mem), sc.mems), sc.models)
  }

  function PecBlock(sc: Scope, m: string, w: string): (r: seq<Cell>)
    ensures forall c :: c in r <==>
      c.model == m && c.workload == w && c.mem in sc.pecMems && c.gpu in sc.pecGpus && c.slo == OFFLINE
  {
    FlatMap(g => FlatMap(mem => [Cell(m, w, mem, g, OFFLINE)], sc.pecMems), sc.pecGpus)
  }

  function PecSpecs(sc: Scope): (r: seq<Cell>)
    ensures forall c :: c in r <==> OnPec(sc, c)
  {
    FlatMap(m => FlatMap(w => PecBlock(sc, m, w), sc.pecWorkloads), sc.models)
  }

  function SweepSubmitted(sc: Scope): (r: seq<Cell>)
    ensures forall c :: c in r <==> OnSweep(sc, c) && SweepStage(c) == Sweep
  {
    Filter(c => SweepStage(c) == Sweep, SweepSpecs(sc))
  }

  function SensitivitySubmitted(sc: Scope): (r: seq<Cell>)
    ensures forall c :: c in r <==> OnSensitivity(sc, c) && SensitivityStage(c) == Sensitivity
  {
    Filter(c => SensitivityStage(c) == Sensitivity, SensitivitySpecs(sc))
  }

  /** The sensitivity cells run in two pools, the unconstrained ones with fewer workers. */
  function SensitivityPool(sc: Scope, offline: bool): (r: seq<Cell>)
    ensures forall c ::
      c in r <==> OnSensitivity(sc, c) && SensitivityStage(c) == Sensitivity && (c.slo >= 1000.0) == offline
  {
    Filter((c: Cell) => (c.slo >= 1000.0) == offline, SensitivitySubmitted(sc))
  }

  function PecDuplicates(sc: Scope): (r: seq<Cell>)
    ensures forall c :: c in r <==> OnPec(sc, c) && PecDuplicate(c)
  {
    Filter(c => PecDuplicate(c), PecSpecs(sc))
  }

  function PecSubmitted(sc: Scope): (r: seq<Cell>)
    ensures forall c :: c in r <==> OnPec(sc, c) && !PecDuplicate(c)
  {
    Filter(c => !PecDuplicate(c), PecSpecs(sc))
  }

  // ---- The tables as a plain loop over cells would produce them ----------------------------------

  function PerGpu(o: Found, g: Gpus): real { o.maxBatch as real / g as real }

  function Tps(o: Found, g: Gpus): real {
    if o.tpot > 0.0 then assert o.tpot * g as real > 0.0; o.maxBatch as real / (o.tpot * g as real) else 0.0
  }

  function Norm(x: real, base: real): real { if base > 0.0 then x / base else 0.0 }

  datatype Row = Row(cell: Cell, outcome: Found, perGpu: real, tps: real, normBatch: real, normTps: real)
  datatype SloRow = SloRow(cell: Cell, perGpu: real, tps: real, normBatch: real, normTps: real)
  datatype PecRow = PecRow(cell: Cell, maxBatch: int, tpot: real, kv: Option<real>, capacity: Option<real>)

  function RowOf(c: Cell, o: Found, base: Found): Row {
    Row(c, o, PerGpu(o, c.gpu), Tps(o, c.gpu), Norm(PerGpu(o, c.gpu), PerGpu(base, 8)),
        Norm(Tps(o, c.gpu), Tps(base, 8)))
  }

  function SloRowOf(c: Cell, o: Found, base: Found): SloRow {
    SloRow(c, PerGpu(o, c.gpu), Tps(o, c.gpu), Norm(PerGpu(o, c.gpu), PerGpu(base, 8)),
           Norm(Tps(o, c.gpu), Tps(base, 8)))
  }

  function PecRowOf(c: Cell, o: Found): PecRow { PecRow(c, o.maxBatch, o.tpot, o.pecKv, o.pecCap) }

  function Map<A, B>(f: A -> B, xs: seq<A>): (r: seq<B>)
    ensures |r| == |xs| && forall i :: 0 <= i < |r| ==> r[i] == f(xs[i])
  {
    seq(|xs|, i requires 0 <= i < |xs| => f(xs[i]))
  }

  /** The row of a cell: the outcome of its own run, normalized to the baseline's. */
  function SweepRow(ran: Workers, c: Cell): Row { RowOf(c, Got(ran, SweepStage(c), c), Got(ran, Baseline, BaseOf(c))) }

  function SensitivityRow(ran: Workers, c: Cell): SloRow {
    SloRowOf(c, Got(ran, SensitivityStage(c), c), Got(ran, SensitivityStage(BaseOf(c)), BaseOf(c)))
  }

  function OfflineRow(ran: Workers, c: Cell): PecRow { PecRowOf(c, Got(ran, PecStage(c), c)) }

  function Results(sc: Scope, ran: Workers): seq<Row> { Map(c => SweepRow(ran, c), SweepSpecs(sc)) }
  function SloResults(sc: Scope, ran: Workers): seq<SloRow> { Map(c => SensitivityRow(ran, c), SensitivitySpecs(sc)) }
  function PecResults(sc: Scope, ran: Workers): seq<PecRow> { Map(c => OfflineRow(ran, c), PecSpecs(sc)) }

  // ---- Dictionaries filled in completion order ---------------------------------------------------

  type BaselineMap = map<(string, string), Found>
  type SweepMap = map<(string, string, string, Gpus), Found>
  type SensitivityMap = map<(string, string, Gpus, real), Found>
  type PecMap = map<(string, string, Gpus, string), Found>

  function BaselineKey(c: Cell): (string, string) { (c.model, c.workload) }
  function SweepKey(c: Cell): (string, string, string, Gpus) { (c.model, c.workload, c.mem, c.gpu) }
  function SensitivityKey(c: Cell): (string, string, Gpus, real) { (c.model, c.mem, c.gpu, c.slo) }
  function PecKey(c: Cell): (string, string, Gpus, string) { (c.model, c.workload, c.gpu, c.mem) }

  /** Under every cell's key stands the outcome of that very cell. */
  ghost predicate Filled<K(!new)>(d: map<K, Found>, key: Cell -> K, from: Cell -> Stage, ran: Workers,
                                  cells: set<Cell>)
  {
    forall c :: c in cells ==> key(c) in d && d[key(c)] == Got(ran, from(c), c)
  }

  ghost predicate Distinguishes<K(!new)>(key: Cell -> K, cells: set<Cell>) {
    forall c, d :: c in cells && d in cells && key(c) == key(d) ==> c == d
  }

  ghost function Elements(cs: seq<Cell>): set<Cell> { set c | c in cs }

  ghost predicate Permutes(order: seq<Cell>, specs: seq<Cell>) { multiset(order) == multiset(specs) }

  lemma PermutesElements(order: seq<Cell>, specs: seq<Cell>)
    requires Permutes(order, specs)
    ensures forall c :: c in order <==> c in specs
  {
    forall c ensures c in order <==> c in specs { assert c in multiset(order) <==> c in multiset(specs); }
  }

  /** as_completed over one pool: futures in the order they finish, a dead worker's cell recorded as crashed. */
  method Collect<K(!new)>(key: Cell -> K, ran: Workers, stage: Stage, order: seq<Cell>, before: map<K, Found>,
                          ghost from: Cell -> Stage, ghost done: set<Cell>) returns (after: map<K, Found>)
    requires Distinguishes(key, done + Elements(order)) && Filled(before, key, from, ran, done)
    requires forall c :: c in order ==> from(c) == stage
    ensures Filled(after, key, from, ran, done + Elements(order))
  {
    after := before;
    for i := 0 to |order|
      invariant Filled(after, key, from, ran, done + Elements(order[..i]))
    {
      after := after[key(order[i]) := Got(ran, stage, order[i])];
    }
    assert order[..|order|] == order;
  }

  // ---- Main sweep --------------------------------------------------------------------------------

  ghost predicate BaselinesFilled(sc: Scope, ran: Workers, d: BaselineMap) {
    forall c :: OnBaseline(sc, c) ==> BaselineKey(c) in d && d[BaselineKey(c)] == Got(ran, Baseline, c)
  }

  ghost predicate SweepFilled(sc: Scope, ran: Workers, d: SweepMap) {
    forall c :: OnSweep(sc, c) && SweepStage(c) == Sweep ==> SweepKey(c) in d && d[SweepKey(c)] == Got(ran, Sweep, c)
  }

  method GatherBaselines(sc: Scope, ran: Workers, order: seq<Cell>) returns (d: BaselineMap)
    requires Permutes(order, BaselineSpecs(sc))
    ensures BaselinesFilled(sc, ran, d)
  {
    PermutesElements(order, BaselineSpecs(sc));
    forall c, e | OnBaseline(sc, c) && OnBaseline(sc, e) && BaselineKey(c) == BaselineKey(e) ensures c == e {}
    d := Collect(BaselineKey, ran, Baseline, order, map[], SweepStage, {});
    forall c | OnBaseline(sc, c) ensures BaselineKey(c) in d && d[BaselineKey(c)] == Got(ran, Baseline, c) {
      assert c in {} + Elements(order);
    }
  }

  method RunMainPool(sc: Scope, ran: Workers, order: seq<Cell>) returns (d: SweepMap)
    requires Permutes(order, SweepSubmitted(sc))
    ensures SweepFilled(sc, ran, d)
  {
    PermutesElements(order, SweepSubmitted(sc));
    forall c, e | OnSweep(sc, c) && OnSweep(sc, e) && SweepKey(c) == SweepKey(e) ensures c == e {}
    d := Collect(SweepKey, ran, Sweep, order, map[], SweepStage, {});
    forall c | OnSweep(sc, c) && SweepStage(c) == Sweep
      ensures SweepKey(c) in d && d[SweepKey(c)] == Got(ran, Sweep, c)
    {
      assert c in {} + Elements(order);
    }
  }

  method AssembleRow(sc: Scope, ghost ran: Workers, baselines: BaselineMap, cells: SweepMap, c: Cell) returns (row: Row)
    requires BaselinesFilled(sc, ran, baselines) && SweepFilled(sc, ran, cells) && OnSweep(sc, c)
    ensures row == SweepRow(ran, c)
  {
    assert OnBaseline(sc, BaseOf(c)) && BaselineKey(BaseOf(c)) == BaselineKey(c);
    var base := baselines[BaselineKey(c)];
    var o := if c.mem == "HBM4" && c.gpu == 8 then base else cells[SweepKey(c)];
    row := RowOf(c, o, base);
  }

  method MainSweep(sc: Scope, ran: Workers, order: seq<Cell>, baselines: BaselineMap) returns (results: seq<Row>)
    requires Permutes(order, SweepSubmitted(sc)) && BaselinesFilled(sc, ran, baselines)
    ensures results == Results(sc, ran)
  {
    var cells := RunMainPool(sc, ran, order);
    results := AssembleRows(sc, ran, baselines, cells, SweepSpecs(sc));
  }

  method AssembleRows(sc: Scope, ghost ran: Workers, baselines: BaselineMap, cells: SweepMap, specs: seq<Cell>)
      returns (rows: seq<Row>)
    requires BaselinesFilled(sc, ran, baselines) && SweepFilled(sc, ran, cells)
    requires forall c :: c in specs ==> OnSweep(sc, c)
    ensures rows == Map(c => SweepRow(ran, c), specs)
  {
    rows := [];
    for i := 0 to |specs|
      invariant |rows| == i && forall j :: 0 <= j < i ==> rows[j] == SweepRow(ran, specs[j])
    {
      var row := AssembleRow(sc, ran, baselines, cells, specs[i]);
      rows := rows + [row];
    }
  }

  // ---- Sensitivity sweep -------------------------------------------------------------------------

  ghost predicate SensitivityFilled(sc: Scope, ran: Workers, d: SensitivityMap) {
    forall c :: OnSensitivity(sc, c) && SensitivityStage(c) == Sensitivity ==>
      SensitivityKey(c) in d && d[SensitivityKey(c)] == Got(ran, Sensitivity, c)
  }

  /** Under every (model, SLO) stands the outcome of its HBM4 cell on 8 GPUs. */
  ghost predicate PerSloFilled(ran: Workers, d: map<(string, real), Found>, models: seq<string>, slos: seq<real>) {
    forall m, slo :: m in models && slo in slos ==>
      (m, slo) in d && d[(m, slo)] == SloBase(ran, m, slo)
  }

  function SloBase(ran: Workers, m: string, slo: real): Found {
    var b := Cell(m, "LONG", "HBM4", 8, slo);
    Got(ran, SensitivityStage(b), b)
  }

  /** Each SLO's baseline is read from the sensitivity sweep's own cells, except the online one. */
  ghost predicate BaselineReadsPresent(sc: Scope) {
    forall m, slo :: m in sc.models && slo in sc.slos && slo != ONLINE ==>
      OnSensitivity(sc, Cell(m, "LONG", "HBM4", 8, slo))
  }

  ghost predicate CoversBaselines(sc: Scope) {
    (sc.models != [] && exists slo :: slo in sc.slos && slo != ONLINE) ==> "HBM4" in sc.mems && 8 in sc.sensitivityGpus
  }

  lemma BaselineReadsPresentIff(sc: Scope)
    ensures BaselineReadsPresent(sc) <==> CoversBaselines(sc)
  {
    if BaselineReadsPresent(sc) && sc.models != [] {
      forall slo | slo in sc.slos && slo != ONLINE ensures "HBM4" in sc.mems && 8 in sc.sensitivityGpus {
        assert OnSensitivity(sc, Cell(sc.models[0], "LONG", "HBM4", 8, slo));
      }
    }
  }

  lemma SensitivityPoolsSplit(sc: Scope, online: seq<Cell>, offline: seq<Cell>)
    requires Permutes(online, SensitivityPool(sc, false)) && Permutes(offline, SensitivityPool(sc, true))
    ensures forall c ::
      c in Elements(online) + Elements(offline) <==> OnSensitivity(sc, c) && SensitivityStage(c) == Sensitivity
  {
    PermutesElements(online, SensitivityPool(sc, false));
    PermutesElements(offline, SensitivityPool(sc, true));
  }

  lemma SensitivityKeysDiffer(sc: Scope, cells: set<Cell>)
    requires forall c :: c in cells ==> OnSensitivity(sc, c)
    ensures Distinguishes(SensitivityKey, cells)
  {}

  method RunSensitivityPools(sc: Scope, ran: Workers, online: seq<Cell>, offline: seq<Cell>) returns (d: SensitivityMap)
    requires forall c ::
      c in Elements(online) + Elements(offline) <==> OnSensitivity(sc, c) && SensitivityStage(c) == Sensitivity
    ensures SensitivityFilled(sc, ran, d)
  {
    ghost var first, second := Elements(online), Elements(offline);
    SensitivityKeysDiffer(sc, first + second);
    assert {} + first == first;
    forall c | c in first + second ensures SensitivityStage(c) == Sensitivity {}
    assert forall c :: (c in online ==> c in first + second) && (c in offline ==> c in first + second);
    d := Collect(SensitivityKey, ran, Sensitivity, online, map[], SensitivityStage, {});
    d := Collect(SensitivityKey, ran, Sensitivity, offline, d, SensitivityStage, first);
  }

  method SloBaseline(sc: Scope, ghost ran: Workers, baselines: BaselineMap, cells: SensitivityMap, m: string, slo: real)
      returns (o: Found)
    requires "LONG" in sc.workloads && BaselineReadsPresent(sc) && m in sc.models && slo in sc.slos
    requires BaselinesFilled(sc, ran, baselines) && SensitivityFilled(sc, ran, cells)
    ensures o == SloBase(ran, m, slo)
  {
    ghost var b := Cell(m, "LONG", "HBM4", 8, slo);
    if slo == ONLINE {
      assert OnBaseline(sc, b) && BaselineKey(b) == (m, "LONG");
      o := baselines[(m, "LONG")];
    } else {
      assert SensitivityKey(b) == (m, "HBM4", 8, slo);
      o := cells[(m, "HBM4", 8, slo)];
    }
  }

  /** The inner loop: one model's entries join those of the models before it. */
  method ModelBaselines(sc: Scope, ghost ran: Workers, baselines: BaselineMap, cells: SensitivityMap, m: string,
                        before: map<(string, real), Found>, ghost models: seq<string>)
      returns (d: map<(string, real), Found>)
    requires "LONG" in sc.workloads && BaselineReadsPresent(sc) && m in sc.models
    requires BaselinesFilled(sc, ran, baselines) && SensitivityFilled(sc, ran, cells)
    requires PerSloFilled(ran, before, models, sc.slos)
    ensures PerSloFilled(ran, d, models + [m], sc.slos)
  {
    d := before;
    for j := 0 to |sc.slos|
      invariant PerSloFilled(ran, d, models, sc.slos) && PerSloFilled(ran, d, [m], sc.slos[..j])
    {
      var o := SloBaseline(sc, ran, baselines, cells, m, sc.slos[j]);
      d := d[(m, sc.slos[j]) := o];
    }
    assert sc.slos[..|sc.slos|] == sc.slos;
  }

  method SloBaselines(sc: Scope, ghost ran: Workers, baselines: BaselineMap, cells: SensitivityMap)
      returns (d: map<(string, real), Found>)
    requires "LONG" in sc.workloads && BaselineReadsPresent(sc)
    requires BaselinesFilled(sc, ran, baselines) && SensitivityFilled(sc, ran, cells)
    ensures PerSloFilled(ran, d, sc.models, sc.slos)
  {
    d := map[];
    for i := 0 to |sc.models|
      invariant PerSloFilled(ran, d, sc.models[..i], sc.slos)
    {
      d := ModelBaselines(sc, ran, baselines, cells, sc.models[i], d, sc.models[..i]);
      assert sc.models[..i] + [sc.models[i]] == sc.models[..i + 1];
    }
    assert sc.models[..|sc.models|] == sc.models;
  }

  method AssembleSloRow(sc: Scope, ghost ran: Workers, baselines: BaselineMap, cells: SensitivityMap,
                        perSlo: map<(string, real), Found>, c: Cell) returns (row: SloRow)
    requires "LONG" in sc.workloads && OnSensitivity(sc, c)
    requires BaselinesFilled(sc, ran, baselines) && SensitivityFilled(sc, ran, cells)
    requires PerSloFilled(ran, perSlo, sc.models, sc.slos)
    ensures row == SensitivityRow(ran, c)
  {
    var base := perSlo[(c.model, c.slo)];
    assert BaseOf(c) == Cell(c.model, "LONG", "HBM4", 8, c.slo);
    var o;
    if c.mem == "HBM4" && c.gpu == 8 && c.slo == ONLINE {
      assert OnBaseline(sc, c) && BaselineKey(c) == (c.model, "LONG");
      o := baselines[(c.model, "LONG")];
    } else {
      o := cells[SensitivityKey(c)];
    }
    row := SloRowOf(c, o, base);
  }

  method AssembleSloRows(sc: Scope, ghost ran: Workers, baselines: BaselineMap, cells: SensitivityMap,
                         perSlo: map<(string, real), Found>, specs: seq<Cell>) returns (rows: seq<SloRow>)
    requires "LONG" in sc.workloads && forall c :: c in specs ==> OnSensitivity(sc, c)
    requires BaselinesFilled(sc, ran, baselines) && SensitivityFilled(sc, ran, cells)
    requires PerSloFilled(ran, perSlo, sc.models, sc.slos)
    ensures rows == Map(c => SensitivityRow(ran, c), specs)
  {
    rows := [];
    for i := 0 to |specs|
      invariant |rows| == i && forall j :: 0 <= j < i ==> rows[j] == SensitivityRow(ran, specs[j])
    {
      var row := AssembleSloRow(sc, ran, baselines, cells, perSlo, specs[i]);
      rows := rows + [row];
    }
  }

  // ---- Offline PEC sweep -------------------------------------------------------------------------

  ghost predicate PecFilled(sc: Scope, ran: Workers, d: PecMap) {
    forall c :: OnPec(sc, c) ==> PecKey(c) in d && d[PecKey(c)] == Got(ran, PecStage(c), c)
  }

  /** PEC cells read their workload's lengths, and duplicates the outcome of the sensitivity sweep. */
  ghost predicate PecReadsPresent(sc: Scope) {
    forall c :: OnPec(sc, c) ==> c.workload in sc.workloads && (PecDuplicate(c) ==> OnSensitivity(sc, c))
  }

  ghost predicate CoversPec(sc: Scope) {
    sc.models != [] ==> forall w, g, mem :: w in sc.pecWorkloads && g in sc.pecGpus && mem in sc.pecMems ==>
      w in sc.workloads &&
      (w == "LONG" && (g == 8 || g == 16) && (mem == "HBF" || mem == "HBF+") ==>
         mem in sc.mems && g in sc.sensitivityGpus && OFFLINE in sc.slos)
  }

  lemma PecReadsPresentIff(sc: Scope)
    ensures PecReadsPresent(sc) <==> CoversPec(sc)
  {
    if PecReadsPresent(sc) && sc.models != [] {
      forall w, g, mem | w in sc.pecWorkloads && g in sc.pecGpus && mem in sc.pecMems
        ensures w in sc.workloads
        ensures w == "LONG" && (g == 8 || g == 16) && (mem == "HBF" || mem == "HBF+") ==>
                  mem in sc.mems && g in sc.sensitivityGpus && OFFLINE in sc.slos
      {
        assert OnPec(sc, Cell(sc.models[0], w, mem, g, OFFLINE));
      }
    }
  }

  method RunPecPool(sc: Scope, ran: Workers, order: seq<Cell>, sensitivity: SensitivityMap) returns (d: PecMap)
    requires PecReadsPresent(sc) && SensitivityFilled(sc, ran, sensitivity) && Permutes(order, PecSubmitted(sc))
    ensures PecFilled(sc, ran, d)
  {
    d := ReuseSensitivity(sc, ran, PecDuplicates(sc), sensitivity);
    ghost var reused := Elements(PecDuplicates(sc));
    PermutesElements(order, PecSubmitted(sc));
    forall c, e | OnPec(sc, c) && OnPec(sc, e) && PecKey(c) == PecKey(e) ensures c == e {}
    d := Collect(PecKey, ran, Pec, order, d, PecStage, reused);
    forall c | OnPec(sc, c) ensures PecKey(c) in d && d[PecKey(c)] == Got(ran, PecStage(c), c) {
      assert c in reused + Elements(order);
    }
  }

  method ReuseSensitivity(sc: Scope, ghost ran: Workers, specs: seq<Cell>, sensitivity: SensitivityMap)
      returns (d: PecMap)
    requires PecReadsPresent(sc) && SensitivityFilled(sc, ran, sensitivity)
    requires forall c :: c in specs ==> OnPec(sc, c) && PecDuplicate(c)
    ensures Filled(d, PecKey, PecStage, ran, Elements(specs))
  {
    d := map[];
    for i := 0 to |specs|
      invariant Filled(d, PecKey, PecStage, ran, Elements(specs[..i]))
    {
      var c := specs[i];
      assert OnSensitivity(sc, c) && SensitivityStage(c) == Sensitivity;
      d := d[PecKey(c) := sensitivity[(c.model, c.mem, c.gpu, c.slo)]];
    }
    assert specs[..|specs|] == specs;
  }

  method AssemblePecRows(sc: Scope, ghost ran: Workers, cells: PecMap, specs: seq<Cell>) returns (rows: seq<PecRow>)
    requires PecFilled(sc, ran, cells) && forall c :: c in specs ==> OnPec(sc, c)
    ensures rows == Map(c => OfflineRow(ran, c), specs)
  {
    rows := [];
    for i := 0 to |specs|
      invariant |rows| == i && forall j :: 0 <= j < i ==> rows[j] == OfflineRow(ran, specs[j])
    {
      assert specs[i] in specs;
      rows := rows + [PecRowOf(specs[i], cells[PecKey(specs[i])])];
    }
  }

  // ---- The whole driver --------------------------------------------------------------------------

  /** The lists overlap enough for every dictionary read to find its key. */
  ghost predicate Covers(sc: Scope) { "LONG" in sc.workloads && CoversBaselines(sc) && CoversPec(sc) }

  lemma ShippedScopeCovers()
    ensures Covers(SHIPPED)
  {}

  /** Main result: whatever the completion orders of the five pools, and whichever workers die, the tables are
      the ones of a loop that takes the cells one after another. */
  method RunSweeps(sc: Scope, ran: Workers, baselineOrder: seq<Cell>, mainOrder: seq<Cell>, onlineOrder: seq<Cell>,
                   offlineOrder: seq<Cell>, pecOrder: seq<Cell>)
      returns (results: seq<Row>, sloResults: seq<SloRow>, pecResults: seq<PecRow>)
    requires Covers(sc)
    requires Permutes(baselineOrder, BaselineSpecs(sc)) && Permutes(mainOrder, SweepSubmitted(sc))
    requires Permutes(onlineOrder, SensitivityPool(sc, false)) && Permutes(offlineOrder, SensitivityPool(sc, true))
    requires Permutes(pecOrder, PecSubmitted(sc))
    ensures results == Results(sc, ran) && sloResults == SloResults(sc, ran) && pecResults == PecResults(sc, ran)
  {
    BaselineReadsPresentIff(sc);
    PecReadsPresentIff(sc);
    var baselines := GatherBaselines(sc, ran, baselineOrder);
    results := MainSweep(sc, ran, mainOrder, baselines);
    SensitivityPoolsSplit(sc, onlineOrder, offlineOrder);
    var cells := RunSensitivityPools(sc, ran, onlineOrder, offlineOrder);
    var perSlo := SloBaselines(sc, ran, baselines, cells);
    sloResults := AssembleSloRows(sc, ran, baselines, cells, perSlo, SensitivitySpecs(sc));
    var pec := RunPecPool(sc, ran, pecOrder, cells);
    pecResults := AssemblePecRows(sc, ran, pec, PecSpecs(sc));
  }

  /** The cells that two pools simulate: the online LONG cells of both sweeps, bar the shared baseline. */
  lemma RunTwiceIff(sc: Scope, c: Cell)
    requires "LONG" in sc.workloads && ONLINE in sc.slos
    ensures c in SweepSubmitted(sc) && c in SensitivitySubmitted(sc) <==>
      c.model in sc.models && c.workload == "LONG" && c.mem in sc.mems &&
      c.gpu in sc.gpus && c.gpu in sc.sensitivityGpus &&
      c.slo == ONLINE && !(c.mem == "HBM4" && c.gpu == 8)
  {}

  /** With no dead worker, reusing runs across tables changes nothing: every row is that of one direct search
      of its cell and one of its baseline. */
  lemma ReuseChangesNothing(sc: Scope, ran: Workers, find: Cell -> Found)
    requires forall stage, c :: ran(stage, c) == Some(find(c))
    ensures Results(sc, ran) == Map(c => RowOf(c, find(c), find(BaseOf(c))), SweepSpecs(sc))
    ensures SloResults(sc, ran) == Map(c => SloRowOf(c, find(c), find(BaseOf(c))), SensitivitySpecs(sc))
    ensures PecResults(sc, ran) == Map(c => PecRowOf(c, find(c)), PecSpecs(sc))
  {}
}
