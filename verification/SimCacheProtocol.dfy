/** Concurrent workers over one memo log, as a state machine whose steps interleave freely. */
module SimCacheProtocol {
  import opened SimTypes
  import opened SimCacheKey
  import opened SimCache
  import opened JsonCodec

  /** Where a worker stands in run_simulation. Done(c, None) is an uncached run that crashed. */
  datatype Phase<C, V> =
    | Idle
    | Missed(c: C)
    | Running(c: C)
    | Ran(c: C, v: V)
    | Done(c: C, result: Option<V>)

  datatype Worker<C, K, V> = Worker(view: View<K, V>, phase: Phase<C, V>)
  datatype State<C, K, V> = State(recs: seq<Rec<K, V>>, workers: map<nat, Worker<C, K, V>>)

  /** The fixed surroundings: the line format, the key of a call, and what an uncached run of it returns. */
  datatype World<!C, !K, !V> = World(cd: Codec<K, V>, keyOf: C -> K, uncached: C -> V)

  /** Calls that share a key get the same uncached result. */
  ghost predicate KeysDecide<C(!new), K(!new), V(!new)>(keyOf: C -> K, uncached: C -> V) {
    forall c1, c2 :: keyOf(c1) == keyOf(c2) ==> uncached(c1) == uncached(c2)
  }

  ghost predicate ValidWorld<C(!new), K(!new), V(!new)>(wd: World<C, K, V>) {
    ValidCodec(wd.cd) && KeysDecide(wd.keyOf, wd.uncached)
  }

  // ---- The world that ships ----------------------------------------------------------------------

  /** A deterministic simulator behind the config that each call writes. */
  function Uncached(base: Flags, sim: RunConfig -> Logged): Call -> Logged { (c: Call) => sim(ConfigOf(base, c)) }

  /** Keys decide the results of every simulator exactly when config.yaml ships the three flags as true. */
  lemma KeysDecideIff(base: Flags)
    ensures (forall sim: RunConfig -> Logged :: KeysDecide(KeyOf, Uncached(base, sim)))
      <==> base == Flags(true, true, true)
  {
    KeySoundIffFlagsDefaultTrue(base);
    if base == Flags(true, true, true) {
      assert KeySound(base);
    } else {
      var c1, c2 :| KeyOf(c1) == KeyOf(c2) && ConfigOf(base, c1) != ConfigOf(base, c2);
      var sim := (r: RunConfig) => if r == ConfigOf(base, c1) then Failure(SloViolated) else Failure(OtherFailure);
      assert Uncached(base, sim)(c1) != Uncached(base, sim)(c2);
      assert !KeysDecide(KeyOf, Uncached(base, sim));
    }
  }

  ghost function Shipped(parse: Text -> Line<Key, Logged>, sim: RunConfig -> Logged): World<Call, Key, Logged> {
    World(Codec(Encode, parse), KeyOf, Uncached(Flags(true, true, true), sim))
  }

  /** Every simulator, with the shipped keys, JSON lines and any reader of them, is such a world. */
  lemma ShippedIsValid(parse: Text -> Line<Key, Logged>, sim: RunConfig -> Logged)
    requires ReadsJson(parse)
    ensures ValidWorld(Shipped(parse, sim))
  {
    JsonLinesAreValid(parse);
    KeySoundIffFlagsDefaultTrue(Flags(true, true, true));
  }

  // ---- Steps -------------------------------------------------------------------------------------

  ghost function File<C, K(!new), V(!new)>(wd: World<C, K, V>, s: State<C, K, V>): Text { Render(wd.cd, s.recs) }

  datatype Step<+C> =
    | Spawn | Start(c: C) | Refresh(visible: nat) | Finish | Crash | Append | AppendFails

  /** How call c goes on: with the memo's verdict, or else as given. */
  function Answered<C, K, V>(view: View<K, V>, key: K, c: C, otherwise: Phase<C, V>): Worker<C, K, V> {
    Worker(view, if key in view.memo then Done(c, Some(view.memo[key])) else otherwise)
  }

  function StoredBy<C, K, V>(wd: World<C, K, V>, w: Worker<C, K, V>): Worker<C, K, V>
    requires w.phase.Ran?
  {
    Worker(Stored(w.view, wd.keyOf(w.phase.c), w.phase.v), Done(w.phase.c, Some(w.phase.v)))
  }

  /** Worker i takes one step. A lookup is Start and, on a miss, Refresh, which reads an arbitrary prefix of
      the file that is not shorter than what the worker has read already, so its last line may be torn. */
  ghost predicate Next<C(!new), K(!new), V(!new)>(wd: World<C, K, V>, s: State<C, K, V>, s': State<C, K, V>, i: nat,
                                                  step: Step<C>)
  {
    if step.Spawn? then
      i !in s.workers && s' == s.(workers := s.workers[i := Worker(View(map[], 0), Idle)])
    else
      i in s.workers && var w := s.workers[i];
      match step
      case Spawn => false
      case Start(c) =>
        (w.phase.Idle? || w.phase.Done?) &&
        s' == s.(workers := s.workers[i := Answered(w.view, wd.keyOf(c), c, Missed(c))])
      case Refresh(n) =>
        w.phase.Missed? && w.view.pos <= n <= |File(wd, s)| &&
        var c, view := w.phase.c, Refreshed(wd.cd, w.view, File(wd, s)[..n]);
        s' == s.(workers := s.workers[i := Answered(view, wd.keyOf(c), c, Running(c))])
      case Finish =>
        w.phase.Running? &&
        s' == s.(workers := s.workers[i := w.(phase := Ran(w.phase.c, wd.uncached(w.phase.c)))])
      case Crash =>
        w.phase.Running? && s' == s.(workers := s.workers[i := w.(phase := Done(w.phase.c, None))])
      case Append =>
        w.phase.Ran? &&
        s' == State(s.recs + [Rec(wd.keyOf(w.phase.c), w.phase.v)], s.workers[i := StoredBy(wd, w)])
      case AppendFails =>
        w.phase.Ran? && s' == s.(workers := s.workers[i := StoredBy(wd, w)])
  }

  /** Start, and Refresh if that missed, are one Lookup of the mirror: same view, same answer. */
  lemma LookupIsStartThenRefresh<C(!new), K(!new), V(!new)>(wd: World<C, K, V>, s: State<C, K, V>, s1: State<C, K, V>,
                                                            s2: State<C, K, V>, i: nat, c: C, n: nat)
    requires Next(wd, s, s1, i, Start(c))
    requires if wd.keyOf(c) in s.workers[i].view.memo then s2 == s1 && s.workers[i].view.pos <= n <= |File(wd, s)|
             else Next(wd, s1, s2, i, Refresh(n))
    ensures var w := s2.workers[i];
      && w.view == LookedUp(wd.cd, s.workers[i].view, File(wd, s)[..n], wd.keyOf(c))
      && var hit := Find(w.view.memo, wd.keyOf(c));
      && w.phase == if hit.Some? then Done(c, hit) else Running(c)
  {}

  /** An append puts the line that the mirror's Store returns behind the file, and updates the view as Store does. */
  lemma AppendWritesStoredLine<C(!new), K(!new), V(!new)>(wd: World<C, K, V>, s: State<C, K, V>, s': State<C, K, V>,
                                                          i: nat)
    requires Next(wd, s, s', i, Append)
    ensures var p := s.workers[i].phase;
      && File(wd, s') == File(wd, s) + LineOf(wd.cd, Rec(wd.keyOf(p.c), p.v))
      && s'.workers[i].view == Stored(s.workers[i].view, wd.keyOf(p.c), p.v)
  {
    var r := Rec(wd.keyOf(s.workers[i].phase.c), s.workers[i].phase.v);
    RenderConcat(wd.cd, s.recs, [r]);
    assert [r][1..] == [] && Render(wd.cd, [r]) == wd.cd.encode(r) + ['\n'] + Render(wd.cd, [r][1..]);
  }

  // ---- The invariant ----------------------------------------------------------------------------

  /** v is what every call with key k would get from an uncached run. */
  ghost predicate MatchesUncached<C(!new), K(!new), V(!new)>(wd: World<C, K, V>, k: K, v: V) {
    forall c :: wd.keyOf(c) == k ==> v == wd.uncached(c)
  }

  ghost predicate ViewOk<C(!new), K(!new), V(!new)>(wd: World<C, K, V>, recs: seq<Rec<K, V>>, w: View<K, V>) {
    && w.pos <= |Render(wd.cd, recs)| && Between(wd.cd, recs, w.pos)
    && (forall k :: k in w.memo ==> MatchesUncached(wd, k, w.memo[k]))
    && (forall r :: r in recs[..Whole(wd.cd, recs, w.pos)] ==> r.key in w.memo)
  }

  ghost predicate PhaseOk<C(!new), K(!new), V(!new)>(wd: World<C, K, V>, p: Phase<C, V>) {
    && (p.Ran? ==> p.v == wd.uncached(p.c))
    && (p.Done? && p.result.Some? ==> p.result.value == wd.uncached(p.c))
  }

  ghost predicate WorkerOk<C(!new), K(!new), V(!new)>(wd: World<C, K, V>, recs: seq<Rec<K, V>>, w: Worker<C, K, V>) {
    ViewOk(wd, recs, w.view) && PhaseOk(wd, w.phase)
  }

  /** Every logged record is true, every worker's memo is true, holds every record before its position,
      and every verdict that a worker has returned is that of an uncached run. */
  ghost predicate Inv<C(!new), K(!new), V(!new)>(wd: World<C, K, V>, s: State<C, K, V>) {
    && (forall r :: r in s.recs ==> MatchesUncached(wd, r.key, r.value))
    && (forall i :: i in s.workers ==> WorkerOk(wd, s.recs, s.workers[i]))
  }

  /** After a refresh the memo is true and holds every record whose line was wholly visible: a torn
      last line is neither misread nor skipped for good, since the position does not pass it. */
  lemma RefreshIsSoundAndComplete<C(!new), K(!new), V(!new)>(wd: World<C, K, V>, recs: seq<Rec<K, V>>, w: View<K, V>,
                                                             n: nat)
    requires ValidWorld(wd) && ViewOk(wd, recs, w) && w.pos <= n <= |Render(wd.cd, recs)|
    requires forall r :: r in recs ==> MatchesUncached(wd, r.key, r.value)
    ensures var w' := Refreshed(wd.cd, w, Render(wd.cd, recs)[..n]);
      && ViewOk(wd, recs, w')
      && w'.pos == (if Between(wd.cd, recs, n) then n else w.pos)
      && forall i :: 0 <= i < |recs| && |Render(wd.cd, recs[..i + 1])| <= n + 1 ==> recs[i].key in w'.memo
  {
    assert Render(wd.cd, recs)[..n][w.pos..] == Render(wd.cd, recs)[w.pos..n];
    ScanResumes(wd.cd, recs, w.pos, n, w.memo);
    var i, j := Whole(wd.cd, recs, w.pos), Whole(wd.cd, recs, n);
    AbsorbAllKeeps(w.memo, recs[i..j], (k, v) => MatchesUncached(wd, k, v));
    WholeBounds(wd.cd, recs, n);
    assert recs[..j] == recs[..i] + recs[i..j];
    forall a | 0 <= a < |recs| && |Render(wd.cd, recs[..a + 1])| <= n + 1
      ensures recs[a].key in AbsorbAll(w.memo, recs[i..j])
    {
      assert recs[a] in recs[..j];
    }
  }

  lemma AppendKeepsView<C(!new), K(!new), V(!new)>(wd: World<C, K, V>, recs: seq<Rec<K, V>>, r: Rec<K, V>,
                                                   w: View<K, V>)
    requires ValidWorld(wd) && ViewOk(wd, recs, w)
    ensures ViewOk(wd, recs + [r], w)
  {
    AppendKeepsPositions(wd.cd, recs, r, w.pos);
    RenderConcat(wd.cd, recs, [r]);
    var k := Whole(wd.cd, recs, w.pos);
    assert (recs + [r])[..k] == recs[..k];
  }

  lemma StoreKeepsWorker<C(!new), K(!new), V(!new)>(wd: World<C, K, V>, recs: seq<Rec<K, V>>, w: Worker<C, K, V>)
    requires ValidWorld(wd) && WorkerOk(wd, recs, w) && w.phase.Ran?
    ensures WorkerOk(wd, recs, StoredBy(wd, w)) && MatchesUncached(wd, wd.keyOf(w.phase.c), w.phase.v)
  {}

  lemma AppendKeepsInv<C(!new), K(!new), V(!new)>(wd: World<C, K, V>, s: State<C, K, V>, i: nat)
    requires ValidWorld(wd) && Inv(wd, s) && i in s.workers && s.workers[i].phase.Ran?
    ensures var w := s.workers[i];
      Inv(wd, State(s.recs + [Rec(wd.keyOf(w.phase.c), w.phase.v)], s.workers[i := StoredBy(wd, w)]))
  {
    var w := s.workers[i];
    StoreKeepsWorker(wd, s.recs, w);
    var workers, r := s.workers[i := StoredBy(wd, w)], Rec(wd.keyOf(w.phase.c), w.phase.v);
    forall j | j in workers ensures WorkerOk(wd, s.recs + [r], workers[j]) {
      AppendKeepsView(wd, s.recs, r, workers[j].view);
    }
  }

  lemma RefreshKeepsInv<C(!new), K(!new), V(!new)>(wd: World<C, K, V>, s: State<C, K, V>, s': State<C, K, V>, i: nat,
                                                   n: nat)
    requires ValidWorld(wd) && Inv(wd, s) && Next(wd, s, s', i, Refresh(n))
    ensures Inv(wd, s')
  {
    RefreshIsSoundAndComplete(wd, s.recs, s.workers[i].view, n);
  }

  lemma StepKeepsInv<C(!new), K(!new), V(!new)>(wd: World<C, K, V>, s: State<C, K, V>, s': State<C, K, V>, i: nat,
                                                step: Step<C>)
    requires ValidWorld(wd) && Inv(wd, s) && Next(wd, s, s', i, step)
    ensures Inv(wd, s')
  {
    match step
    case Spawn => WholeBounds(wd.cd, s.recs, 0);
    case Refresh(n) => RefreshKeepsInv(wd, s, s', i, n);
    case Append => AppendKeepsInv(wd, s, i);
    case AppendFails => StoreKeepsWorker(wd, s.recs, s.workers[i]);
    case _ =>
  }

  /** A run from an empty log with no workers; who[i], steps[i] take states[i] to states[i + 1]. */
  ghost predicate IsRun<C(!new), K(!new), V(!new)>(wd: World<C, K, V>, states: seq<State<C, K, V>>, who: seq<nat>,
                                                   steps: seq<Step<C>>)
  {
    && |states| == |who| + 1 == |steps| + 1
    && states[0] == State([], map[])
    && forall i :: 0 <= i < |steps| ==> Next(wd, states[i], states[i + 1], who[i], steps[i])
  }

  /** Main result: in every state of every interleaving the invariant holds, so whatever a worker has
      returned is what an uncached run returns. */
  lemma {:induction false} CacheIsTransparent<C(!new), K(!new), V(!new)>(
      wd: World<C, K, V>, states: seq<State<C, K, V>>, who: seq<nat>, steps: seq<Step<C>>, i: nat)
    requires ValidWorld(wd) && IsRun(wd, states, who, steps) && i < |states|
    ensures Inv(wd, states[i])
    ensures forall j :: j in states[i].workers ==>
      var p := states[i].workers[j].phase; p.Done? && p.result.Some? ==> p.result.value == wd.uncached(p.c)
  {
    if i > 0 {
      CacheIsTransparent(wd, states, who, steps, i - 1);
      StepKeepsInv(wd, states[i - 1], states[i], who[i - 1], steps[i - 1]);
    }
  }

  /** The same for the shipped keys and any simulator: every returned verdict is the simulator's for the
      config that the call writes. */
  lemma ShippedCacheIsTransparent(parse: Text -> Line<Key, Logged>, sim: RunConfig -> Logged,
                                  states: seq<State<Call, Key, Logged>>, who: seq<nat>, steps: seq<Step<Call>>,
                                  i: nat, j: nat)
    requires ReadsJson(parse)
    requires IsRun(Shipped(parse, sim), states, who, steps) && i < |states| && j in states[i].workers
    ensures var p := states[i].workers[j].phase;
      p.Done? && p.result.Some? ==> p.result.value == sim(ConfigOf(Flags(true, true, true), p.c))
  {
    ShippedIsValid(parse, sim);
    CacheIsTransparent(Shipped(parse, sim), states, who, steps, i);
  }

  /** A worker that misses, then reads the log while a record of its key is wholly visible, never runs
      the simulator for it: the refresh ends the call with the uncached verdict. */
  lemma VisibleRecordIsHit<C(!new), K(!new), V(!new)>(wd: World<C, K, V>, s: State<C, K, V>, s': State<C, K, V>,
                                                      i: nat, n: nat, a: nat)
    requires ValidWorld(wd) && Inv(wd, s) && Next(wd, s, s', i, Refresh(n))
    requires a < |s.recs| && |Render(wd.cd, s.recs[..a + 1])| <= n + 1
    requires s.recs[a].key == wd.keyOf(s.workers[i].phase.c)
    ensures s'.workers[i].phase == Done(s.workers[i].phase.c, Some(wd.uncached(s.workers[i].phase.c)))
  {
    RefreshIsSoundAndComplete(wd, s.recs, s.workers[i].view, n);
  }
}
