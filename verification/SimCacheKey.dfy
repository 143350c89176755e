/** What a simulation request writes into its config file, and the key it is memoized under. */
module SimCacheKey {
  import opened SimTypes

  datatype Degrees = Degrees(tp: int, pp: int, ep: int)
  datatype Flags = Flags(pipelinedTiming: bool, internodeOnly: bool, kvWriteHide: bool)

  /** The three override variables: None when unset, else whether the value differs from "0". */
  datatype Overrides = Overrides(pipelinedTiming: Option<bool>, internodeOnly: Option<bool>, kvWriteHide: Option<bool>)

  /** One call: the arguments of run_simulation, the environment, and the build's fingerprint. */
  datatype Call = Call(model: string, mem: string, numDevice: int, batch: int, inLen: int, outLen: int,
                       optimize: bool, slo: Double, dist: Option<Degrees>,
                       mfuMax: Option<Double>, mfuHalf: Option<Double>, env: Overrides, binary: int)

  datatype Parallel = Forced(d: Degrees) | Auto(optimize: bool)

  datatype Key = Key(model: string, mem: string, numDevice: int, batch: int, inLen: int, outLen: int,
                     slo: Double, mfuMax: Option<Double>, mfuHalf: Option<Double>,
                     parallel: Parallel, flags: Flags, binary: int)

  /** The fields of the written config that depend on the call, and the binary that reads it.
      degrees is None where the file's own distribution block is left as it is. */
  datatype RunConfig = RunConfig(model: string, mem: string, numNode: int, devicesPerNode: int,
                                 batch: int, inLen: int, outLen: int, optimize: bool, degrees: Option<Degrees>,
                                 slo: Double, mfuMax: Option<Double>, mfuHalf: Option<Double>, flags: Flags,
                                 binary: int)

  function Resolve(o: Option<bool>, default: bool): bool {
    match o case None => default case Some(b) => b
  }

  function ResolveAll(env: Overrides, default: Flags): Flags {
    Flags(Resolve(env.pipelinedTiming, default.pipelinedTiming),
          Resolve(env.internodeOnly, default.internodeOnly),
          Resolve(env.kvWriteHide, default.kvWriteHide))
  }

  /** The key assumes that an unset flag means true. */
  function KeyOf(c: Call): Key {
    Key(c.model, c.mem, c.numDevice, c.batch, c.inLen, c.outLen, c.slo, c.mfuMax, c.mfuHalf,
        match c.dist { case Some(d) => Forced(d) case None => Auto(c.optimize) },
        ResolveAll(c.env, Flags(true, true, true)), c.binary)
  }

  /** The config file takes an unset flag from config.yaml (base). */
  function ConfigOf(base: Flags, c: Call): RunConfig {
    var (nodes, perNode) := if c.numDevice == 16 then (2, 8) else (1, c.numDevice);
    RunConfig(c.model, c.mem, nodes, perNode, c.batch, c.inLen, c.outLen,
              c.dist.None? && c.optimize, c.dist, c.slo, c.mfuMax, c.mfuHalf,
              ResolveAll(c.env, base), c.binary)
  }

  /** Calls that share a key write the same config. */
  ghost predicate KeySound(base: Flags) {
    forall c1, c2 :: KeyOf(c1) == KeyOf(c2) ==> ConfigOf(base, c1) == ConfigOf(base, c2)
  }

  /** Keys decide configs exactly when config.yaml ships the three flags as true; then they are also
      canonical: calls that write the same config share a key. */
  lemma KeySoundIffFlagsDefaultTrue(base: Flags)
    ensures KeySound(base) <==> base == Flags(true, true, true)
    ensures KeySound(base) ==>
      forall c1, c2 :: ConfigOf(base, c1) == ConfigOf(base, c2) ==> KeyOf(c1) == KeyOf(c2)
  {
    if base != Flags(true, true, true) {
      var t := Overrides(Some(true), Some(true), Some(true));
      var c1 := Call("", "", 1, 1, 1, 1, false, Double(1, -1), None, None, None, t, 0);
      var c2 := c1.(env := Overrides(None, None, None));
      assert KeyOf(c1) == KeyOf(c2) && ConfigOf(base, c1) != ConfigOf(base, c2);
    }
  }
}
