/** What an op adds to its device's clocks, and what the pipelined reconstruction keeps of it. */
module Tagging {

  /** The durations of one op; dep is the part that scales with the batch. */
  datatype ExecStatus = ExecStatus(compute: real, memory: real, total: real, dep: real, kvWrite: real)

  const IDLE := ExecStatus(0.0, 0.0, 0.0, 0.0, 0.0)

  /** What an op adds to its device's clock and to the batch-dependent part of it. */
  datatype Status = Status(total: real, dep: real)

  /** What is left of an op once its batch-dependent part is divided by pp. */
  function Kept(st: Status, pp: int): real
    requires pp >= 1
  {
    st.total - st.dep * (pp - 1) as real / pp as real
  }

  lemma KeptAdds(a: Status, b: Status, pp: int)
    requires pp >= 1
    ensures Kept(Status(a.total + b.total, a.dep + b.dep), pp) == Kept(a, pp) + Kept(b, pp)
  {}

  lemma KeptIsShare(indep: real, dep: real, pp: int)
    requires pp >= 1
    ensures Kept(Status(indep + dep, dep), pp) == indep + dep / pp as real
  {}

  lemma FullyDependentKeeps(t: real, pp: int)
    requires pp >= 1
    ensures Kept(Status(t, t), pp) == t / pp as real
  {}
}
