/** Values shared by the search, the memo cache and the sweep: what one simulator run reports. */
module SimTypes {

  datatype Option<+T> = None | Some(value: T)

  /** Why a run failed. The two marker bits are the stdout substrings that the classifier looks for. */
  datatype FailReason =
    | OomOrCrash(sramMarker: bool, poolMarker: bool)
    | SloViolated
    | OtherFailure

  /** The deterministic outcome of one simulator request, over some type of numbers. The CSV path and the
      raw stdout are not part of it. */
  datatype Report<+N> = Success(tpot: N, dp: nat, pecKv: Option<N>, pecCap: Option<N>) | Failure(why: FailReason)

  type Verdict = Report<real>

  /** A finite floating-point number, as a line of text can carry it. */
  datatype Double = Double(mantissa: int, exponent: int)

  type Logged = Report<Double>

  datatype BoundReason = Sram | Flash | Slo | Unknown | WorkerCrashed

  /** What a batch-size search reports for its cell. */
  datatype Found = Found(maxBatch: int, tpot: real, pecKv: Option<real>, pecCap: Option<real>, dp: nat,
                         bound: BoundReason)

  /** classify_failure: the bound that the given failing probe hit. */
  function Classify(fail: Option<FailReason>): BoundReason {
    match fail
    case Some(OomOrCrash(sram, pool)) => if sram then Sram else if pool then Flash else Unknown
    case Some(SloViolated) => Slo
    case _ => Unknown
  }
}
