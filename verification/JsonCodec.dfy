/** The lines of the memo log: each record is one JSON object. */
module JsonCodec {
  import opened SimTypes
  import opened SimCacheKey
  import opened SimCache
  import opened JsonText

  // ---- Records as JSON objects -------------------------------------------------------------------

  function OptionJson(o: Option<Double>): Json { match o case None => Null case Some(d) => Number(d) }

  function KeyJson(k: Key): Json {
    Arr([Str(k.model), Str(k.mem), Integer(k.numDevice), Integer(k.batch), Integer(k.inLen), Integer(k.outLen),
         Number(k.slo), OptionJson(k.mfuMax), OptionJson(k.mfuHalf),
         match k.parallel
         case Forced(d) => Arr([Str("dist"), Integer(d.tp), Integer(d.pp), Integer(d.ep)])
         case Auto(optimize) => Arr([Str("auto"), Bool(optimize)]),
         Arr([Bool(k.flags.pipelinedTiming), Bool(k.flags.internodeOnly), Bool(k.flags.kvWriteHide)]),
         Integer(k.binary)])
  }

  /** What a verdict keeps of the returned dictionary. */
  function ReportJson(v: Logged): Json {
    match v
    case Success(tpot, dp, kv, cap) =>
      Obj([Field("success", Bool(true)), Field("tpot", Number(tpot)), Field("dp", Integer(dp)),
           Field("pec_kv", OptionJson(kv)), Field("pec_cap", OptionJson(cap))])
    case Failure(OomOrCrash(sram, pool)) =>
      Obj([Field("success", Bool(false)), Field("reason", Str("OOM/Crash")),
           Field("stdout", Arr([Bool(sram), Bool(pool)]))])
    case Failure(SloViolated) => Obj([Field("success", Bool(false)), Field("reason", Str("SLO Violated"))])
    case Failure(OtherFailure) => Obj([Field("success", Bool(false)), Field("reason", Str("No total time printed"))])
  }

  function RecFields(r: Rec<Key, Logged>): seq<Field> {
    [Field("key", KeyJson(r.key)), Field("value", ReportJson(r.value))]
  }

  lemma ReportJsonInjective(a: Logged, b: Logged)
    requires ReportJson(a) == ReportJson(b)
    ensures a == b
  {}

  lemma KeyJsonInjective(a: Key, b: Key)
    requires KeyJson(a) == KeyJson(b)
    ensures a == b
  {}

  lemma RecFieldsInjective(a: Rec<Key, Logged>, b: Rec<Key, Logged>)
    requires RecFields(a) == RecFields(b)
    ensures a == b
  {}

  // ---- The codec ---------------------------------------------------------------------------------

  function Encode(r: Rec<Key, Logged>): Text { Dumps(Obj(RecFields(r))) }

  lemma EncodeInjective(a: Rec<Key, Logged>, b: Rec<Key, Logged>)
    requires Encode(a) == Encode(b)
    ensures a == b
  {
    assert Encode(a) + [] == Encode(b) + [];
    DumpsDelimits(Obj(RecFields(a)), Obj(RecFields(b)), [], []);
    RecFieldsInjective(a, b);
  }

  /** A reader of JSON lines: it reads back what was written, and no text with an open bracket or quote. */
  ghost predicate ReadsJson(parse: Text -> Line<Key, Logged>) {
    && (forall r {:trigger Encode(r)} :: parse(Encode(r)) == Record(r))
    && (forall t :: !WellNested(t) ==> parse(t) == Unreadable)
  }

  /** Every such reader meets the cache's assumptions: records are one line each, read back exactly, and a line
      that is cut short is unreadable. */
  lemma JsonLinesAreValid(parse: Text -> Line<Key, Logged>)
    requires ReadsJson(parse)
    ensures ValidCodec(Codec(Encode, parse))
  {
    forall r: Rec<Key, Logged>
      ensures Encode(r) != [] && '\n' !in Encode(r)
      ensures forall n :: 0 < n < |Encode(r)| ==> parse(Encode(r)[..n]) == Unreadable
    {
      DumpsPlain(Obj(RecFields(r)));
      forall n | 0 < n < |Encode(r)| ensures parse(Encode(r)[..n]) == Unreadable {
        CutObjectIsTorn(RecFields(r), n);
      }
    }
  }

  /** The record that the line was written for, if there is one. */
  ghost function Parse(t: Text): Line<Key, Logged> {
    if exists r :: Encode(r) == t then var r :| Encode(r) == t; Record(r)
    else if WellNested(t) then Other else Unreadable
  }

  ghost function TextCodec(): Codec<Key, Logged> { Codec(Encode, t => Parse(t)) }

  /** There is such a reader. */
  lemma SomeCodecIsValid()
    ensures ReadsJson(TextCodec().parse) && ValidCodec(TextCodec())
  {
    forall r ensures Parse(Encode(r)) == Record(r) {
      forall a | Encode(a) == Encode(r) ensures a == r { EncodeInjective(a, r); }
    }
    forall t | !WellNested(t) ensures Parse(t) == Unreadable {
      if exists r :: Encode(r) == t {
        var r :| Encode(r) == t;
        DumpsSpans(Obj(RecFields(r)), 0);
      }
    }
    JsonLinesAreValid(TextCodec().parse);
  }
}
