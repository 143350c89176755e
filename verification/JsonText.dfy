/** JSON text: values written as json.dumps lays them out, read back uniquely, and cut short never well formed. */
module JsonText {
  import opened SimTypes

  datatype Field = Field(name: string, value: Json)

  datatype Json =
    | Null | Bool(b: bool) | Integer(i: int) | Number(d: Double) | Str(s: string)
    | Arr(items: seq<Json>) | Obj(fields: seq<Field>)

  // ---- Writing -----------------------------------------------------------------------------------

  predicate IsDigit(c: char) { '0' <= c <= '9' }

  function Digit(n: nat): (c: char)
    requires n < 10
    ensures IsDigit(c)
  {
    ('0' as int + n) as char
  }

  function Decimal(n: nat): string { if n < 10 then [Digit(n)] else Decimal(n / 10) + [Digit(n % 10)] }

  function Signed(i: int): string { if i >= 0 then Decimal(i) else ['-'] + Decimal(-i) }

  /** One character inside quotes. */
  function Escape(c: char): string {
    if c == '"' || c == '\\' then ['\\', c] else if c == '\n' then ['\\', 'n'] else [c]
  }

  /** The rest of a string, closing quote included. */
  function Chars(s: string): string { if s == [] then ['"'] else Escape(s[0]) + Chars(s[1..]) }

  function Quoted(s: string): string { ['"'] + Chars(s) }

  function Dumps(j: Json): (t: string)
    ensures t != []
    decreases j, 1
  {
    match j
    case Null => "null"
    case Bool(b) => if b then "true" else "false"
    case Integer(i) => SignedNonempty(i); Signed(i)
    case Number(d) => Signed(d.mantissa) + (['e'] + Signed(d.exponent))
    case Str(s) => Quoted(s)
    case Arr(items) => ['['] + Items(items, true)
    case Obj(fields) => ['{'] + Fields(fields, true)
  }

  /** The rest of a list, from an element on, closing bracket included. */
  function Items(js: seq<Json>, first: bool): string
    decreases js, 0
  {
    if js == [] then [']'] else Separator(first) + (Dumps(js[0]) + Items(js[1..], false))
  }

  function Fields(fs: seq<Field>, first: bool): string
    decreases fs, 0
  {
    if fs == [] then ['}']
    else Separator(first) + (Quoted(fs[0].name) + (": " + (Dumps(fs[0].value) + Fields(fs[1..], false))))
  }

  function Separator(first: bool): string { if first then [] else ", " }

  lemma SignedNonempty(i: int)
    ensures Signed(i) != [] && (Signed(i)[0] == '-' || IsDigit(Signed(i)[0]))
  {
    if i >= 0 { DecimalDigits(i); }
  }

  lemma {:induction false} DecimalDigits(n: nat)
    ensures Decimal(n) != [] && forall k :: 0 <= k < |Decimal(n)| ==> IsDigit(Decimal(n)[k])
  {
    if n >= 10 { DecimalDigits(n / 10); }
  }

  // ---- Reading back ------------------------------------------------------------------------------

  function Value(t: string): int { if t == [] then 0 else 10 * Value(t[..|t| - 1]) + (t[|t| - 1] as int - '0' as int) }

  lemma {:induction false} ValueOfDecimal(n: nat)
    ensures Value(Decimal(n)) == n
  {
    if n >= 10 {
      ValueOfDecimal(n / 10);
      assert Decimal(n)[..|Decimal(n)| - 1] == Decimal(n / 10);
    } else {
      assert [Digit(n)][..0] == [];
    }
  }

  /** What follows a value in a well-formed text. */
  predicate Delimited(x: string) { x == [] || x[0] in {',', ']', '}'} }

  predicate NoDigit(x: string) { x == [] || !IsDigit(x[0]) }

  lemma DecimalDelimits(a: nat, b: nat, x: string, y: string)
    requires Decimal(a) + x == Decimal(b) + y && NoDigit(x) && NoDigit(y)
    ensures a == b && x == y
  {
    var u, v := Decimal(a), Decimal(b);
    DecimalDigits(a);
    DecimalDigits(b);
    assert u == (u + x)[..|u|] && v == (v + y)[..|v|];
    assert x == (u + x)[|u|..] && y == (v + y)[|v|..];
    ValueOfDecimal(a);
    ValueOfDecimal(b);
  }

  lemma DropHead(c: char, u: string, d: char, v: string)
    requires [c] + u == [d] + v
    ensures c == d && u == v
  {
    assert u == ([c] + u)[1..] && v == ([d] + v)[1..];
  }

  lemma Regroup(u: string, v: string, x: string)
    ensures (u + v) + x == u + (v + x)
  {}

  lemma SignedDelimits(a: int, b: int, x: string, y: string)
    requires Signed(a) + x == Signed(b) + y && NoDigit(x) && NoDigit(y)
    ensures a == b && x == y
  {
    var s, t := Signed(a) + x, Signed(b) + y;
    if a >= 0 { DecimalDigits(a); }
    if b >= 0 { DecimalDigits(b); }
    if a >= 0 && b >= 0 {
      DecimalDelimits(a, b, x, y);
    } else {
      assert s[0] == t[0];
      assert a < 0 && b < 0;
      Regroup(['-'], Decimal(-a), x);
      Regroup(['-'], Decimal(-b), y);
      DropHead('-', Decimal(-a) + x, '-', Decimal(-b) + y);
      DecimalDelimits(-a, -b, x, y);
    }
  }

  lemma EscapeDelimits(a: char, b: char, x: string, y: string)
    requires Escape(a) + x == Escape(b) + y
    ensures a == b && x == y
  {
    var s, t := Escape(a) + x, Escape(b) + y;
    assert s[0] == t[0];
    if |Escape(a)| == 2 { assert s[1] == t[1]; }
    assert x == s[|Escape(a)|..] && y == t[|Escape(b)|..];
  }

  lemma {:induction false} CharsDelimit(a: string, b: string, x: string, y: string)
    requires Chars(a) + x == Chars(b) + y
    ensures a == b && x == y
  {
    var s, t := Chars(a) + x, Chars(b) + y;
    assert s[0] == t[0];
    if a == [] || b == [] {
      assert a == [] && b == [];
      DropHead('"', x, '"', y);
    } else {
      Regroup(Escape(a[0]), Chars(a[1..]), x);
      Regroup(Escape(b[0]), Chars(b[1..]), y);
      EscapeDelimits(a[0], b[0], Chars(a[1..]) + x, Chars(b[1..]) + y);
      CharsDelimit(a[1..], b[1..], x, y);
      assert a == [a[0]] + a[1..] && b == [b[0]] + b[1..];
    }
  }

  lemma QuotedDelimits(a: string, b: string, x: string, y: string)
    requires Quoted(a) + x == Quoted(b) + y
    ensures a == b && x == y
  {
    Regroup(['"'], Chars(a), x);
    Regroup(['"'], Chars(b), y);
    DropHead('"', Chars(a) + x, '"', Chars(b) + y);
    CharsDelimit(a, b, x, y);
  }

  /** The kind of value that starts with this character; a whole number and a fraction start alike. */
  function Kind(c: char): int {
    if c == 'n' then 0 else if c == 't' then 1 else if c == 'f' then 2 else if c == '"' then 3 else if c == '[' then 4
    else if c == '{' then 5 else if c == '-' || IsDigit(c) then 6 else 7
  }

  lemma LeadsWithKind(j: Json)
    ensures Kind(Dumps(j)[0]) == match j
      case Null => 0 case Bool(b) => if b then 1 else 2 case Str(_) => 3 case Arr(_) => 4 case Obj(_) => 5 case _ => 6
  {
    match j
    case Integer(i) => SignedNonempty(i);
    case Number(d) => SignedNonempty(d.mantissa);
    case _ =>
  }

  lemma SameKind(a: Json, b: Json, x: string, y: string)
    requires Dumps(a) + x == Dumps(b) + y
    ensures Kind(Dumps(a)[0]) == Kind(Dumps(b)[0])
  {
    assert (Dumps(a) + x)[0] == (Dumps(b) + y)[0];
  }

  /** A whole number is a mantissa without an exponent. */
  function Mantissa(j: Json): int
    requires j.Integer? || j.Number?
  {
    if j.Integer? then j.i else j.d.mantissa
  }

  function Exponent(j: Json): string
    requires j.Integer? || j.Number?
  {
    if j.Integer? then [] else ['e'] + Signed(j.d.exponent)
  }

  lemma NumberParts(j: Json, x: string)
    requires j.Integer? || j.Number?
    ensures Dumps(j) + x == Signed(Mantissa(j)) + (Exponent(j) + x)
  {}

  lemma NumbersDelimit(a: Json, b: Json, x: string, y: string)
    requires (a.Integer? || a.Number?) && (b.Integer? || b.Number?)
    requires Dumps(a) + x == Dumps(b) + y && Delimited(x) && Delimited(y)
    ensures a == b && x == y
  {
    NumberParts(a, x);
    NumberParts(b, y);
    var u, v := Exponent(a) + x, Exponent(b) + y;
    assert a.Number? ==> u[0] == 'e';
    assert b.Number? ==> v[0] == 'e';
    assert a.Integer? ==> u == x;
    assert b.Integer? ==> v == y;
    SignedDelimits(Mantissa(a), Mantissa(b), u, v);
    if a.Number? {
      Regroup(['e'], Signed(a.d.exponent), x);
      Regroup(['e'], Signed(b.d.exponent), y);
      DropHead('e', Signed(a.d.exponent) + x, 'e', Signed(b.d.exponent) + y);
      SignedDelimits(a.d.exponent, b.d.exponent, x, y);
    }
  }

  lemma SameLength(u: string, v: string, x: string, y: string)
    requires |u| == |v| && u + x == v + y
    ensures u == v && x == y
  {
    assert u == (u + x)[..|u|] && v == (v + y)[..|v|] && x == (u + x)[|u|..] && y == (v + y)[|v|..];
  }

  /** What follows a written value can be told from it. */
  lemma {:induction false} DumpsDelimits(a: Json, b: Json, x: string, y: string)
    requires Dumps(a) + x == Dumps(b) + y && Delimited(x) && Delimited(y)
    ensures a == b && x == y
    decreases a, 1
  {
    LeadsWithKind(a);
    LeadsWithKind(b);
    SameKind(a, b, x, y);
    match a
    case Null => SameLength(Dumps(a), Dumps(b), x, y);
    case Bool(_) => SameLength(Dumps(a), Dumps(b), x, y);
    case Integer(_) => NumbersDelimit(a, b, x, y);
    case Number(_) => NumbersDelimit(a, b, x, y);
    case Str(c) => QuotedDelimits(c, b.s, x, y);
    case Arr(items) =>
      Regroup(['['], Items(items, true), x);
      Regroup(['['], Items(b.items, true), y);
      DropHead('[', Items(items, true) + x, '[', Items(b.items, true) + y);
      ItemsDelimit(items, b.items, true, x, y);
    case Obj(fields) =>
      Regroup(['{'], Fields(fields, true), x);
      Regroup(['{'], Fields(b.fields, true), y);
      DropHead('{', Fields(fields, true) + x, '{', Fields(b.fields, true) + y);
      FieldsDelimit(fields, b.fields, true, x, y);
  }

  lemma ItemsHead(js: seq<Json>, first: bool, x: string)
    requires js != []
    ensures Items(js, first) + x == Separator(first) + (Dumps(js[0]) + (Items(js[1..], false) + x))
    ensures Delimited(Items(js[1..], false) + x)
  {}

  /** A closing bracket is not the start of a further element. */
  lemma ItemsLead(js: seq<Json>, first: bool)
    ensures js == [] <==> Items(js, first)[0] == ']'
  {
    if js != [] { LeadsWithKind(js[0]); }
  }

  lemma {:induction false} ItemsDelimit(a: seq<Json>, b: seq<Json>, first: bool, x: string, y: string)
    requires Items(a, first) + x == Items(b, first) + y
    ensures a == b && x == y
    decreases a, 0
  {
    ItemsLead(a, first);
    ItemsLead(b, first);
    assert (Items(a, first) + x)[0] == (Items(b, first) + y)[0];
    if a == [] {
      DropHead(']', x, ']', y);
    } else {
      ItemsHead(a, first, x);
      ItemsHead(b, first, y);
      var u, v := Items(a[1..], false) + x, Items(b[1..], false) + y;
      SameLength(Separator(first), Separator(first), Dumps(a[0]) + u, Dumps(b[0]) + v);
      DumpsDelimits(a[0], b[0], u, v);
      ItemsDelimit(a[1..], b[1..], false, x, y);
      assert a == [a[0]] + a[1..] && b == [b[0]] + b[1..];
    }
  }

  lemma FieldsHead(fs: seq<Field>, first: bool, x: string)
    requires fs != []
    ensures Fields(fs, first) + x
         == Separator(first) + (Quoted(fs[0].name) + (": " + (Dumps(fs[0].value) + (Fields(fs[1..], false) + x))))
    ensures Delimited(Fields(fs[1..], false) + x)
  {
    var rest := Dumps(fs[0].value) + Fields(fs[1..], false);
    Regroup(Separator(first), Quoted(fs[0].name) + (": " + rest), x);
    Regroup(Quoted(fs[0].name), ": " + rest, x);
    Regroup(": ", rest, x);
    Regroup(Dumps(fs[0].value), Fields(fs[1..], false), x);
  }

  lemma FieldsLead(fs: seq<Field>, first: bool)
    ensures fs == [] <==> Fields(fs, first)[0] == '}'
  {}

  lemma {:induction false} FieldsDelimit(a: seq<Field>, b: seq<Field>, first: bool, x: string, y: string)
    requires Fields(a, first) + x == Fields(b, first) + y
    ensures a == b && x == y
    decreases a, 0
  {
    FieldsLead(a, first);
    FieldsLead(b, first);
    assert (Fields(a, first) + x)[0] == (Fields(b, first) + y)[0];
    if a == [] {
      DropHead('}', x, '}', y);
    } else {
      FieldsHead(a, first, x);
      FieldsHead(b, first, y);
      var u, v := Fields(a[1..], false) + x, Fields(b[1..], false) + y;
      var p, q := Dumps(a[0].value) + u, Dumps(b[0].value) + v;
      SameLength(Separator(first), Separator(first), Quoted(a[0].name) + (": " + p), Quoted(b[0].name) + (": " + q));
      QuotedDelimits(a[0].name, b[0].name, ": " + p, ": " + q);
      SameLength(": ", ": ", p, q);
      DumpsDelimits(a[0].value, b[0].value, u, v);
      FieldsDelimit(a[1..], b[1..], false, x, y);
      assert a == [a[0]] + a[1..] && b == [b[0]] + b[1..];
    }
  }

  // ---- Nesting -----------------------------------------------------------------------------------

  /** How deep inside brackets, whether inside quotes, and whether behind a backslash there. */
  datatype Scan = Scan(depth: int, quoted: bool, escaped: bool)

  function At(depth: int): Scan { Scan(depth, false, false) }

  function Step(st: Scan, c: char): Scan {
    if st.quoted then
      if st.escaped then st.(escaped := false)
      else if c == '\\' then st.(escaped := true)
      else st.(quoted := c != '"')
    else if c == '"' then st.(quoted := true)
    else if c == '[' || c == '{' then st.(depth := st.depth + 1)
    else if c == ']' || c == '}' then st.(depth := st.depth - 1)
    else st
  }

  function Run(st: Scan, t: string): Scan
    decreases t
  {
    if t == [] then st else Run(Step(st, t[0]), t[1..])
  }

  /** Every quote and bracket is closed; a text for which this fails is not JSON. */
  predicate WellNested(t: string) { Run(At(0), t) == At(0) }

  /** No proper prefix of t leaves depth d. */
  predicate Within(st: Scan, t: string, d: int)
    decreases t
  {
    t == [] || (st.depth >= d && Within(Step(st, t[0]), t[1..], d))
  }

  lemma {:induction false} RunAppends(st: Scan, u: string, v: string, d: int)
    ensures Run(st, u + v) == Run(Run(st, u), v)
    ensures Within(st, u, d) && Within(Run(st, u), v, d) ==> Within(st, u + v, d)
    decreases u
  {
    if u == [] {
      assert u + v == v;
    } else {
      assert (u + v)[1..] == u[1..] + v;
      RunAppends(Step(st, u[0]), u[1..], v, d);
    }
  }

  lemma {:induction false} WithinMeans(st: Scan, t: string, d: int, n: nat)
    requires Within(st, t, d) && n < |t|
    ensures Run(st, t[..n]).depth >= d
    decreases n
  {
    if n > 0 {
      WithinMeans(Step(st, t[0]), t[1..], d, n - 1);
      assert t[..n][1..] == t[1..][..n - 1];
    }
  }

  lemma {:induction false} WithinWeakens(st: Scan, t: string, d: int)
    requires Within(st, t, d + 1)
    ensures Within(st, t, d)
    decreases t
  {
    if t != [] { WithinWeakens(Step(st, t[0]), t[1..], d); }
  }

  predicate Unstructured(t: string) { forall c :: c in t ==> c !in {'"', '[', ']', '{', '}', '\n'} }

  lemma {:induction false} UnstructuredRuns(t: string, d: int)
    requires Unstructured(t)
    ensures Run(At(d), t) == At(d) && Within(At(d), t, d)
  {
    if t != [] {
      assert t[0] in t && forall c :: c in t[1..] ==> c in t;
      UnstructuredRuns(t[1..], d);
    }
  }

  lemma NumbersUnstructured(i: int)
    ensures Unstructured(Signed(i))
  {
    DecimalDigits(if i >= 0 then i else -i);
  }

  lemma EscapeRuns(c: char, d: int)
    ensures var q := Scan(d, true, false); Run(q, Escape(c)) == q && Within(q, Escape(c), d)
  {
    var q, t := Scan(d, true, false), Escape(c);
    var p := Step(q, t[0]);
    if |t| == 2 {
      assert t[1..] == [t[1]] && t[1..][1..] == [];
      assert Step(p, t[1]) == q;
      assert Run(p, t[1..]) == Run(q, []) && (Within(p, t[1..], d) <== Within(q, [], d));
    } else {
      assert t[1..] == [];
    }
  }

  lemma {:induction false} CharsRun(s: string, d: int)
    ensures Run(Scan(d, true, false), Chars(s)) == At(d) && Within(Scan(d, true, false), Chars(s), d)
  {
    if s != [] {
      EscapeRuns(s[0], d);
      CharsRun(s[1..], d);
      RunAppends(Scan(d, true, false), Escape(s[0]), Chars(s[1..]), d);
    }
  }

  /** t, read at depth d, ends at depth e and stays within depth w until then. */
  predicate Spans(t: string, d: int, e: int, w: int) { Run(At(d), t) == At(e) && Within(At(d), t, w) }

  lemma SpansAppend(u: string, v: string, d: int, e: int, f: int, w: int)
    requires Spans(u, d, e, w) && Spans(v, e, f, w)
    ensures Spans(u + v, d, f, w)
  {
    RunAppends(At(d), u, v, w);
  }

  lemma QuotedSpans(s: string, d: int)
    ensures Spans(Quoted(s), d, d, d)
  {
    CharsRun(s, d);
    RunAppends(At(d), ['"'], Chars(s), d);
  }

  lemma OpenSpans(open: char, t: string, d: int)
    requires open in {'[', '{'} && Spans(t, d + 1, d, d + 1)
    ensures Spans([open] + t, d, d, d)
  {
    WithinWeakens(At(d + 1), t, d);
    RunAppends(At(d), [open], t, d);
  }

  /** A value closes all that it opens, and nothing else. */
  lemma {:induction false} DumpsSpans(j: Json, d: int)
    ensures Spans(Dumps(j), d, d, d)
    decreases j, 1
  {
    match j
    case Null => UnstructuredRuns("null", d);
    case Bool(b) => UnstructuredRuns(Dumps(j), d);
    case Integer(i) => NumbersUnstructured(i); UnstructuredRuns(Dumps(j), d);
    case Number(x) => NumbersUnstructured(x.mantissa); NumbersUnstructured(x.exponent); UnstructuredRuns(Dumps(j), d);
    case Str(s) => QuotedSpans(s, d);
    case Arr(items) => ItemsSpan(items, true, d); OpenSpans('[', Items(items, true), d);
    case Obj(fields) => FieldsSpan(fields, true, d); OpenSpans('{', Fields(fields, true), d);
  }

  lemma {:induction false} ItemsSpan(js: seq<Json>, first: bool, d: int)
    ensures Spans(Items(js, first), d + 1, d, d + 1)
    decreases js, 0
  {
    if js != [] {
      UnstructuredRuns(Separator(first), d + 1);
      DumpsSpans(js[0], d + 1);
      ItemsSpan(js[1..], false, d);
      SpansAppend(Dumps(js[0]), Items(js[1..], false), d + 1, d + 1, d, d + 1);
      SpansAppend(Separator(first), Dumps(js[0]) + Items(js[1..], false), d + 1, d + 1, d, d + 1);
    }
  }

  lemma {:induction false} FieldsSpan(fs: seq<Field>, first: bool, d: int)
    ensures Spans(Fields(fs, first), d + 1, d, d + 1)
    decreases fs, 0
  {
    if fs != [] {
      var rest := Dumps(fs[0].value) + Fields(fs[1..], false);
      UnstructuredRuns(Separator(first), d + 1);
      UnstructuredRuns(": ", d + 1);
      QuotedSpans(fs[0].name, d + 1);
      DumpsSpans(fs[0].value, d + 1);
      FieldsSpan(fs[1..], false, d);
      SpansAppend(Dumps(fs[0].value), Fields(fs[1..], false), d + 1, d + 1, d, d + 1);
      SpansAppend(": ", rest, d + 1, d + 1, d, d + 1);
      SpansAppend(Quoted(fs[0].name), ": " + rest, d + 1, d + 1, d, d + 1);
      SpansAppend(Separator(first), Quoted(fs[0].name) + (": " + rest), d + 1, d + 1, d, d + 1);
    }
  }

  /** An object's text is well nested, and none of its proper prefixes is. */
  lemma CutObjectIsTorn(fs: seq<Field>, n: nat)
    requires 0 < n < |Dumps(Obj(fs))|
    ensures WellNested(Dumps(Obj(fs))) && !WellNested(Dumps(Obj(fs))[..n])
  {
    var t := Fields(fs, true);
    DumpsSpans(Obj(fs), 0);
    FieldsSpan(fs, true, 0);
    WithinMeans(At(1), t, 1, n - 1);
    assert Dumps(Obj(fs))[..n] == ['{'] + t[..n - 1];
    RunAppends(At(0), ['{'], t[..n - 1], 0);
  }

  // ---- One line ----------------------------------------------------------------------------------

  lemma {:induction false} CharsPlain(s: string)
    ensures '\n' !in Chars(s)
  {
    if s != [] { CharsPlain(s[1..]); }
  }

  lemma {:induction false} DumpsPlain(j: Json)
    ensures '\n' !in Dumps(j)
    decreases j, 1
  {
    match j
    case Integer(i) => NumbersUnstructured(i);
    case Number(x) => NumbersUnstructured(x.mantissa); NumbersUnstructured(x.exponent);
    case Str(s) => CharsPlain(s);
    case Arr(items) => ItemsPlain(items, true);
    case Obj(fields) => FieldsPlain(fields, true);
    case _ =>
  }

  lemma {:induction false} ItemsPlain(js: seq<Json>, first: bool)
    ensures '\n' !in Items(js, first)
    decreases js, 0
  {
    if js != [] { DumpsPlain(js[0]); ItemsPlain(js[1..], false); }
  }

  lemma {:induction false} FieldsPlain(fs: seq<Field>, first: bool)
    ensures '\n' !in Fields(fs, first)
    decreases fs, 0
  {
    if fs != [] { CharsPlain(fs[0].name); DumpsPlain(fs[0].value); FieldsPlain(fs[1..], false); }
  }
}
