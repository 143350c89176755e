/** The append-only memo log shared by concurrent workers, and the worker's incremental mirror of it. */
module SimCache {
  import opened SimTypes

  type Text = seq<char>

  /** One log entry; keys and values are whatever the line format can carry. */
  datatype Rec<+K, +V> = Rec(key: K, value: V)

  /** What a line means to the reader: a record, valid text without one, or not parseable. */
  datatype Line<+K, +V> = Record(r: Rec<K, V>) | Other | Unreadable

  datatype Codec<!K, !V> = Codec(encode: Rec<K, V> -> Text, parse: Text -> Line<K, V>)

  /** The facts about JSON lines that the protocol needs: one line per record, exact round trip,
      and no proper prefix of a record's line is itself parseable. */
  ghost predicate ValidCodec<K(!new), V(!new)>(cd: Codec<K, V>) {
    forall r {:trigger cd.encode(r)} ::
      && cd.encode(r) != [] && '\n' !in cd.encode(r)
      && cd.parse(cd.encode(r)) == Record(r)
      && forall n :: 0 < n < |cd.encode(r)| ==> cd.parse(cd.encode(r)[..n]) == Unreadable
  }

  /** The log that holds the records rs. */
  ghost function Render<K(!new), V(!new)>(cd: Codec<K, V>, rs: seq<Rec<K, V>>): Text {
    if rs == [] then [] else cd.encode(rs[0]) + ['\n'] + Render(cd, rs[1..])
  }

  function LineLength(w: Text): (n: nat)
    ensures n <= |w| && '\n' !in w[..n] && (n < |w| ==> w[n] == '\n')
  {
    if w == [] || w[0] == '\n' then 0 else 1 + LineLength(w[1..])
  }

  function Absorb<K(!new), V(!new)>(m: map<K, V>, l: Line<K, V>): map<K, V> {
    match l case Record(r) => m[r.key := r.value] case _ => m
  }

  /** Reads the lines of w into the memo; the flag says whether the end of w was reached. */
  function ScanLines<K(!new), V(!new)>(cd: Codec<K, V>, w: Text, m: map<K, V>): (map<K, V>, bool)
    decreases |w|
  {
    if w == [] then (m, true) else
    var n := LineLength(w);
    var rest := if n < |w| then w[n + 1..] else [];
    if n == 0 then ScanLines(cd, rest, m) else
    var l := cd.parse(w[..n]);
    if l.Unreadable? then (m, false) else ScanLines(cd, rest, Absorb(m, l))
  }

  function LineAt(w: Text, at: nat): Text
    requires at < |w|
  {
    w[at..at + LineLength(w[at..])]
  }

  function AfterLine(w: Text, at: nat): (next: nat)
    requires at < |w|
    ensures at < next <= |w|
  {
    var end := at + LineLength(w[at..]);
    if end < |w| then end + 1 else |w|
  }

  /** ScanLines on what lies beyond position at. */
  ghost function ScanAt<K(!new), V(!new)>(cd: Codec<K, V>, w: Text, at: nat, m: map<K, V>): (map<K, V>, bool)
    requires at <= |w|
    decreases |w| - at
  {
    if at == |w| then (m, true) else
    var line := LineAt(w, at);
    if line == [] then ScanAt(cd, w, AfterLine(w, at), m) else
    var l := cd.parse(line);
    if l.Unreadable? then (m, false) else ScanAt(cd, w, AfterLine(w, at), Absorb(m, l))
  }

  lemma {:induction false} ScanAtIsScan<K(!new), V(!new)>(cd: Codec<K, V>, w: Text, at: nat, m: map<K, V>)
    requires at <= |w|
    ensures ScanAt(cd, w, at, m) == ScanLines(cd, w[at..], m)
    decreases |w| - at
  {
    if at < |w| {
      var n := LineLength(w[at..]);
      assert w[at..][..n] == LineAt(w, at);
      assert w[AfterLine(w, at)..] == if n < |w[at..]| then w[at..][n + 1..] else [];
      ScanAtIsScan(cd, w, AfterLine(w, at), m);
      if n > 0 { ScanAtIsScan(cd, w, AfterLine(w, at), Absorb(m, cd.parse(LineAt(w, at)))); }
    }
  }

  /** What one worker process knows of the log: its memo, and the file position read so far. */
  datatype View<K, V> = View(memo: map<K, V>, pos: nat)

  /** visible is what the file shows at this moment, possibly cut inside its last line. When a line does not
      parse, the loop breaks, the position query that follows fails, and pos stays where this refresh began;
      the lines before it are already in the memo. */
  function Refreshed<K(!new), V(!new)>(cd: Codec<K, V>, w: View<K, V>, visible: Text): View<K, V>
    requires w.pos <= |visible|
  {
    var (m, done) := ScanLines(cd, visible[w.pos..], w.memo);
    View(m, if done then |visible| else w.pos)
  }

  function LookedUp<K(!new), V(!new)>(cd: Codec<K, V>, w: View<K, V>, visible: Text, key: K): View<K, V>
    requires w.pos <= |visible|
  {
    if key in w.memo then w else Refreshed(cd, w, visible)
  }

  function Find<K, V>(m: map<K, V>, key: K): Option<V> { if key in m then Some(m[key]) else None }

  function Stored<K, V>(w: View<K, V>, key: K, value: V): View<K, V> { w.(memo := w.memo[key := value]) }

  /** The bytes of one append. */
  function LineOf<K, V>(cd: Codec<K, V>, r: Rec<K, V>): Text { cd.encode(r) + ['\n'] }

  /** One worker process's mirror of the log. */
  class Mirror<K(==, !new), V(!new)> {
    var memo: map<K, V>
    var pos: nat

    function State(): View<K, V>
      reads this
    {
      View(memo, pos)
    }

    method Refresh(cd: Codec<K, V>, visible: Text)
      requires pos <= |visible|
      modifies this
      ensures State() == Refreshed(cd, old(State()), visible)
    {
      var at := pos;
      ghost var all := ScanAt(cd, visible, pos, memo);
      ScanAtIsScan(cd, visible, pos, memo);
      while at < |visible|
        invariant pos == old(pos) <= at <= |visible|
        invariant all == ScanAt(cd, visible, at, memo)
      {
        var line := LineAt(visible, at);
        if line != [] {
          var l := cd.parse(line);
          if l.Unreadable? { return; }
          memo := Absorb(memo, l);
        }
        at := AfterLine(visible, at);
      }
      pos := at;
    }

    method Lookup(cd: Codec<K, V>, visible: Text, key: K) returns (hit: Option<V>)
      requires pos <= |visible|
      modifies this
      ensures State() == LookedUp(cd, old(State()), visible, key) && hit == Find(State().memo, key)
    {
      if key !in memo { Refresh(cd, visible); }
      hit := if key in memo then Some(memo[key]) else None;
    }

    /** Returns the bytes that the worker appends to the log with one write. */
    method Store(cd: Codec<K, V>, key: K, value: V) returns (data: Text)
      modifies this
      ensures State() == Stored(old(State()), key, value) && data == LineOf(cd, Rec(key, value))
    {
      memo := memo[key := value];
      data := cd.encode(Rec(key, value)) + ['\n'];
    }
  }

  // ---- What a refresh sees ----------------------------------------------------------------------

  function AbsorbAll<K(!new), V(!new)>(m: map<K, V>, rs: seq<Rec<K, V>>): map<K, V>
    decreases |rs|
  {
    if rs == [] then m else AbsorbAll(m[rs[0].key := rs[0].value], rs[1..])
  }

  lemma {:induction false} LineLengthOf(line: Text, w: Text)
    requires '\n' !in line && line <= w && (|w| == |line| || w[|line|] == '\n')
    ensures LineLength(w) == |line|
  {}

  /** How many of the records rs the first n characters of their log show whole, newline or not. */
  ghost function Whole<K(!new), V(!new)>(cd: Codec<K, V>, rs: seq<Rec<K, V>>, n: int): (k: nat)
    ensures k <= |rs|
    decreases |rs|
  {
    if rs == [] || n < |cd.encode(rs[0])| then 0
    else 1 + Whole(cd, rs[1..], n - |cd.encode(rs[0])| - 1)
  }

  /** Position n sits between records: at the start of a line, or just before a line's newline. */
  ghost predicate Between<K(!new), V(!new)>(cd: Codec<K, V>, rs: seq<Rec<K, V>>, n: int) {
    n <= |Render(cd, rs[..Whole(cd, rs, n)])| <= n + 1
  }

  lemma {:induction false} WholeBounds<K(!new), V(!new)>(cd: Codec<K, V>, rs: seq<Rec<K, V>>, n: int)
    requires ValidCodec(cd) && -1 <= n <= |Render(cd, rs)|
    ensures |Render(cd, rs[..Whole(cd, rs, n)])| <= n + 1
    ensures forall i :: 0 <= i <= |rs| && |Render(cd, rs[..i])| <= n + 1 ==> i <= Whole(cd, rs, n)
    decreases |rs|
  {
    if rs != [] {
      var l := |cd.encode(rs[0])|;
      forall i | 1 <= i <= |rs|
        ensures |Render(cd, rs[..i])| == l + 1 + |Render(cd, rs[1..][..i - 1])|
      {
        assert rs[..i][1..] == rs[1..][..i - 1];
      }
      if n >= l { WholeBounds(cd, rs[1..], n - l - 1); }
    }
  }

  /** A line cut inside its record stops the scan. */
  lemma ScanTornLine<K(!new), V(!new)>(cd: Codec<K, V>, r: Rec<K, V>, n: nat, m: map<K, V>)
    requires ValidCodec(cd) && 0 < n < |cd.encode(r)|
    ensures ScanLines(cd, cd.encode(r)[..n], m) == (m, false)
  {
    var w := cd.encode(r)[..n];
    LineLengthOf(w, w);
    assert w[..n] == w;
  }

  /** A whole line, its newline read or not yet there, is absorbed. */
  lemma ScanWholeLine<K(!new), V(!new)>(cd: Codec<K, V>, r: Rec<K, V>, rest: Text, m: map<K, V>)
    requires ValidCodec(cd)
    ensures ScanLines(cd, cd.encode(r), m) == (m[r.key := r.value], true)
    ensures ScanLines(cd, cd.encode(r) + ['\n'] + rest, m) == ScanLines(cd, rest, m[r.key := r.value])
  {
    var line, w := cd.encode(r), cd.encode(r) + ['\n'] + rest;
    LineLengthOf(line, line);
    LineLengthOf(line, w);
    assert line[..|line|] == line && w[..|line|] == line && w[|line| + 1..] == rest;
  }

  /** Reading any prefix of a rendered log absorbs exactly its whole records, and reaches the end
      unless the prefix is cut inside a record. */
  lemma {:induction false} ScanReadsWholeRecords<K(!new), V(!new)>(cd: Codec<K, V>, rs: seq<Rec<K, V>>, n: nat,
                                                                   m: map<K, V>)
    requires ValidCodec(cd) && n <= |Render(cd, rs)|
    ensures ScanLines(cd, Render(cd, rs)[..n], m) == (AbsorbAll(m, rs[..Whole(cd, rs, n)]), Between(cd, rs, n))
    decreases |rs|
  {
    if rs == [] || n == 0 { return; }
    var w, line := Render(cd, rs)[..n], cd.encode(rs[0]);
    if n < |line| {
      assert w == line[..n];
      ScanTornLine(cd, rs[0], n, m);
    } else {
      var rest := if |line| < n then n - |line| - 1 else 0;
      var tail, next := Render(cd, rs[1..])[..rest], m[rs[0].key := rs[0].value];
      assert w == if |line| < n then line + ['\n'] + tail else line;
      ScanWholeLine(cd, rs[0], tail, m);
      assert ScanLines(cd, w, m) == ScanLines(cd, tail, next);
      ScanReadsWholeRecords(cd, rs[1..], rest, next);
      StepRecord(cd, rs, n);
    }
  }

  lemma StepRecord<K(!new), V(!new)>(cd: Codec<K, V>, rs: seq<Rec<K, V>>, n: nat)
    requires ValidCodec(cd) && rs != [] && |cd.encode(rs[0])| <= n <= |Render(cd, rs)|
    ensures var rest := if |cd.encode(rs[0])| < n then n - |cd.encode(rs[0])| - 1 else 0;
      && Whole(cd, rs, n) == 1 + Whole(cd, rs[1..], rest)
      && rs[..Whole(cd, rs, n)][1..] == rs[1..][..Whole(cd, rs[1..], rest)]
      && (Between(cd, rs, n) <==> Between(cd, rs[1..], rest))
  {}

  lemma {:induction false} RenderConcat<K(!new), V(!new)>(cd: Codec<K, V>, a: seq<Rec<K, V>>, b: seq<Rec<K, V>>)
    ensures Render(cd, a + b) == Render(cd, a) + Render(cd, b)
    decreases |a|
  {
    if a == [] {
      assert a + b == b;
    } else {
      assert (a + b)[1..] == a[1..] + b;
      RenderConcat(cd, a[1..], b);
    }
  }

  lemma {:induction false} WholeShift<K(!new), V(!new)>(cd: Codec<K, V>, rs: seq<Rec<K, V>>, i: nat, x: int)
    requires ValidCodec(cd) && i <= |rs| && x >= -1
    ensures Whole(cd, rs, |Render(cd, rs[..i])| + x) == i + Whole(cd, rs[i..], x)
    decreases i
  {
    if i > 0 {
      WholeShift(cd, rs[1..], i - 1, x);
      assert rs[..i][1..] == rs[1..][..i - 1] && rs[i..] == rs[1..][i - 1..];
    } else {
      assert rs[i..] == rs;
    }
  }

  /** The text from a position at, or one newline before, the start of record i. */
  lemma TextFrom<K(!new), V(!new)>(cd: Codec<K, V>, rs: seq<Rec<K, V>>, i: nat, p: nat, n: nat)
    requires i <= |rs| && p <= n <= |Render(cd, rs)| && p <= |Render(cd, rs[..i])| <= p + 1
    ensures var x := n - |Render(cd, rs[..i])|;
      && x <= |Render(cd, rs[i..])|
      && Render(cd, rs)[p..n] ==
           if x == -1 then []
           else (if p == |Render(cd, rs[..i])| then [] else ['\n']) + Render(cd, rs[i..])[..x]
  {
    var head := Render(cd, rs[..i]);
    assert rs == rs[..i] + rs[i..];
    RenderConcat(cd, rs[..i], rs[i..]);
    if p < |head| { EndsInNewline(cd, rs[..i]); assert head[p..] == ['\n']; }
    var x := n - |head|;
    if x >= 0 { assert (head + Render(cd, rs[i..]))[p..n] == head[p..] + Render(cd, rs[i..])[..x]; }
  }

  /** A scan from such a position reads the records from i on, skipping the newline in front of them. */
  lemma ScanFrom<K(!new), V(!new)>(cd: Codec<K, V>, rs: seq<Rec<K, V>>, i: nat, p: nat, n: nat, m: map<K, V>)
    requires i <= |rs| && p <= n <= |Render(cd, rs)| && p <= |Render(cd, rs[..i])| <= p + 1
    ensures var x := n - |Render(cd, rs[..i])|;
      && x <= |Render(cd, rs[i..])|
      && ScanLines(cd, Render(cd, rs)[p..n], m) == if x == -1 then (m, true)
        else ScanLines(cd, Render(cd, rs[i..])[..x], m)
  {
    TextFrom(cd, rs, i, p, n);
    var x := n - |Render(cd, rs[..i])|;
    if x >= 0 { LeadingNewline(cd, Render(cd, rs[i..])[..x], m); }
  }

  lemma ScanTail<K(!new), V(!new)>(cd: Codec<K, V>, rs: seq<Rec<K, V>>, i: nat, x: nat, m: map<K, V>)
    requires ValidCodec(cd) && i <= |rs| && x <= |Render(cd, rs[i..])|
    ensures var n := |Render(cd, rs[..i])| + x;
      && i <= Whole(cd, rs, n)
      && ScanLines(cd, Render(cd, rs[i..])[..x], m) == (AbsorbAll(m, rs[i..Whole(cd, rs, n)]), Between(cd, rs, n))
  {
    WholeShift(cd, rs, i, x);
    BetweenShift(cd, rs, i, x);
    ScanReadsWholeRecords(cd, rs[i..], x, m);
    assert rs[i..][..Whole(cd, rs[i..], x)] == rs[i..i + Whole(cd, rs[i..], x)];
  }

  lemma ScanFromRecord<K(!new), V(!new)>(cd: Codec<K, V>, rs: seq<Rec<K, V>>, i: nat, p: nat, n: nat, m: map<K, V>)
    requires ValidCodec(cd) && i <= |rs| && p <= |Render(cd, rs[..i])| <= p + 1
    requires |Render(cd, rs[..i])| <= n <= |Render(cd, rs)|
    ensures i <= Whole(cd, rs, n)
    ensures ScanLines(cd, Render(cd, rs)[p..n], m) == (AbsorbAll(m, rs[i..Whole(cd, rs, n)]), Between(cd, rs, n))
  {
    ScanFrom(cd, rs, i, p, n, m);
    ScanTail(cd, rs, i, n - |Render(cd, rs[..i])|, m);
  }

  /** Resuming from a position between records absorbs exactly the records that have become whole. */
  lemma ScanResumes<K(!new), V(!new)>(cd: Codec<K, V>, rs: seq<Rec<K, V>>, p: nat, n: nat, m: map<K, V>)
    requires ValidCodec(cd) && p <= n <= |Render(cd, rs)| && Between(cd, rs, p)
    ensures Whole(cd, rs, p) <= Whole(cd, rs, n)
    ensures ScanLines(cd, Render(cd, rs)[p..n], m)
      == (AbsorbAll(m, rs[Whole(cd, rs, p)..Whole(cd, rs, n)]), Between(cd, rs, n))
  {
    var i := Whole(cd, rs, p);
    if n < |Render(cd, rs[..i])| {
      assert n == p && Render(cd, rs)[p..n] == [] && rs[i..i] == [];
    } else {
      ScanFromRecord(cd, rs, i, p, n, m);
    }
  }

  lemma LeadingNewline<K(!new), V(!new)>(cd: Codec<K, V>, w: Text, m: map<K, V>)
    ensures ScanLines(cd, [] + w, m) == ScanLines(cd, w, m) == ScanLines(cd, ['\n'] + w, m)
  {
    assert [] + w == w && (['\n'] + w)[1..] == w;
  }

  lemma {:induction false} EndsInNewline<K(!new), V(!new)>(cd: Codec<K, V>, rs: seq<Rec<K, V>>)
    requires rs != []
    ensures var t := Render(cd, rs); t != [] && t[|t| - 1] == '\n'
    decreases |rs|
  {
    if |rs| > 1 { EndsInNewline(cd, rs[1..]); } else { assert rs[1..] == []; }
  }

  lemma BetweenShift<K(!new), V(!new)>(cd: Codec<K, V>, rs: seq<Rec<K, V>>, i: nat, x: nat)
    requires ValidCodec(cd) && i <= |rs| && x <= |Render(cd, rs[i..])|
    ensures Between(cd, rs[i..], x) <==> Between(cd, rs, |Render(cd, rs[..i])| + x)
  {
    WholeShift(cd, rs, i, x);
    var j := Whole(cd, rs[i..], x);
    assert rs[..i + j] == rs[..i] + rs[i..][..j];
    RenderConcat(cd, rs[..i], rs[i..][..j]);
  }

  /** Appending a record moves no position that was already between records. */
  lemma {:induction false} AppendKeepsPositions<K(!new), V(!new)>(cd: Codec<K, V>, rs: seq<Rec<K, V>>, r: Rec<K, V>,
                                                                  n: nat)
    requires ValidCodec(cd) && n <= |Render(cd, rs)|
    ensures Whole(cd, rs + [r], n) == Whole(cd, rs, n)
    ensures Between(cd, rs, n) ==> Between(cd, rs + [r], n)
    decreases |rs|
  {
    WholeOfPrefix(cd, rs, r, n);
    var k := Whole(cd, rs, n);
    assert (rs + [r])[..k] == rs[..k];
  }

  lemma {:induction false} WholeOfPrefix<K(!new), V(!new)>(cd: Codec<K, V>, rs: seq<Rec<K, V>>, r: Rec<K, V>, n: int)
    requires ValidCodec(cd) && n <= |Render(cd, rs)|
    ensures Whole(cd, rs + [r], n) == Whole(cd, rs, n)
    decreases |rs|
  {
    assert (rs + [r])[0] == if rs == [] then r else rs[0];
    if rs != [] && n >= |cd.encode(rs[0])| {
      assert (rs + [r])[1..] == rs[1..] + [r];
      WholeOfPrefix(cd, rs[1..], r, n - |cd.encode(rs[0])| - 1);
    }
  }

  lemma {:induction false} AbsorbAllKeeps<K(!new), V(!new)>(m: map<K, V>, rs: seq<Rec<K, V>>, P: (K, V) -> bool)
    requires forall k :: k in m ==> P(k, m[k])
    requires forall r :: r in rs ==> P(r.key, r.value)
    ensures m.Keys <= AbsorbAll(m, rs).Keys
    ensures forall k :: k in AbsorbAll(m, rs) ==> P(k, AbsorbAll(m, rs)[k])
    ensures forall r :: r in rs ==> r.key in AbsorbAll(m, rs)
    decreases |rs|
  {
    if rs != [] {
      assert rs == [rs[0]] + rs[1..];
      AbsorbAllKeeps(m[rs[0].key := rs[0].value], rs[1..], P);
    }
  }

  // ---- Where a torn line leaves the position -----------------------------------------------------

  /** Where the record begins that the first n characters do not show whole. */
  ghost function UnreadStart<K(!new), V(!new)>(cd: Codec<K, V>, rs: seq<Rec<K, V>>, n: int): nat {
    |Render(cd, rs[..Whole(cd, rs, n)])|
  }

  /** Position p is at the start of that record's line, or on the newline before it. */
  ghost predicate AtUnread<K(!new), V(!new)>(cd: Codec<K, V>, rs: seq<Rec<K, V>>, p: nat, n: int) {
    p <= UnreadStart(cd, rs, n) <= p + 1
  }

  /** A refresh that meets a torn line leaves the position at the start of that line exactly when no whole
      record has become visible since the position was reached. */
  lemma TornLineKeptIff<K(!new), V(!new)>(cd: Codec<K, V>, rs: seq<Rec<K, V>>, w: View<K, V>, n: nat)
    requires ValidCodec(cd) && w.pos <= n <= |Render(cd, rs)| && Between(cd, rs, w.pos) && !Between(cd, rs, n)
    ensures Refreshed(cd, w, Render(cd, rs)[..n]).pos == w.pos
    ensures AtUnread(cd, rs, w.pos, n) <==> Whole(cd, rs, w.pos) == Whole(cd, rs, n)
  {
    assert Render(cd, rs)[..n][w.pos..] == Render(cd, rs)[w.pos..n];
    ScanResumes(cd, rs, w.pos, n, w.memo);
    WholeBounds(cd, rs, w.pos);
  }

  /** A log of two records, read up to the second character of the second line: the first record is absorbed,
      and the position stays at the start of the first line. */
  lemma TornSecondLine<K(!new), V(!new)>(cd: Codec<K, V>, a: Rec<K, V>, b: Rec<K, V>)
    requires ValidCodec(cd) && |cd.encode(b)| >= 2
    ensures var n := |cd.encode(a)| + 2;
      && n <= |Render(cd, [a, b])|
      && Refreshed(cd, View(map[], 0), Render(cd, [a, b])[..n]) == View(map[a.key := a.value], 0)
      && !AtUnread(cd, [a, b], 0, n)
  {
    var rs, n := [a, b], |cd.encode(a)| + 2;
    assert rs[1..] == [b] && [b][1..] == [];
    assert Render(cd, [b]) == cd.encode(b) + ['\n'] + Render(cd, [b][1..]);
    assert Render(cd, rs) == cd.encode(a) + ['\n'] + Render(cd, rs[1..]);
    assert Whole(cd, rs, n) == 1 + Whole(cd, [b], 1) == 1;
    assert rs[..1] == [a] && [a][1..] == [];
    assert Render(cd, [a]) == cd.encode(a) + ['\n'] + Render(cd, [a][1..]);
    ScanReadsWholeRecords(cd, rs, n, map[]);
    assert Render(cd, rs)[..n][0..] == Render(cd, rs)[..n];
    assert AbsorbAll(map[], [a]) == AbsorbAll(map[a.key := a.value], []);
  }
}
