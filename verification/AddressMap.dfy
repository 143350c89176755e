/** The mixed-radix maps between byte addresses and DRAM coordinates. */
module AddressMap {
  import opened SimTypes
  import opened Arith

  datatype MemoryConfig = MemoryConfig(numCube: nat, numLogicCube: nat, numChannel: nat, numRank: nat,
                                       numBankgroup: nat, numBank: nat, numRow: nat, numCol: nat, granul: nat)

  predicate ValidConfig(m: MemoryConfig) {
    m.numCube >= 1 && m.numLogicCube >= 1 && m.numChannel >= 1 && m.numRank >= 1 &&
    m.numBankgroup >= 1 && m.numBank >= 1 && m.numRow >= 1 && m.numCol >= 1 && m.granul >= 1
  }

  datatype AddrVec = AddrVec(cube: int, channel: int, rank: int, bankgroup: int, bank: int, row: int, col: int)

  /** addrToVec; None is the abort on a row beyond the last. */
  function AddrToVec(m: MemoryConfig, address: nat): Option<AddrVec>
    requires ValidConfig(m)
  {
    var a0 := address / m.granul;
    var a1 := a0 / m.numCube;
    var a2 := a1 / m.numChannel;
    var a3 := a2 / m.numRank;
    var a4 := a3 / m.numBankgroup;
    var a5 := a4 / m.numBank;
    var row := a5 / m.numCol;
    if row >= m.numRow then None else
    Some(AddrVec(a0 % m.numCube, a1 % m.numChannel, a2 % m.numRank, a3 % m.numBankgroup,
                 a4 % m.numBank, row, a5 % m.numCol))
  }

  /** addrToVecLOGIC: bank halves around the row, rank outermost and wrapping. */
  function AddrToVecLogic(m: MemoryConfig, address: nat): AddrVec
    requires ValidConfig(m)
  {
    var a0 := address / m.granul;
    var a1 := a0 / m.numLogicCube;
    var a2 := a1 / m.numChannel;
    var a3 := a2 / m.numBankgroup;
    var a4 := a3 / 2;
    var a5 := a4 / m.numCol;
    var a6 := a5 / m.numRow;
    var a7 := a6 / 2;
    AddrVec(a0 % m.numLogicCube, a1 % m.numChannel, a7 % m.numRank, a2 % m.numBankgroup,
            (a6 % 2) * 2 + a3 % 2, a5 % m.numRow, a4 % m.numCol)
  }

  /** vecToAddrLOGIC. The innermost digit is scaled by numCube, not numLogicCube. */
  function VecToAddrLogic(m: MemoryConfig, v: AddrVec): int {
    (LogicUpper(m, v) * m.numCube + v.cube) * m.granul
  }

  /** The digits above the cube, from the rank down to the channel. */
  function LogicUpper(m: MemoryConfig, v: AddrVec): int {
    (((((v.rank * 2 + v.bank / 2) * m.numRow + v.row) * m.numCol + v.col) * 2 + v.bank % 2)
      * m.numBankgroup + v.bankgroup) * m.numChannel + v.channel
  }

  /** The granule that the normal decoder maps to v: the inverse that the source does not define. */
  function VecToGranule(m: MemoryConfig, v: AddrVec): int {
    (((((v.row * m.numCol + v.col) * m.numBank + v.bank) * m.numBankgroup + v.bankgroup)
      * m.numRank + v.rank) * m.numChannel + v.channel) * m.numCube + v.cube
  }

  /** Coordinates that exist in a device with the given number of cubes and banks. */
  predicate InBox(m: MemoryConfig, cubes: nat, banks: nat, v: AddrVec) {
    0 <= v.cube < cubes && 0 <= v.channel < m.numChannel && 0 <= v.rank < m.numRank &&
    0 <= v.bankgroup < m.numBankgroup && 0 <= v.bank < banks && 0 <= v.row < m.numRow && 0 <= v.col < m.numCol
  }

  function Granules(m: MemoryConfig): nat {
    m.numRow * m.numCol * m.numBank * m.numBankgroup * m.numRank * m.numChannel * m.numCube
  }

  function LogicUpperGranules(m: MemoryConfig): nat {
    m.numRank * 2 * m.numRow * m.numCol * 2 * m.numBankgroup * m.numChannel
  }

  function LogicGranules(m: MemoryConfig): nat { LogicUpperGranules(m) * m.numLogicCube }

  lemma Peel(x: nat, n: nat)
    requires n >= 1
    ensures x == x / n * n + x % n && 0 <= x % n < n && 0 <= x / n
  {}

  /** One more digit below hi. */
  lemma DigitBound(hi: nat, lo: nat, n: nat, bound: nat)
    requires hi < bound && lo < n
    ensures 0 <= hi * n + lo < bound * n
  {
    MulMono(hi + 1, bound, n);
    MulMono(0, hi, n);
  }

  // ---- The normal map ----------------------------------------------------------------------------

  lemma Div3Less(x: nat, n0: nat, n1: nat, n2: nat, bound: nat)
    requires n0 >= 1 && n1 >= 1 && n2 >= 1
    ensures x / n0 / n1 / n2 < bound <==> x < bound * n2 * n1 * n0
  {
    DivLess(x / n0 / n1, n2, bound);
    DivLess(x / n0, n1, bound * n2);
    DivLess(x, n0, bound * n2 * n1);
  }

  lemma NormalInRange(m: MemoryConfig, a0: nat)
    requires ValidConfig(m)
    ensures a0 / m.numCube / m.numChannel / m.numRank / m.numBankgroup / m.numBank / m.numCol < m.numRow
      <==> a0 < Granules(m)
  {
    Div3Less(a0 / m.numCube / m.numChannel / m.numRank, m.numBankgroup, m.numBank, m.numCol, m.numRow);
    Div3Less(a0, m.numCube, m.numChannel, m.numRank, m.numRow * m.numCol * m.numBank * m.numBankgroup);
  }

  /** Decoding succeeds exactly below the capacity, lands in the box, and determines the granule. */
  lemma DecodeNormal(m: MemoryConfig, address: nat)
    requires ValidConfig(m)
    ensures AddrToVec(m, address).Some? <==> address / m.granul < Granules(m)
    ensures AddrToVec(m, address).Some? ==>
      InBox(m, m.numCube, m.numBank, AddrToVec(m, address).value) &&
      VecToGranule(m, AddrToVec(m, address).value) == address / m.granul
  {
    NormalInRange(m, address / m.granul);
    var a0 := address / m.granul;
    var a1 := a0 / m.numCube;             Peel(a0, m.numCube);
    var a2 := a1 / m.numChannel;          Peel(a1, m.numChannel);
    var a3 := a2 / m.numRank;             Peel(a2, m.numRank);
    var a4 := a3 / m.numBankgroup;        Peel(a3, m.numBankgroup);
    var a5 := a4 / m.numBank;             Peel(a4, m.numBank);
    Peel(a5, m.numCol);
  }

  /** Every coordinate vector in the box is the image of one granule. */
  lemma EncodeNormal(m: MemoryConfig, v: AddrVec)
    requires ValidConfig(m) && InBox(m, m.numCube, m.numBank, v)
    ensures 0 <= VecToGranule(m, v) < Granules(m)
    ensures AddrToVec(m, VecToGranule(m, v) * m.granul) == Some(v)
  {
    var b5 := v.row * m.numCol + v.col;
    var b4 := b5 * m.numBank + v.bank;
    var b3 := b4 * m.numBankgroup + v.bankgroup;
    var b2 := b3 * m.numRank + v.rank;
    var b1 := b2 * m.numChannel + v.channel;
    var b0 := b1 * m.numCube + v.cube;
    DigitBound(v.row, v.col, m.numCol, m.numRow);
    DigitBound(b5, v.bank, m.numBank, m.numRow * m.numCol);
    DigitBound(b4, v.bankgroup, m.numBankgroup, m.numRow * m.numCol * m.numBank);
    DigitBound(b3, v.rank, m.numRank, m.numRow * m.numCol * m.numBank * m.numBankgroup);
    DigitBound(b2, v.channel, m.numChannel, m.numRow * m.numCol * m.numBank * m.numBankgroup * m.numRank);
    DigitBound(b1, v.cube, m.numCube, m.numRow * m.numCol * m.numBank * m.numBankgroup * m.numRank * m.numChannel);
    DivMultiple(b0, m.granul);
    MulMono(0, b0, m.granul);
    DivModUnique(b0, m.numCube, b1, v.cube);
    DivModUnique(b1, m.numChannel, b2, v.channel);
    DivModUnique(b2, m.numRank, b3, v.rank);
    DivModUnique(b3, m.numBankgroup, b4, v.bankgroup);
    DivModUnique(b4, m.numBank, b5, v.bank);
    DivModUnique(b5, m.numCol, v.row, v.col);
  }

  // ---- The LOGIC map -----------------------------------------------------------------------------

  lemma DivBelow(x: nat, n: nat, bound: nat)
    requires n >= 1 && x < bound * n
    ensures x / n < bound
  {}

  lemma LogicInRange(m: MemoryConfig, a0: nat)
    requires ValidConfig(m) && a0 < LogicGranules(m)
    ensures a0 / m.numLogicCube / m.numChannel / m.numBankgroup / 2 / m.numCol / m.numRow / 2 < m.numRank
  {
    var p := LogicUpperGranules(m);
    DivBelow(a0, m.numLogicCube, p);
    LogicUpperInRange(m, a0 / m.numLogicCube);
  }

  lemma LogicUpperInRange(m: MemoryConfig, a1: nat)
    requires ValidConfig(m) && a1 < LogicUpperGranules(m)
    ensures a1 / m.numChannel / m.numBankgroup / 2 / m.numCol / m.numRow / 2 < m.numRank
  {
    var p6: nat := m.numRank * 2;
    var p5: nat := p6 * m.numRow;
    var p4: nat := p5 * m.numCol;
    var p2: nat := p4 * 2 * m.numBankgroup;
    DivBelow(a1, m.numChannel, p2);
    var a2 := a1 / m.numChannel;
    DivBelow(a2, m.numBankgroup, p4 * 2);
    RowsInRange(a2 / m.numBankgroup / 2, m.numCol, m.numRow, m.numRank, p4);
  }

  lemma RowsInRange(a4: nat, cols: nat, rows: nat, ranks: nat, bound: nat)
    requires cols >= 1 && rows >= 1 && bound == ranks * 2 * rows * cols && a4 < bound
    ensures a4 / cols / rows / 2 < ranks
  {
    DivBelow(a4, cols, ranks * 2 * rows);
    DivBelow(a4 / cols, rows, ranks * 2);
  }

  /** Decoding then encoding, for every address below the LOGIC capacity: the granule's quotient by
      numLogicCube comes back scaled by numCube. */
  lemma DecodeLogic(m: MemoryConfig, address: nat)
    requires ValidConfig(m) && address / m.granul < LogicGranules(m)
    ensures var v, q := AddrToVecLogic(m, address), address / m.granul;
      && InBox(m, m.numLogicCube, 4, v)
      && LogicUpper(m, v) == q / m.numLogicCube && v.cube == q % m.numLogicCube
  {
    LogicInRange(m, address / m.granul);
    var a0 := address / m.granul;
    var a1 := a0 / m.numLogicCube;        Peel(a0, m.numLogicCube);
    var a2 := a1 / m.numChannel;          Peel(a1, m.numChannel);
    var a3 := a2 / m.numBankgroup;        Peel(a2, m.numBankgroup);
    var a4 := a3 / 2;                     Peel(a3, 2);
    var a5 := a4 / m.numCol;              Peel(a4, m.numCol);
    var a6 := a5 / m.numRow;              Peel(a5, m.numRow);
    var a7 := a6 / 2;                     Peel(a6, 2);
    DivModUnique(a7, m.numRank, 0, a7);
    DivModUnique(a6 % 2 * 2 + a3 % 2, 2, a6 % 2, a3 % 2);
  }

  /** The granule whose digits are v. */
  function LogicGranule(m: MemoryConfig, v: AddrVec): int { LogicUpper(m, v) * m.numLogicCube + v.cube }

  /** Decoding finds every digit, and the rank modulo the rank count. */
  lemma DecodeGranule(m: MemoryConfig, v: AddrVec, address: nat)
    requires ValidConfig(m) && v.rank >= 0 && InBox(m, m.numLogicCube, 4, v.(rank := 0))
    requires address / m.granul == LogicGranule(m, v)
    ensures AddrToVecLogic(m, address) == v.(rank := v.rank % m.numRank)
  {
    var b6 := v.rank * 2 + v.bank / 2;
    var b5 := b6 * m.numRow + v.row;
    var b4 := b5 * m.numCol + v.col;
    var b3 := b4 * 2 + v.bank % 2;
    var b2 := b3 * m.numBankgroup + v.bankgroup;
    var b1 := b2 * m.numChannel + v.channel;
    var b0 := b1 * m.numLogicCube + v.cube;
    MulMono(0, b6, m.numRow);
    MulMono(0, b5, m.numCol);
    MulMono(0, b3, m.numBankgroup);
    MulMono(0, b2, m.numChannel);
    DivModUnique(b0, m.numLogicCube, b1, v.cube);
    DivModUnique(b1, m.numChannel, b2, v.channel);
    DivModUnique(b2, m.numBankgroup, b3, v.bankgroup);
    DivModUnique(b3, 2, b4, v.bank % 2);
    DivModUnique(b4, m.numCol, b5, v.col);
    DivModUnique(b5, m.numRow, b6, v.row);
    DivModUnique(b6, 2, v.rank, v.bank / 2);
  }

  lemma GranuleInRange(m: MemoryConfig, v: AddrVec)
    requires ValidConfig(m) && InBox(m, m.numLogicCube, 4, v)
    ensures 0 <= LogicGranule(m, v) < LogicGranules(m)
  {
    var b6 := v.rank * 2 + v.bank / 2;
    var b5 := b6 * m.numRow + v.row;
    var b4 := b5 * m.numCol + v.col;
    var b3 := b4 * 2 + v.bank % 2;
    var b2 := b3 * m.numBankgroup + v.bankgroup;
    var b1 := b2 * m.numChannel + v.channel;
    DigitBound(v.rank, v.bank / 2, 2, m.numRank);
    DigitBound(b6, v.row, m.numRow, m.numRank * 2);
    DigitBound(b5, v.col, m.numCol, m.numRank * 2 * m.numRow);
    DigitBound(b4, v.bank % 2, 2, m.numRank * 2 * m.numRow * m.numCol);
    DigitBound(b3, v.bankgroup, m.numBankgroup, m.numRank * 2 * m.numRow * m.numCol * 2);
    DigitBound(b2, v.channel, m.numChannel, m.numRank * 2 * m.numRow * m.numCol * 2 * m.numBankgroup);
    DigitBound(b1, v.cube, m.numLogicCube, LogicUpperGranules(m));
  }

  /** Encoding then decoding is the identity on the box, when the two cube counts agree. */
  lemma EncodeLogic(m: MemoryConfig, v: AddrVec)
    requires ValidConfig(m) && m.numCube == m.numLogicCube && InBox(m, m.numLogicCube, 4, v)
    ensures 0 <= VecToAddrLogic(m, v) / m.granul < LogicGranules(m) && VecToAddrLogic(m, v) >= 0
    ensures AddrToVecLogic(m, VecToAddrLogic(m, v)) == v
  {
    var b := LogicGranule(m, v);
    GranuleInRange(m, v);
    DivMultiple(b, m.granul);
    MulMono(0, b, m.granul);
    DecodeGranule(m, v, b * m.granul);
    DivModUnique(v.rank, m.numRank, 0, v.rank);
  }

  /** Each address below the LOGIC capacity comes back rounded down to its granule. */
  ghost predicate LogicRoundTrips(m: MemoryConfig)
    requires ValidConfig(m)
  {
    forall a: nat :: a / m.granul < LogicGranules(m) ==>
      VecToAddrLogic(m, AddrToVecLogic(m, a)) == a / m.granul * m.granul
  }

  /** The LOGIC round trip holds exactly when the two cube counts agree. */
  lemma LogicRoundTripIff(m: MemoryConfig)
    requires ValidConfig(m)
    ensures LogicRoundTrips(m) <==> m.numCube == m.numLogicCube
  {
    if m.numCube == m.numLogicCube {
      forall a: nat | a / m.granul < LogicGranules(m)
        ensures VecToAddrLogic(m, AddrToVecLogic(m, a)) == a / m.granul * m.granul
      {
        DecodeLogic(m, a);
        Peel(a / m.granul, m.numCube);
      }
    } else {
      SecondRowOfCubes(m);
    }
  }

  /** The first granule of the second row of cubes is misplaced unless the cube counts agree. */
  lemma SecondRowOfCubes(m: MemoryConfig)
    requires ValidConfig(m) && m.numCube != m.numLogicCube
    ensures var a := m.numLogicCube * m.granul;
      a / m.granul < LogicGranules(m) && VecToAddrLogic(m, AddrToVecLogic(m, a)) != a / m.granul * m.granul
  {
    var n, g := m.numLogicCube, m.granul;
    DivMultiple(n, g);
    assert n < LogicGranules(m) by {
      AtLeastFour(m);
      MulMono(2, LogicUpperGranules(m), n);
    }
    DivModUnique(n, n, 1, 0);
    DecodeLogic(m, n * g);
    EncodeOneZero(m, AddrToVecLogic(m, n * g));
    MulInjective(m.numCube, n, g);
  }

  lemma EncodeOneZero(m: MemoryConfig, v: AddrVec)
    requires LogicUpper(m, v) == 1 && v.cube == 0
    ensures VecToAddrLogic(m, v) == m.numCube * m.granul
  {}

  lemma AtLeastFour(m: MemoryConfig)
    requires ValidConfig(m)
    ensures LogicUpperGranules(m) >= 4
  {}

  /** With equal cube counts and four banks the two maps cover the same coordinates. */
  lemma SameBox(m: MemoryConfig)
    requires ValidConfig(m) && m.numCube == m.numLogicCube && m.numBank == 4
    ensures Granules(m) == LogicGranules(m)
    ensures forall v :: InBox(m, m.numCube, m.numBank, v) <==> InBox(m, m.numLogicCube, 4, v)
  {}

  // ---- Aliases of the LOGIC map -------------------------------------------------------------------

  /** One digit below a number that grows by c * p. */
  lemma Carry(x: int, c: int, p: int, n: int, lo: int)
    ensures (x + c * p) * n + lo == x * n + lo + c * (p * n)
  {}

  /** Counting the rank on by c times the rank count moves the granule by c times the LOGIC capacity. */
  lemma RankCarries(m: MemoryConfig, v: AddrVec, c: int)
    ensures LogicGranule(m, v.(rank := v.rank + c * m.numRank)) == LogicGranule(m, v) + c * LogicGranules(m)
  {
    var p6 := m.numRank * 2;
    var p5 := p6 * m.numRow;
    var p4 := p5 * m.numCol;
    var p3 := p4 * 2;
    var p2 := p3 * m.numBankgroup;
    var b6 := v.rank * 2 + v.bank / 2;            Carry(v.rank, c, m.numRank, 2, v.bank / 2);
    var b5 := b6 * m.numRow + v.row;              Carry(b6, c, p6, m.numRow, v.row);
    var b4 := b5 * m.numCol + v.col;              Carry(b5, c, p5, m.numCol, v.col);
    var b3 := b4 * 2 + v.bank % 2;                Carry(b4, c, p4, 2, v.bank % 2);
    var b2 := b3 * m.numBankgroup + v.bankgroup;  Carry(b3, c, p3, m.numBankgroup, v.bankgroup);
    var b1 := b2 * m.numChannel + v.channel;      Carry(b2, c, p2, m.numChannel, v.channel);
    Carry(b1, c, p2 * m.numChannel, m.numLogicCube, v.cube);
  }

  /** Whole multiples of the LOGIC capacity leave every coordinate as it is, the rank included: the decoder
      takes the rank modulo the rank count before it checks it. */
  lemma LogicWraps(m: MemoryConfig, a: nat, b: nat, c: nat)
    requires ValidConfig(m) && a / m.granul < LogicGranules(m) && b / m.granul == a / m.granul + c * LogicGranules(m)
    ensures AddrToVecLogic(m, a) == AddrToVecLogic(m, b)
  {
    var v := AddrToVecLogic(m, a);
    DecodeLogic(m, a);
    Peel(a / m.granul, m.numLogicCube);
    RankCarries(m, v, c);
    MulMono(0, c, m.numRank);
    DecodeGranule(m, v.(rank := v.rank + c * m.numRank), b);
    DivModUnique(v.rank + c * m.numRank, m.numRank, c, v.rank);
  }

  /** Two addresses get the same LOGIC coordinates exactly when their granules agree modulo the capacity. */
  lemma LogicAliasIff(m: MemoryConfig, a: nat, b: nat)
    requires ValidConfig(m)
    ensures LogicGranules(m) >= 1
    ensures AddrToVecLogic(m, a) == AddrToVecLogic(m, b) <==>
      a / m.granul % LogicGranules(m) == b / m.granul % LogicGranules(m)
  {
    AtLeastFour(m);
    MulMono(4, LogicUpperGranules(m), m.numLogicCube);
    var x := Wrapped(m, a);
    var y := Wrapped(m, b);
    DecodeLogic(m, x);
    DecodeLogic(m, y);
    Peel(x / m.granul, m.numLogicCube);
    Peel(y / m.granul, m.numLogicCube);
  }

  /** The address below the LOGIC capacity with the same coordinates. */
  lemma Wrapped(m: MemoryConfig, a: nat) returns (x: nat)
    requires ValidConfig(m) && LogicGranules(m) >= 1
    ensures x / m.granul == a / m.granul % LogicGranules(m) < LogicGranules(m)
    ensures AddrToVecLogic(m, x) == AddrToVecLogic(m, a)
  {
    var q, g := a / m.granul, LogicGranules(m);
    MulMono(0, q % g, m.granul);
    x := q % g * m.granul;
    DivMultiple(q % g, m.granul);
    Peel(q, g);
    assert q == q % g + q / g * g;
    LogicWraps(m, x, a, q / g);
  }

  // ---- The vector handed to the DRAM simulator ---------------------------------------------------

  /** getAddrVec: cube and channel are merged into one index and split by parity. */
  function RamulatorVec(m: MemoryConfig, v: AddrVec): seq<int> {
    var channel := m.numChannel * v.cube + v.channel;
    [channel / 2, channel % 2, v.rank, v.bankgroup, v.bank, v.row, v.col]
  }

  lemma RamulatorVecInjective(m: MemoryConfig, v: AddrVec, w: AddrVec, cubes: nat, banks: nat)
    requires ValidConfig(m) && InBox(m, cubes, banks, v) && InBox(m, cubes, banks, w)
    requires RamulatorVec(m, v) == RamulatorVec(m, w)
    ensures v == w
  {
    var a, b := RamulatorVec(m, v), RamulatorVec(m, w);
    assert a[0] == b[0] && a[1] == b[1] && a[2] == b[2] && a[3] == b[3] && a[4] == b[4] && a[5] == b[5] && a[6] == b[6];
    var x := m.numChannel * v.cube + v.channel;
    DivModUnique(x, m.numChannel, v.cube, v.channel);
    DivModUnique(x, m.numChannel, w.cube, w.channel);
  }
}
