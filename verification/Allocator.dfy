/** The bump allocator over the address map. Starts are byte addresses and need not be granule-aligned. */
module Allocator {
  import opened SimTypes
  import opened Arith
  import opened AddressMap

  datatype Tag = Act | Cache | Persistent
  datatype MemoryMap = AllChannel | CubeChannel | Channel

  /** A byte range that some tensor was given for good. */
  datatype Placement = Placement(address: nat, size: nat)

  class MemoryObject {
    const address: nat
    var size: nat
    var numBundle: nat
    const cfg: MemoryConfig

    constructor (address: nat, size: nat, cfg: MemoryConfig)
      requires ValidConfig(cfg)
      ensures this.address == address && this.cfg == cfg && this.size == size && numBundle == size / cfg.granul
    {
      this.address, this.size, this.cfg := address, size, cfg;
      numBundle := size / cfg.granul;
    }

    method SetSize(newSize: nat)
      requires ValidConfig(cfg)
      modifies this
      ensures size == newSize && numBundle == newSize / cfg.granul
    {
      size := newSize;
      numBundle := size / cfg.granul;
    }

    /** The DRAM vector of one bundle, by the map of the processor that asks; None is the normal map's abort. */
    function GetAddrVec(bundle: nat, logic: bool): Option<seq<int>>
      requires ValidConfig(cfg)
    {
      BundleVector(cfg, address, bundle, logic)
    }
  }

  class MMapController {
    const cfg: MemoryConfig
    var startNormal: nat
    var startLogic: nat
    /** The permanent placements in all channels, in allocation order. */
    ghost var placed: seq<Placement>

    ghost predicate Valid()
      reads this
    {
      ValidConfig(cfg) && Stacked(placed, startNormal)
    }

    constructor (cfg: MemoryConfig)
      requires ValidConfig(cfg)
      ensures Valid() && this.cfg == cfg && placed == [] && startNormal == startLogic == 0
    {
      this.cfg := cfg;
      startNormal, startLogic, placed := 0, 0, [];
    }

    /** "act" and "cache" tensors all start at 0 and reserve nothing; any other tensor gets the next bytes. */
    method SetNormal(tag: Tag, size: nat) returns (obj: MemoryObject)
      requires Valid()
      modifies this
      ensures Valid() && fresh(obj) && obj.cfg == cfg && startLogic == old(startLogic)
      ensures obj.size == size && obj.numBundle == size / cfg.granul
      ensures tag != Persistent ==> obj.address == 0 && placed == old(placed) && startNormal == old(startNormal)
      ensures tag == Persistent ==>
                obj.address == old(startNormal) && startNormal == old(startNormal) + size &&
                placed == old(placed) + [Placement(obj.address, size)]
    {
      var startAddress := startNormal;
      if tag == Persistent {
        startNormal := startNormal + size;
        placed := placed + [Placement(startAddress, size)];
      } else {
        startAddress := 0;
      }
      obj := new MemoryObject(startAddress, size, cfg);
    }

    method SetLogic(size: nat) returns (obj: MemoryObject)
      requires Valid()
      modifies this
      ensures Valid() && fresh(obj) && obj.cfg == cfg && placed == old(placed) && startNormal == old(startNormal)
      ensures obj.address == old(startLogic) && obj.size == size && startLogic == old(startLogic) + size
    {
      obj := new MemoryObject(startLogic, size, cfg);
      startLogic := startLogic + size;
    }

    /** Only tensors mapped over all channels are placed. */
    method SetMemoryObject(mmap: MemoryMap, tag: Tag, size: nat) returns (obj: Option<MemoryObject>)
      requires Valid()
      modifies this
      ensures Valid() && (obj.Some? <==> mmap == AllChannel)
      ensures placed ==
        if mmap == AllChannel && tag == Persistent then old(placed) + [Placement(old(startNormal), size)]
        else old(placed)
      ensures obj.Some? ==>
        obj.value.cfg == cfg && obj.value.address == if tag == Persistent then old(startNormal) else 0
    {
      obj := None;
      if mmap == AllChannel {
        var o := SetNormal(tag, size);
        obj := Some(o);
      }
    }

    /** A whole model's tensors, one after the other. */
    method PlaceAll(tensors: seq<(Tag, nat)>)
      requires Valid()
      modifies this
      ensures Valid() && placed == old(placed) + Persistents(tensors, old(startNormal))
    {
      for i := 0 to |tensors|
        invariant Valid() && placed == old(placed) + Persistents(tensors[..i], old(startNormal))
        invariant startNormal == old(startNormal) + PersistentBytes(tensors[..i])
      {
        assert tensors[..i + 1][..i] == tensors[..i];
        var o := SetNormal(tensors[i].0, tensors[i].1);
      }
      assert tensors[..|tensors|] == tensors;
    }
  }

  function PersistentBytes(tensors: seq<(Tag, nat)>): nat {
    if tensors == [] then 0 else
    var last := tensors[|tensors| - 1];
    PersistentBytes(tensors[..|tensors| - 1]) + if last.0 == Persistent then last.1 else 0
  }

  /** The placements that a list of tensors gets from a given start. */
  function Persistents(tensors: seq<(Tag, nat)>, start: nat): seq<Placement> {
    if tensors == [] then [] else
    var n := |tensors| - 1;
    Persistents(tensors[..n], start) +
    if tensors[n].0 == Persistent then [Placement(start + PersistentBytes(tensors[..n]), tensors[n].1)] else []
  }

  /** Byte ranges in order, without overlap, below top. */
  ghost predicate Stacked(placed: seq<Placement>, top: nat) {
    && (forall i, j :: 0 <= i < j < |placed| ==> placed[i].address + placed[i].size <= placed[j].address)
    && (forall i :: 0 <= i < |placed| ==> placed[i].address + placed[i].size <= top)
  }

  /** getAddrVec: the coordinates of bundle b of a tensor that starts at p.address. */
  function BundleVec(m: MemoryConfig, p: Placement, b: nat): Option<AddrVec>
    requires ValidConfig(m)
  {
    MulMono(0, b, m.granul);
    AddrToVec(m, p.address + b * m.granul)
  }

  /** getAddrVecLOGIC. */
  function LogicBundleVec(m: MemoryConfig, p: Placement, b: nat): AddrVec
    requires ValidConfig(m)
  {
    MulMono(0, b, m.granul);
    AddrToVecLogic(m, p.address + b * m.granul)
  }

  function BundleVector(m: MemoryConfig, address: nat, b: nat, logic: bool): Option<seq<int>>
    requires ValidConfig(m)
  {
    var p := Placement(address, 0);
    if logic then Some(RamulatorVec(m, LogicBundleVec(m, p, b))) else
    match BundleVec(m, p, b) case None => None case Some(v) => Some(RamulatorVec(m, v))
  }

  /** Bundles sit at consecutive granules from the one that holds the start. */
  lemma BundleGranule(m: MemoryConfig, address: nat, b: nat)
    requires ValidConfig(m)
    ensures (address + b * m.granul) / m.granul == address / m.granul + b
  {
    var g := m.granul;
    Peel(address, g);
    assert (address / g + b) * g + address % g == address + b * g;
    DivModUnique(address + b * g, g, address / g + b, address % g);
  }

  /** Granule floors are superadditive: a whole number of bundles fits before the next start. */
  lemma FloorSuperadditive(start: nat, size: nat, next: nat, g: nat)
    requires g >= 1 && start + size <= next
    ensures start / g + size / g <= next / g
  {
    Peel(start, g);
    Peel(size, g);
    Peel(next, g);
    var low := start / g + size / g;
    assert low * g <= next;
    if low > next / g { MulMono(next / g + 1, low, g); }
  }

  /** Main result: no two bundles of distinct permanent tensors get the same vector, however the sizes
      straddle granules. */
  lemma BundlesNeverCollide(m: MemoryConfig, placed: seq<Placement>, top: nat, i: nat, j: nat, bi: nat, bj: nat)
    requires ValidConfig(m) && Stacked(placed, top)
    requires i < |placed| && j < |placed| && i != j
    requires bi < placed[i].size / m.granul && bj < placed[j].size / m.granul
    ensures var v, w := BundleVec(m, placed[i], bi), BundleVec(m, placed[j], bj);
      v.Some? && w.Some? ==> RamulatorVec(m, v.value) != RamulatorVec(m, w.value)
  {
    if i > j {
      BundlesNeverCollide(m, placed, top, j, i, bj, bi);
    } else {
      var p, q := placed[i], placed[j];
      assert p.address + p.size <= q.address;
      BundleGranule(m, p.address, bi);
      BundleGranule(m, q.address, bj);
      FloorSuperadditive(p.address, p.size, q.address, m.granul);
      MulMono(0, bi, m.granul);
      MulMono(0, bj, m.granul);
      DecodeNormal(m, p.address + bi * m.granul);
      DecodeNormal(m, q.address + bj * m.granul);
      var v, w := BundleVec(m, p, bi), BundleVec(m, q, bj);
      if v.Some? && w.Some? && RamulatorVec(m, v.value) == RamulatorVec(m, w.value) {
        assert VecToGranule(m, v.value) < VecToGranule(m, w.value);
        RamulatorVecInjective(m, v.value, w.value, m.numCube, m.numBank);
      }
    }
  }

  /** Below the capacity every bundle has coordinates. */
  lemma BundlesDecode(m: MemoryConfig, placed: seq<Placement>, top: nat, i: nat, b: nat)
    requires ValidConfig(m) && Stacked(placed, top) && top <= Granules(m) * m.granul
    requires i < |placed| && b < placed[i].size / m.granul
    ensures BundleVec(m, placed[i], b).Some?
  {
    var x := placed[i].address + b * m.granul;
    BundleFits(placed[i].size, b, m.granul);
    DivBelow(x, m.granul, Granules(m));
    DecodeNormal(m, x);
  }

  lemma BundleFits(size: nat, b: nat, g: nat)
    requires g >= 1 && b < size / g
    ensures 0 <= b * g < size
  {}

  // ---- The LOGIC map on the same placements ------------------------------------------------------

  /** Bundle bi of tensor i and bundle bj of tensor j, of distinct tensors stacked below top, share a LOGIC vector. */
  ghost predicate LogicCollision(m: MemoryConfig, top: nat, placed: seq<Placement>, i: nat, j: nat, bi: nat, bj: nat)
    requires ValidConfig(m)
  {
    && Stacked(placed, top) && i < j < |placed|
    && bi < placed[i].size / m.granul && bj < placed[j].size / m.granul
    && RamulatorVec(m, LogicBundleVec(m, placed[i], bi)) == RamulatorVec(m, LogicBundleVec(m, placed[j], bj))
  }

  /** A whole bundle lies below the granules that its tensor's end reaches. */
  lemma BundleBelow(m: MemoryConfig, p: Placement, b: nat, top: nat)
    requires ValidConfig(m) && b < p.size / m.granul && p.address + p.size <= top
    ensures p.address + b * m.granul >= 0
    ensures (p.address + b * m.granul) / m.granul == p.address / m.granul + b < top / m.granul
  {
    MulMono(0, b, m.granul);
    BundleGranule(m, p.address, b);
    FloorSuperadditive(p.address, p.size, top, m.granul);
  }

  lemma LogicVectorInjective(m: MemoryConfig, a: nat, b: nat)
    requires ValidConfig(m) && a / m.granul < LogicGranules(m) && b / m.granul < LogicGranules(m)
    ensures RamulatorVec(m, AddrToVecLogic(m, a)) == RamulatorVec(m, AddrToVecLogic(m, b)) ==>
      a / m.granul == b / m.granul
  {
    var v, w := AddrToVecLogic(m, a), AddrToVecLogic(m, b);
    if RamulatorVec(m, v) == RamulatorVec(m, w) {
      DecodeLogic(m, a);
      DecodeLogic(m, b);
      RamulatorVecInjective(m, v, w, m.numLogicCube, 4);
      LogicAliasIff(m, a, b);
    }
  }

  /** Below the LOGIC capacity the LOGIC map keeps distinct tensors apart too. */
  lemma LogicBundlesNeverCollide(m: MemoryConfig, top: nat, placed: seq<Placement>, i: nat, j: nat, bi: nat, bj: nat)
    requires ValidConfig(m) && top / m.granul <= LogicGranules(m)
    ensures !LogicCollision(m, top, placed, i, j, bi, bj)
  {
    if LogicCollision(m, top, placed, i, j, bi, bj) {
      var p, q := placed[i], placed[j];
      BundleBelow(m, p, bi, top);
      BundleBelow(m, q, bj, top);
      FloorSuperadditive(p.address, p.size, q.address, m.granul);
      LogicVectorInjective(m, p.address + bi * m.granul, q.address + bj * m.granul);
    }
  }

  /** The first granule beyond the LOGIC capacity looks like the first of all. */
  lemma FirstAlias(m: MemoryConfig, full: nat)
    requires ValidConfig(m) && full / m.granul == LogicGranules(m)
    ensures LogicBundleVec(m, Placement(0, full), 0) == LogicBundleVec(m, Placement(full, m.granul), 0)
  {
    LogicWraps(m, 0, full, 1);
  }

  lemma RoomForOneMore(n: nat, g: nat, top: nat)
    requires g >= 1 && top / g > n
    ensures 0 <= n * g && n * g + g <= top && n * g / g == n
  {
    DivMultiple(n, g);
    Peel(top, g);
    MulMono(n + 1, top / g, g);
    MulMono(0, n, g);
  }

  /** A tensor that fills the LOGIC capacity, and one granule behind it: their first bundles collide. */
  lemma LogicBundlesAlias(m: MemoryConfig, top: nat)
    requires ValidConfig(m) && top / m.granul > LogicGranules(m)
    ensures LogicGranules(m) * m.granul >= 0
    ensures var full := LogicGranules(m) * m.granul;
      LogicCollision(m, top, [Placement(0, full), Placement(full, m.granul)], 0, 1, 0, 0)
  {
    LogicAliasIff(m, 0, 0);
    RoomForOneMore(LogicGranules(m), m.granul, top);
    var full := LogicGranules(m) * m.granul;
    FirstAlias(m, full);
    var placed := [Placement(0, full), Placement(full, m.granul)];
    assert Stacked(placed, top);
  }

  /** The LOGIC map keeps every stack of tensors below top apart exactly when top does not exceed its capacity.
      Beyond it nothing aborts. */
  lemma LogicNeverCollidesIff(m: MemoryConfig, top: nat)
    requires ValidConfig(m)
    ensures (forall placed, i, j, bi, bj :: !LogicCollision(m, top, placed, i, j, bi, bj))
      <==> top / m.granul <= LogicGranules(m)
  {
    if top / m.granul <= LogicGranules(m) {
      forall placed, i, j, bi, bj ensures !LogicCollision(m, top, placed, i, j, bi, bj) {
        LogicBundlesNeverCollide(m, top, placed, i, j, bi, bj);
      }
    } else {
      LogicBundlesAlias(m, top);
    }
  }

  /** Two memory objects that hold distinct placements of one stack never name the same DRAM vector, on the
      normal map, and on the LOGIC map when the stack stays below its capacity. */
  lemma ObjectsNeverCollide(m: MemoryConfig, placed: seq<Placement>, top: nat, i: nat, j: nat,
                            a: MemoryObject, b: MemoryObject, bi: nat, bj: nat, logic: bool)
    requires ValidConfig(m) && Stacked(placed, top) && i < j < |placed| && a.cfg == m && b.cfg == m
    requires placed[i] == Placement(a.address, a.size) && placed[j] == Placement(b.address, b.size)
    requires bi < a.size / m.granul && bj < b.size / m.granul
    requires logic ==> top / m.granul <= LogicGranules(m)
    ensures a.GetAddrVec(bi, logic).Some? ==> a.GetAddrVec(bi, logic) != b.GetAddrVec(bj, logic)
  {
    if logic {
      LogicBundlesNeverCollide(m, top, placed, i, j, bi, bj);
    } else {
      BundlesNeverCollide(m, placed, top, i, j, bi, bj);
    }
  }
}
