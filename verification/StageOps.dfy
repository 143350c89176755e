/** The ops of a decoder stage that add to the clocks themselves: layer norm, residual add, all-reduce and expert
    exchange. */
module StageOps {
  import opened Arith
  import opened Hardware
  import opened FlashTiming
  import opened Tagging
  import OpTiming

  // ---- Elementwise ops ---------------------------------------------------------------------------

  /** m tokens of width k. */
  datatype Elementwise =
    | LayerNorm(m: real, k: real, precision: real)
    | Residual(m: real, k: real, precision: real)

  predicate ValidElementwise(e: Elementwise) { e.m >= 0.0 && e.k >= 0.0 && e.precision >= 0.0 }

  predicate NoElements(e: Elementwise) { e.m == 0.0 || e.k == 0.0 || e.precision == 0.0 }

  function ElementFlops(e: Elementwise): real { if e.LayerNorm? then 4.0 * e.m * e.k else e.m * e.k }

  function ElementBytes(e: Elementwise): real {
    (if e.LayerNorm? then 2.0 * e.m * e.k else 3.0 * e.m * e.k) * e.precision
  }

  /** The norm's weights, which no token count scales. */
  function NormBytes(e: Elementwise): real { if e.LayerNorm? then e.k * e.precision else 0.0 }

  function NormReadNs(s: SystemConfig, e: Elementwise): real
    requires ValidHardware(s)
  {
    if e.LayerNorm?
    then OpTiming.WeightReadNs(s, OpTiming.Linear(0.0, e.k, 1.0, e.precision, 1, false, false))
    else 0.0
  }

  function ElementComputeNs(s: SystemConfig, e: Elementwise): real
    requires ValidHardware(s)
  {
    TransferNs(ElementFlops(e), s.computePeakFlops)
  }

  function ElementMemoryNs(s: SystemConfig, e: Elementwise): real
    requires ValidHardware(s)
  {
    if HasScarceTier(s) then Max(NormReadNs(s, e), ActNs(s, ElementBytes(e)))
    else TransferNs(ElementBytes(e) + NormBytes(e), s.memoryBandwidth)
  }

  function ElementNs(s: SystemConfig, e: Elementwise): real
    requires ValidHardware(s)
  {
    if NoElements(e) then 0.0 else Max(ElementComputeNs(s, e), ElementMemoryNs(s, e))
  }

  /** LayerNorm::forward: all of the time is tagged, the weight read included. */
  method LayerNormForward(s: SystemConfig, m: real, k: real, precision: real) returns (st: Status)
    requires ValidHardware(s) && m >= 0.0 && k >= 0.0 && precision >= 0.0
    ensures var t := ElementNs(s, LayerNorm(m, k, precision)); st == Status(t, t)
  {
    var e := LayerNorm(m, k, precision);
    if m == 0.0 || k == 0.0 || precision == 0.0 { return Status(0.0, 0.0); }
    NormForms(m, k, precision);
    var flops, bytes, activations := 4.0 * m * k, (2.0 * m * k + k) * precision, 2.0 * m * k * precision;
    var memory := if HasScarceTier(s) then Max(NormReadNs(s, e), ActNs(s, activations))
                  else TransferNs(bytes, s.memoryBandwidth);
    var total := Max(TransferNs(flops, s.computePeakFlops), memory);
    st := Status(total, total);
  }

  lemma NormForms(m: real, k: real, precision: real)
    ensures var e := LayerNorm(m, k, precision);
      && ElementFlops(e) == 4.0 * m * k && ElementBytes(e) == 2.0 * m * k * precision
      && (2.0 * m * k + k) * precision == ElementBytes(e) + NormBytes(e)
  {}

  /** Residual::forward. */
  method ResidualForward(s: SystemConfig, m: real, k: real, precision: real) returns (st: Status)
    requires ValidHardware(s) && m >= 0.0 && k >= 0.0 && precision >= 0.0
    ensures var t := ElementNs(s, Residual(m, k, precision)); st == Status(t, t)
  {
    ghost var e := Residual(m, k, precision);
    if m == 0.0 || k == 0.0 || precision == 0.0 { return Status(0.0, 0.0); }
    var compute, bytes := TransferNs(m * k, s.computePeakFlops), 3.0 * m * k * precision;
    var memory;
    if HasScarceTier(s) {
      memory := ActNs(s, bytes);
      ResidualIsNonNegative(s, e);
    } else {
      memory := TransferNs(bytes, s.memoryBandwidth);
    }
    assert compute == ElementComputeNs(s, e) && memory == ElementMemoryNs(s, e);
    st := Status(Max(compute, memory), Max(compute, memory));
  }

  method ElementForward(s: SystemConfig, e: Elementwise) returns (st: Status)
    requires ValidHardware(s) && ValidElementwise(e)
    ensures st == Status(ElementNs(s, e), ElementNs(s, e))
  {
    match e
    case LayerNorm(m, k, precision) => st := LayerNormForward(s, m, k, precision);
    case Residual(m, k, precision) => st := ResidualForward(s, m, k, precision);
  }

  lemma ResidualIsNonNegative(s: SystemConfig, e: Elementwise)
    requires ValidHardware(s) && ValidElementwise(e)
    ensures ActNs(s, ElementBytes(e)) >= 0.0
  {}

  function MicroElement(e: Elementwise, pp: int): Elementwise
    requires pp >= 1
  {
    match e
    case LayerNorm(m, k, p) => LayerNorm(m / pp as real, k, p)
    case Residual(m, k, p) => Residual(m / pp as real, k, p)
  }

  lemma BytesNonNegative(e: Elementwise)
    requires ValidElementwise(e)
    ensures ElementFlops(e) >= 0.0 && ElementBytes(e) >= 0.0 && NormBytes(e) >= 0.0
    ensures !NoElements(e) && e.LayerNorm? ==> NormBytes(e) > 0.0
  {}

  lemma ElementScales(e: Elementwise, pp: int)
    requires pp >= 1
    ensures var i, q := MicroElement(e, pp), pp as real;
      && ElementFlops(i) == ElementFlops(e) / q && ElementBytes(i) == ElementBytes(e) / q
      && NormBytes(i) == NormBytes(e) && (NoElements(i) <==> NoElements(e))
  {}

  /** The weight read does not limit the microbatch: compute does, or on flash the activations do. */
  predicate NormStaysHidden(s: SystemConfig, e: Elementwise, pp: int)
    requires ValidHardware(s) && pp >= 1
  {
    var i := MicroElement(e, pp);
    e.Residual? || NoElements(e) ||
    if HasScarceTier(s) then NormReadNs(s, i) <= Max(ElementComputeNs(s, i), ActNs(s, ElementBytes(i)))
    else ElementMemoryNs(s, i) <= ElementComputeNs(s, i)
  }

  lemma MaxScales(a: real, b: real, q: real)
    requires q > 0.0
    ensures Max(a, b) / q == Max(a / q, b / q)
  {}

  /** A share of the larger of a fixed and a scaling time, against the larger of the fixed time and the share. */
  lemma FixedPart(fixed: real, share: real, q: real)
    requires fixed >= 0.0 && q > 1.0
    ensures Max(fixed / q, share) <= Max(fixed, share)
    ensures Max(fixed / q, share) == Max(fixed, share) <==> fixed <= share || fixed == 0.0
  {
    SmallerShare(fixed, q);
  }

  lemma SmallerShare(x: real, q: real)
    requires x >= 0.0 && q > 1.0
    ensures 0.0 <= x / q <= x && (x > 0.0 ==> x / q < x)
  {
    RDivMono(0.0, x, q);
    var y := x / q;
    assert y * q == x;
    RMulMono(1.0, q, y);
    if y > 0.0 { RMulStrict(1.0, q, y); }
  }

  /** An elementwise op keeps at most its microbatch time, and exactly that unless the norm's weights limit it. */
  lemma ElementBound(s: SystemConfig, e: Elementwise, pp: int)
    requires ValidHardware(s) && ValidElementwise(e) && pp > 1
    ensures ElementNs(s, e) / pp as real <= ElementNs(s, MicroElement(e, pp))
    ensures ElementNs(s, e) / pp as real == ElementNs(s, MicroElement(e, pp)) <==> NormStaysHidden(s, e, pp)
  {
    ElementScales(e, pp);
    BytesNonNegative(e);
    var i, q := MicroElement(e, pp), pp as real;
    if NoElements(e) { return; }
    OpTiming.TransferScales(ElementFlops(e), s.computePeakFlops, q);
    if HasScarceTier(s) {
      FlashElement(s, e, pp);
    } else {
      PlainElement(s, e, pp);
    }
  }

  lemma FlashElement(s: SystemConfig, e: Elementwise, pp: int)
    requires ValidHardware(s) && ValidElementwise(e) && pp > 1 && HasScarceTier(s) && !NoElements(e)
    ensures ElementNs(s, e) / pp as real <= ElementNs(s, MicroElement(e, pp))
    ensures ElementNs(s, e) / pp as real == ElementNs(s, MicroElement(e, pp)) <==> NormStaysHidden(s, e, pp)
  {
    ElementScales(e, pp);
    BytesNonNegative(e);
    var i, q := MicroElement(e, pp), pp as real;
    OpTiming.TransferScales(ElementFlops(e), s.computePeakFlops, q);
    OpTiming.TransferScales(ElementBytes(e), ActBandwidth(s.hbf), q);
    TransferMono(0.0, ElementBytes(i), ActBandwidth(s.hbf));
    var w, a, c := NormReadNs(s, e), ActNs(s, ElementBytes(e)), ElementComputeNs(s, e);
    assert NormReadNs(s, i) == w;
    NormReadNonNegative(s, e);
    MaxScales(w, a, q);
    MaxScales(c, Max(w, a), q);
    FixedPart(w, Max(c / q, a / q), q);
  }

  lemma NormReadNonNegative(s: SystemConfig, e: Elementwise)
    requires ValidHardware(s) && ValidElementwise(e)
    ensures NormReadNs(s, e) >= 0.0
  {}

  lemma PlainElement(s: SystemConfig, e: Elementwise, pp: int)
    requires ValidHardware(s) && ValidElementwise(e) && pp > 1 && !HasScarceTier(s) && !NoElements(e)
    ensures ElementNs(s, e) / pp as real <= ElementNs(s, MicroElement(e, pp))
    ensures ElementNs(s, e) / pp as real == ElementNs(s, MicroElement(e, pp)) <==> NormStaysHidden(s, e, pp)
  {
    ElementScales(e, pp);
    BytesNonNegative(e);
    var i, q := MicroElement(e, pp), pp as real;
    var bytes, fixed, bw, c := ElementBytes(e), NormBytes(e), s.memoryBandwidth, ElementComputeNs(s, e);
    OpTiming.TransferScales(ElementFlops(e), s.computePeakFlops, q);
    OpTiming.TransferScales(bytes + fixed, bw, q);
    MaxScales(c, TransferNs(bytes + fixed, bw), q);
    PlainShare(bytes, fixed, bw, q);
  }

  lemma PlainShare(bytes: real, fixed: real, bandwidth: real, q: real)
    requires bandwidth > 0.0 && q > 1.0 && fixed >= 0.0
    ensures TransferNs((bytes + fixed) / q, bandwidth) <= TransferNs(bytes / q + fixed, bandwidth)
    ensures fixed > 0.0 ==> TransferNs((bytes + fixed) / q, bandwidth) < TransferNs(bytes / q + fixed, bandwidth)
  {
    SmallerShare(fixed, q);
    assert (bytes + fixed) / q == bytes / q + fixed / q;
    TransferStrict((bytes + fixed) / q, bytes / q + fixed, bandwidth);
  }

  lemma TransferStrict(a: real, b: real, bandwidth: real)
    requires bandwidth > 0.0 && a <= b
    ensures TransferNs(a, bandwidth) <= TransferNs(b, bandwidth)
    ensures a < b ==> TransferNs(a, bandwidth) < TransferNs(b, bandwidth)
  {}

  // ---- All-reduce --------------------------------------------------------------------------------

  /** The links inside a node and between nodes. */
  datatype Network = Network(deviceBandwidth: real, deviceLatency: real, nodeBandwidth: real, nodeLatency: real)

  predicate ValidNetwork(net: Network) {
    net.deviceBandwidth > 0.0 && net.nodeBandwidth > 0.0 && net.deviceLatency >= 0.0 && net.nodeLatency >= 0.0
  }

  function CeilLog2(x: nat): (e: nat)
    requires x >= 1
    ensures x <= Power2(e) && (e > 0 ==> Power2(e - 1) < x)
  {
    if x == 1 then 0 else 1 + CeilLog2((x + 1) / 2)
  }

  function Power2(e: nat): nat { if e == 0 then 1 else 2 * Power2(e - 1) }

  /** One ring phase among x peers: a fixed latency, and a volume term that scales with the message. */
  function PhaseTerms(size: real, x: nat, bandwidth: real, latency: real): Status
    requires bandwidth > 0.0
  {
    if x <= 1 then Status(0.0, 0.0) else
    var volume := TransferNs(RingBytes(size, x), bandwidth);
    Status(HopLatency(x, latency) + volume, volume)
  }

  function RingBytes(size: real, x: nat): real
    requires x >= 1
  {
    (2 * (x - 1)) as real * (size / x as real)
  }

  function HopLatency(x: nat, latency: real): real
    requires x >= 1
  {
    (2 * CeilLog2(x)) as real * latency
  }

  function AllReduceStatus(net: Network, size: real, ranks: nat, nodes: nat): Status
    requires ValidNetwork(net) && nodes >= 1
  {
    if size == 0.0 then Status(0.0, 0.0) else
    var intra := PhaseTerms(size, ranks / nodes, net.deviceBandwidth, net.deviceLatency);
    var inter := PhaseTerms(size, nodes, net.nodeBandwidth, net.nodeLatency);
    Status(intra.total + inter.total, intra.dep + inter.dep)
  }

  lemma PhaseKeeps(size: real, x: nat, bandwidth: real, latency: real, pp: int)
    requires bandwidth > 0.0 && pp >= 1
    ensures Kept(PhaseTerms(size, x, bandwidth, latency), pp)
      == PhaseTerms(size / pp as real, x, bandwidth, latency).total
  {
    if x > 1 {
      RingShares(size, x, pp as real);
      OpTiming.TransferScales(RingBytes(size, x), bandwidth, pp as real);
      KeptIsShare(HopLatency(x, latency), TransferNs(RingBytes(size, x), bandwidth), pp);
    } else {
      assert 0.0 * (pp - 1) as real / pp as real == 0.0;
    }
  }

  lemma RingShares(size: real, x: nat, q: real)
    requires x >= 1 && q > 0.0
    ensures RingBytes(size / q, x) == RingBytes(size, x) / q
  {}

  /** An all-reduce keeps exactly the time of the microbatch's message: hop latencies in full, volume divided. */
  lemma AllReduceKeeps(net: Network, size: real, ranks: nat, nodes: nat, pp: int)
    requires ValidNetwork(net) && nodes >= 1 && pp >= 1
    ensures Kept(AllReduceStatus(net, size, ranks, nodes), pp)
         == AllReduceStatus(net, size / pp as real, ranks, nodes).total
  {
    assert size / pp as real == 0.0 <==> size == 0.0;
    PhaseKeeps(size, ranks / nodes, net.deviceBandwidth, net.deviceLatency, pp);
    PhaseKeeps(size, nodes, net.nodeBandwidth, net.nodeLatency, pp);
    KeptAdds(PhaseTerms(size, ranks / nodes, net.deviceBandwidth, net.deviceLatency),
             PhaseTerms(size, nodes, net.nodeBandwidth, net.nodeLatency), pp);
    assert 0.0 * (pp - 1) as real / pp as real == 0.0;
  }

  /** AllReduce::forward. */
  method AllReduceForward(net: Network, size: real, ranks: nat, nodes: nat) returns (st: Status)
    requires ValidNetwork(net) && nodes >= 1
    ensures st == AllReduceStatus(net, size, ranks, nodes)
  {
    if size == 0.0 { return Status(0.0, 0.0); }
    var peers := ranks / nodes;
    var intra := PhaseTerms(size, peers, net.deviceBandwidth, net.deviceLatency);
    var inter := PhaseTerms(size, nodes, net.nodeBandwidth, net.nodeLatency);
    var latency := (intra.total - intra.dep) + (inter.total - inter.dep);
    var volume := intra.dep + inter.dep;
    st := Status(latency + volume, volume);
  }

  // ---- Expert exchange ---------------------------------------------------------------------------

  /** Bytes that one leg moves inside the node and between nodes. */
  datatype Volumes = Volumes(intra: real, inter: real)

  predicate ValidVolumes(v: Volumes) { v.intra >= 0.0 && v.inter >= 0.0 }

  predicate NoVolume(v: Volumes) { v.intra == 0.0 && v.inter == 0.0 }

  function LinkStatus(bytes: real, bandwidth: real, latency: real): Status
    requires bandwidth > 0.0
  {
    if bytes > 0.0 then Status(latency + TransferNs(bytes, bandwidth), TransferNs(bytes, bandwidth))
    else Status(0.0, 0.0)
  }

  function Slower(a: Status, b: Status): Status { if a.total >= b.total then a else b }

  /** moeLinkTime: the slower link, with its own volume term. */
  function LegStatus(net: Network, v: Volumes): Status
    requires ValidNetwork(net)
  {
    Slower(LinkStatus(v.intra, net.deviceBandwidth, net.deviceLatency),
           LinkStatus(v.inter, net.nodeBandwidth, net.nodeLatency))
  }

  /** The slower leg; a device with nothing to send, or nothing to receive, is charged nothing. */
  function ExchangeStatus(net: Network, send: Volumes, receive: Volumes): Status
    requires ValidNetwork(net)
  {
    if NoVolume(send) || NoVolume(receive) then Status(0.0, 0.0)
    else Slower(LegStatus(net, send), LegStatus(net, receive))
  }

  /** MoEScatter::forward once the volumes are counted; MoEGather takes the legs in the other order. */
  method ExchangeForward(net: Network, send: Volumes, receive: Volumes) returns (st: Status)
    requires ValidNetwork(net)
    ensures st == ExchangeStatus(net, send, receive)
  {
    if NoVolume(send) { return Status(0.0, 0.0); }
    var sendLeg := LegStatus(net, send);
    if NoVolume(receive) { return Status(0.0, 0.0); }
    var receiveLeg := LegStatus(net, receive);
    var dep := if sendLeg.total >= receiveLeg.total then sendLeg.dep else receiveLeg.dep;
    st := Status(Max(sendLeg.total, receiveLeg.total), dep);
  }

  function MicroVolumes(v: Volumes, pp: int): Volumes
    requires pp >= 1
  {
    Volumes(v.intra / pp as real, v.inter / pp as real)
  }

  lemma LinkKeeps(bytes: real, bandwidth: real, latency: real, pp: int)
    requires bandwidth > 0.0 && bytes >= 0.0 && pp >= 1
    ensures Kept(LinkStatus(bytes, bandwidth, latency), pp) == LinkStatus(bytes / pp as real, bandwidth, latency).total
    ensures bytes / pp as real == 0.0 <==> bytes == 0.0
  {}

  /** The link that the exchange is charged for at the batch is the slowest of all four at the microbatch. */
  predicate SlowestLinkStays(net: Network, send: Volumes, receive: Volumes, pp: int)
    requires ValidNetwork(net) && pp >= 1
  {
    NoVolume(send) || NoVolume(receive) ||
    var kept := Kept(ExchangeStatus(net, send, receive), pp);
    && LinkStatus(send.intra / pp as real, net.deviceBandwidth, net.deviceLatency).total <= kept
    && LinkStatus(send.inter / pp as real, net.nodeBandwidth, net.nodeLatency).total <= kept
    && LinkStatus(receive.intra / pp as real, net.deviceBandwidth, net.deviceLatency).total <= kept
    && LinkStatus(receive.inter / pp as real, net.nodeBandwidth, net.nodeLatency).total <= kept
  }

  /** An exchange keeps at most the time of the microbatch's exchange, and exactly that when the slowest link stays
      the slowest. */
  lemma ExchangeBound(net: Network, send: Volumes, receive: Volumes, pp: int)
    requires ValidNetwork(net) && ValidVolumes(send) && ValidVolumes(receive) && pp >= 1
    ensures var kept, micro := Kept(ExchangeStatus(net, send, receive), pp),
                               ExchangeStatus(net, MicroVolumes(send, pp), MicroVolumes(receive, pp)).total;
      kept <= micro && (kept == micro <==> SlowestLinkStays(net, send, receive, pp))
  {
    LinkKeeps(send.intra, net.deviceBandwidth, net.deviceLatency, pp);
    LinkKeeps(send.inter, net.nodeBandwidth, net.nodeLatency, pp);
    LinkKeeps(receive.intra, net.deviceBandwidth, net.deviceLatency, pp);
    LinkKeeps(receive.inter, net.nodeBandwidth, net.nodeLatency, pp);
    assert 0.0 * (pp - 1) as real / pp as real == 0.0;
  }
}
