/** What the packets themselves carry: of a run of builds, and of the transmit loop. */
module PktgenPackets {
  import opened ModArith
  import opened Basics
  import opened PktgenFlows
  import opened PktgenFlowModes
  import opened PktgenHeaders
  import opened PktgenHeaderLaws
  import opened PktgenSetup
  import opened PktgenIn6
  import opened PktgenStack
  import opened PktgenSkb
  import opened PktgenFrame

  // ---- What the n-th build of a run, from 1, has to carry ----

  predicate PortsAre(c: Config, n: nat, d: Draws, p: Packet) {
    && PortIs(c.udpSrcMin, c.udpSrcMax, c.udpSrcRandom, n, d.udpSrc, p.udpSrc)
    && PortIs(c.udpDstMin, c.udpDstMax, c.udpDstRandom, n, d.udpDst, p.udpDst)
  }

  /** The addresses of the packet's own kind. */
  ghost predicate AddressesAre(c: Config, first: Headers, n: nat, d: Draws, p: Packet)
    requires n > 0
  {
    if c.ipv6 then
      && p.in6.src == first.in6.src
      && p.in6.dst == if c.minIn6 == UNSPECIFIED then first.in6.dst else DrawIn6(c.minIn6, c.maxIn6, d.daddr6)
    else
      && RangeIs(c.srcMin, c.srcMax, c.srcRandom, n, d.saddr, p.saddr)
      && DestinationIs(c, first, n, d, p.daddr)
  }

  /** Six bytes of destination, then six of source. */
  predicate MacsAre(c: Config, first: Headers, n: nat, d: Draws, p: Packet)
    requires n > 0 && |first.hh| == 14
  {
    && |p.addresses| == 12 && p.addresses[0] == first.hh[0] && p.addresses[6] == first.hh[6]
    && LowBytesAre(c.dstMac, c.dstMacCount, c.dstMacRandom, n, d.dstMac, first.hh[1..6], p.addresses[1..6])
    && LowBytesAre(c.srcMac, c.srcMacCount, c.srcMacRandom, n, d.srcMac, first.hh[7..12], p.addresses[7..12])
  }

  /** How many of the first n builds have made a packet. */
  function Packets(inputs: seq<BuildInput>, n: nat): nat
    requires n <= |inputs|
  {
    if n == 0 then 0 else Packets(inputs, n - 1) + if inputs[n - 1].gotSkb then 1 else 0
  }

  /** The identification of IPv4 counts packets; IPv6 has none. */
  predicate StampIs(first: Builder, inputs: seq<BuildInput>, n: nat, p: Packet)
    requires 0 < n <= |inputs|
  {
    && p.magic == 0xbe9be955 && p.sec == inputs[n - 1].sec && p.usec == inputs[n - 1].usec
    && (!first.cfg.ipv6 ==> p.ipId == (first.ipId + Packets(inputs, n - 1)) % TWO_16)
  }

  /** The size that build n asks for. */
  function SizeOf(c: Config, n: nat, draw: u32): nat {
    if c.minSize >= c.maxSize then c.minSize
    else if c.sizeRandom then c.minSize + draw % (c.maxSize - c.minSize)
    else c.minSize + n % (c.maxSize - c.minSize + 1)
  }

  /** The frame is as long as asked for, but not shorter than its headers. */
  predicate LengthIs(first: Builder, n: nat, a: BuildInput, p: Packet)
    requires 0 < first.maxFrags <= first.page
  {
    var size := SizeOf(first.cfg, n, a.draws.size);
    size < TWO_32
    && (FillsExactly(DataLen(size, first.cfg.ipv6, first.overhead), first.nfrags, first.page, first.maxFrags, a.gotPage)
        ==> p.len == Max(size, Smallest(first.cfg.ipv6, first.overhead)))
  }

  /** Everything that the packet of build n carries besides its stack. */
  ghost predicate Carries(first: Builder, inputs: seq<BuildInput>, n: nat, p: Packet)
    requires 0 < n <= |inputs| && Valid(first)
  {
    var c, a := first.cfg, inputs[n - 1];
    && PortsAre(c, n, a.draws, p) && AddressesAre(c, first.headers, n, a.draws, p)
    && MacsAre(c, first.headers, n, a.draws, p) && QueueIs(c, first.headers.queue, n, a.draws, p.queue)
    && StampIs(first, inputs, n, p) && LengthIs(first, n, a, p)
  }

  // ---- One build ----

  /** A packet has the addresses, ports and queue of the headers it was built from, each in
      its own field. */
  lemma FromHeaders(b: Builder, a: BuildInput, number: u32)
    requires Valid(b) && a.gotSkb
    ensures var (r, o) := FillPacket(b, a, number);
            var p, h := o.value, r.headers;
            && p.addresses == h.hh[..12] && p.saddr == h.saddr && p.daddr == h.table.daddr && p.in6 == h.in6
            && p.udpSrc == h.udpSrc && p.udpDst == h.udpDst && p.queue == h.queue
            && p.ipId == b.ipId && p.magic == PKTGEN_MAGIC && p.sec == a.sec && p.usec == a.usec
  {
  }

  /** The number a packet carries makes no difference to the headers. */
  lemma SameHeaders(b: Builder, a: BuildInput, number: u32)
    requires Valid(b)
    ensures FillPacket(b, a, number).0 == FillPacket(b, a, 0).0
  {
  }

  // ---- Runs of builds ----

  /** The headers of a run of builds that setup has started. */
  lemma HeadersOf(bs: seq<Builder>, inputs: seq<BuildInput>) returns (hs: seq<Headers>, draws: seq<Draws>)
    requires IsBuildRun(bs, inputs) && Started(bs[0].cfg, bs[0].headers)
    ensures FromStart(bs[0].cfg, hs, draws) && |hs| == |bs| && |draws| == |inputs|
    ensures forall k :: 0 <= k < |bs| ==> hs[k] == bs[k].headers
    ensures forall k :: 0 <= k < |inputs| ==> draws[k] == inputs[k].draws
  {
    BuildsRunHeaders(bs, inputs);
    hs := seq(|bs|, i requires 0 <= i < |bs| => bs[i].headers);
    draws := seq(|inputs|, i requires 0 <= i < |inputs| => inputs[i].draws);
  }

  /** Build n makes p, as packet `number`. */
  ghost predicate Makes(bs: seq<Builder>, inputs: seq<BuildInput>, n: nat, p: Packet) {
    && IsBuildRun(bs, inputs) && 0 < n <= |inputs|
    && FillPacket(bs[n - 1], inputs[n - 1], p.seqNum).1 == Some(p)
  }

  lemma MadeFrom(bs: seq<Builder>, inputs: seq<BuildInput>, n: nat, p: Packet)
    requires Makes(bs, inputs, n, p)
    ensures var h := bs[n].headers;
            && |h.hh| == 14 && p.addresses == h.hh[..12] && p.saddr == h.saddr && p.daddr == h.table.daddr
            && p.in6 == h.in6 && p.udpSrc == h.udpSrc && p.udpDst == h.udpDst && p.queue == h.queue
            && p.ipId == bs[n - 1].ipId && p.magic == PKTGEN_MAGIC
            && p.sec == inputs[n - 1].sec && p.usec == inputs[n - 1].usec
  {
    assert BuildAt(bs, inputs, n - 1);
    SameHeaders(bs[n - 1], inputs[n - 1], p.seqNum);
    FromHeaders(bs[n - 1], inputs[n - 1], p.seqNum);
  }

  lemma CarriesHeaders(bs: seq<Builder>, inputs: seq<BuildInput>, n: nat, p: Packet)
    requires Makes(bs, inputs, n, p) && Started(bs[0].cfg, bs[0].headers)
    ensures var c, d := bs[0].cfg, inputs[n - 1].draws;
            && PortsAre(c, n, d, p) && AddressesAre(c, bs[0].headers, n, d, p)
            && QueueIs(c, bs[0].headers.queue, n, d, p.queue)
  {
    var c := bs[0].cfg;
    var hs, draws := HeadersOf(bs, inputs);
    MadeFrom(bs, inputs, n, p);
    NthPortsAre(c, hs, draws, n);
    NthSourceAndSizeAre(c, hs, draws, n);
    NthQueueIs(c, hs, draws, n);
    if c.ipv6 {
      NthIn6Is(c, hs, draws, n);
    } else {
      NthDestinationIs(c, hs, draws, n);
    }
  }

  lemma AddressBytes(hh: seq<u8>)
    requires |hh| == 14
    ensures var a := hh[..12];
            |a| == 12 && a[0] == hh[0] && a[6] == hh[6] && a[1..6] == hh[1..6] && a[7..12] == hh[7..12]
  {
  }

  lemma CarriesMacs(bs: seq<Builder>, inputs: seq<BuildInput>, n: nat, p: Packet)
    requires Makes(bs, inputs, n, p) && Started(bs[0].cfg, bs[0].headers)
    ensures MacsAre(bs[0].cfg, bs[0].headers, n, inputs[n - 1].draws, p)
  {
    var c := bs[0].cfg;
    var hs, draws := HeadersOf(bs, inputs);
    MadeFrom(bs, inputs, n, p);
    NthMacsAre(c, hs, draws, n);
    KeptBytes(c, hs, draws, n);
    AddressBytes(hs[n].hh);
  }

  /** A packet of IPv4 takes one identification; a build that fails takes none. */
  lemma IpIdStep(b: Builder, a: BuildInput)
    requires Valid(b)
    ensures FillPacket(b, a, 0).0.ipId == if b.cfg.ipv6 || !a.gotSkb then b.ipId else (b.ipId + 1) % TWO_16
  {
  }

  lemma IpIdAt(bs: seq<Builder>, inputs: seq<BuildInput>, n: nat)
    requires IsBuildRun(bs, inputs) && n < |inputs|
    ensures bs[n + 1].ipId == if bs[0].cfg.ipv6 || !inputs[n].gotSkb then bs[n].ipId else (bs[n].ipId + 1) % TWO_16
  {
    BuildsKeepConfig(bs, inputs, n);
    assert BuildAt(bs, inputs, n);
    IpIdStep(bs[n], inputs[n]);
  }

  /** A 16-bit number that moves on with each packet made counts them. */
  lemma {:induction false} CountsPackets(ids: seq<u16>, inputs: seq<BuildInput>, n: nat)
    requires |ids| == |inputs| + 1 && n < |ids|
    requires forall k {:trigger inputs[k]} :: 0 <= k < |inputs| ==>
               ids[k + 1] == if inputs[k].gotSkb then (ids[k] + 1) % TWO_16 else ids[k]
    ensures ids[n] == Rem(ids[0] + Packets(inputs, n), TWO_16)
  {
    if n > 0 {
      CountsPackets(ids, inputs, n - 1);
      RemNext(ids[0] + Packets(inputs, n - 1), TWO_16);
    }
  }

  /** The identifications between the builds of an IPv4 run. */
  function IpIds(bs: seq<Builder>): (ids: seq<u16>)
    ensures |ids| == |bs| && forall k :: 0 <= k < |bs| ==> ids[k] == bs[k].ipId
  {
    seq(|bs|, i requires 0 <= i < |bs| => bs[i].ipId)
  }

  lemma NthIpId(bs: seq<Builder>, inputs: seq<BuildInput>, n: nat)
    requires IsBuildRun(bs, inputs) && n < |bs| && !bs[0].cfg.ipv6
    ensures bs[n].ipId == Rem(bs[0].ipId + Packets(inputs, n), TWO_16)
  {
    var ids := IpIds(bs);
    forall k {:trigger inputs[k]} | 0 <= k < |inputs|
      ensures ids[k + 1] == if inputs[k].gotSkb then (ids[k] + 1) % TWO_16 else ids[k]
    {
      IpIdAt(bs, inputs, k);
    }
    CountsPackets(ids, inputs, n);
  }

  lemma IpIdIs(base: u16, count: nat, id: u16)
    requires id == Rem(base + count, TWO_16)
    ensures id == (base + count) % TWO_16
  {
    RemIsModulo(base + count, TWO_16);
  }

  lemma CarriesStamp(bs: seq<Builder>, inputs: seq<BuildInput>, n: nat, p: Packet)
    requires Makes(bs, inputs, n, p)
    ensures StampIs(bs[0], inputs, n, p)
  {
    MadeFrom(bs, inputs, n, p);
    if !bs[0].cfg.ipv6 {
      NthIpId(bs, inputs, n - 1);
      IpIdIs(bs[0].ipId, Packets(inputs, n - 1), p.ipId);
    }
  }

  lemma SizeIs(bs: seq<Builder>, inputs: seq<BuildInput>, n: nat)
    requires IsBuildRun(bs, inputs) && 0 < n < |bs| && Started(bs[0].cfg, bs[0].headers)
    ensures bs[n].headers.size == SizeOf(bs[0].cfg, n, inputs[n - 1].draws.size) < 0x8000_0000
  {
    var hs, draws := HeadersOf(bs, inputs);
    NthSourceAndSizeAre(bs[0].cfg, hs, draws, n);
    SizeStaysInRange(bs[0].cfg, hs, draws, n);
  }

  lemma CarriesLength(bs: seq<Builder>, inputs: seq<BuildInput>, n: nat, p: Packet)
    requires Makes(bs, inputs, n, p) && Started(bs[0].cfg, bs[0].headers) && bs[0].overhead == Overhead(bs[0].stack)
    ensures LengthIs(bs[0], n, inputs[n - 1], p)
  {
    var first, b, a := bs[0], bs[n - 1], inputs[n - 1];
    SizeIs(bs, inputs, n);
    BuildsKeepConfig(bs, inputs, n - 1);
    assert BuildAt(bs, inputs, n - 1);
    BuildAdvances(b, a, 0);
    var datalen := DataLen(SizeOf(first.cfg, n, a.draws.size), first.cfg.ipv6, first.overhead);
    if FillsExactly(datalen, first.nfrags, first.page, first.maxFrags, a.gotPage) {
      BuildFrame(b, a, p.seqNum);
    }
  }

  /** Whatever builds have failed before it, the packet of build n carries, each in its own
      place: the n-th value of every field that is walked, the draw of every field that is
      random, the configured value of every other; the number of packets made before it as its
      IPv4 identification; and the time of day. */
  lemma PacketCarries(bs: seq<Builder>, inputs: seq<BuildInput>, n: nat, p: Packet)
    requires Makes(bs, inputs, n, p) && Started(bs[0].cfg, bs[0].headers) && bs[0].overhead == Overhead(bs[0].stack)
    ensures Carries(bs[0], inputs, n, p)
  {
    CarriesHeaders(bs, inputs, n, p);
    CarriesMacs(bs, inputs, n, p);
    CarriesStamp(bs, inputs, n, p);
    CarriesLength(bs, inputs, n, p);
  }

  // ---- Packets of one flow ----

  /** The flow tables and draws of a run of IPv4 builds. */
  lemma FlowsOf(bs: seq<Builder>, inputs: seq<BuildInput>) returns (ts: seq<FlowTable>, ds: seq<(u32, seq<u32>)>)
    requires IsBuildRun(bs, inputs) && !bs[0].cfg.ipv6
    ensures IsFlowRun(bs[0].cfg.flow, ts, ds) && |ts| == |bs|
    ensures forall k :: 0 <= k < |bs| ==> ts[k] == bs[k].headers.table
    ensures forall k :: 0 <= k < |inputs| ==> ds[k] == (inputs[k].draws.flow, inputs[k].draws.daddr)
  {
    BuildsRunHeaders(bs, inputs);
    var hs := seq(|bs|, i requires 0 <= i < |bs| => bs[i].headers);
    var draws := seq(|inputs|, i requires 0 <= i < |inputs| => inputs[i].draws);
    RunFlows(bs[0].cfg, hs, draws);
    ts, ds := Tables(hs), FlowDraws(draws);
  }

  /** The slot that build m + 1 draws, and whether it opens a flow there. */
  ghost function SlotDrawn(bs: seq<Builder>, inputs: seq<BuildInput>, m: nat): nat
    requires IsBuildRun(bs, inputs) && m < |inputs| && Random(bs[0].cfg.flow)
  {
    SlotOf(bs[0].cfg.flow, inputs[m].draws.flow)
  }

  ghost predicate OpensFlow(bs: seq<Builder>, inputs: seq<BuildInput>, m: nat)
    requires IsBuildRun(bs, inputs) && m < |inputs| && Random(bs[0].cfg.flow)
  {
    BuildsKeepConfig(bs, inputs, m);
    Opens(bs[0].cfg.flow, bs[m].headers.table, inputs[m].draws.flow)
  }

  /** Builds i and k draw one slot, and no build of that slot after the first opens a flow. */
  ghost predicate SameFlow(bs: seq<Builder>, inputs: seq<BuildInput>, i: nat, k: nat)
    requires IsBuildRun(bs, inputs) && 0 < i < k <= |inputs| && Random(bs[0].cfg.flow)
  {
    && SlotDrawn(bs, inputs, i - 1) == SlotDrawn(bs, inputs, k - 1)
    && forall m :: i <= m < k && SlotDrawn(bs, inputs, m) == SlotDrawn(bs, inputs, k - 1) ==> !OpensFlow(bs, inputs, m)
  }

  lemma SameFlowTables(bs: seq<Builder>, inputs: seq<BuildInput>, i: nat, k: nat)
    requires IsBuildRun(bs, inputs) && 0 < i < k <= |inputs| && Random(bs[0].cfg.flow) && SameFlow(bs, inputs, i, k)
    requires !bs[0].cfg.ipv6
    ensures bs[i].headers.table.daddr == bs[k].headers.table.daddr
  {
    var c := bs[0].cfg.flow;
    var ts, ds := FlowsOf(bs, inputs);
    forall m | i <= m < k && SlotOf(c, ds[m].0) == SlotOf(c, ds[i - 1].0)
      ensures !Opens(c, ts[m], ds[m].0)
    {
      assert SlotDrawn(bs, inputs, m) == SlotDrawn(bs, inputs, k - 1);
    }
    OneDestinationPerFlow(c, ts, ds, i - 1, k - 1);
  }

  /** With random flows all packets of one flow go to one destination. */
  lemma OneFlowOneDestination(bs: seq<Builder>, inputs: seq<BuildInput>, i: nat, k: nat, p: Packet, q: Packet)
    requires Makes(bs, inputs, i, p) && Makes(bs, inputs, k, q) && i < k
    requires !bs[0].cfg.ipv6 && Random(bs[0].cfg.flow) && SameFlow(bs, inputs, i, k)
    ensures p.daddr == q.daddr
  {
    MadeFrom(bs, inputs, i, p);
    MadeFrom(bs, inputs, k, q);
    SameFlowTables(bs, inputs, i, k);
  }

  /** After a restart in the middle of a sequential flow its remaining packets still go to its
      old destination. */
  lemma RestGoesToOldDestination(bs: seq<Builder>, inputs: seq<BuildInput>, n: nat, p: Packet, s: nat, j: nat, d: u32)
    requires Makes(bs, inputs, n, p) && Started(bs[0].cfg, bs[0].headers) && !bs[0].cfg.ipv6
    requires Sequential(bs[0].cfg.flow) && Restarted(bs[0].cfg.flow, bs[0].headers.table, s, j, d)
    requires j < bs[0].cfg.flow.lflow && n <= bs[0].cfg.flow.lflow - j
    ensures p.daddr == d
  {
    var hs, draws := HeadersOf(bs, inputs);
    MadeFrom(bs, inputs, n, p);
    NthFlowRestarted(bs[0].cfg, hs, draws, s, j, d, n);
  }

  // ---- The stack of tags and labels ----

  /** Whatever bytes follow, the decoder finds the tags and labels of s in the packet. */
  predicate CarriesStack(s: Stack, ipv6: bool, p: Packet, rest: seq<u8>)
    requires s.nrLabels <= |s.labels|
  {
    Decode(p.addresses + Be16(p.protocol) + p.stack + rest)
    == Decoded(Tags(s), Cleared(s.labels[..s.nrLabels]), if s.nrLabels > 0 then ETH_P_MPLS_UC else EtherType(ipv6),
               14 + Overhead(s))
  }

  lemma BuildCarriesStack(b: Builder, a: BuildInput, number: u32, rest: seq<u8>)
    requires Valid(b) && a.gotSkb
    ensures var (after, p) := FillPacket(b, a, number);
            StackInv(after.stack) && CarriesStack(after.stack, b.cfg.ipv6, p.value, rest)
  {
    PacketDecodes(b, a, number, rest);
    RandomizeKeepsLayout(b.stack, a.stackDraws, 0);
  }

  /** The packet of build n carries the stack in force at that build. */
  lemma PacketCarriesStack(bs: seq<Builder>, inputs: seq<BuildInput>, n: nat, p: Packet, rest: seq<u8>)
    requires Makes(bs, inputs, n, p)
    ensures StackInv(bs[n].stack) && CarriesStack(bs[n].stack, bs[0].cfg.ipv6, p, rest)
  {
    assert BuildAt(bs, inputs, n - 1);
    BuildsKeepConfig(bs, inputs, n - 1);
    SameHeaders(bs[n - 1], inputs[n - 1], p.seqNum);
    BuildCarriesStack(bs[n - 1], inputs[n - 1], p.seqNum, rest);
  }

  /** No label or id is to be drawn. */
  predicate Undrawn(s: Stack) { !s.mplsRandom && !s.vidRandom && !s.svidRandom }

  /** Then the stack in force is that of the start. */
  lemma {:induction false} NthStack(bs: seq<Builder>, inputs: seq<BuildInput>, n: nat)
    requires IsBuildRun(bs, inputs) && n < |bs| && Undrawn(bs[0].stack)
    ensures bs[n].stack == bs[0].stack
  {
    if n > 0 {
      NthStack(bs, inputs, n - 1);
      assert BuildAt(bs, inputs, n - 1);
    }
  }

  // ---- What setup puts into the packets ----

  /** b is how setup leaves the settings c and the fields h, with what it takes from the
      interface. */
  ghost predicate SetUp(c: Config, i: Interface, h: Headers, b: Builder) {
    && 1 <= i.txQueues && |h.hh| == 14 && Fits(c.flow, h.table)
    && b.cfg == SetupConfig(c, i) && b.headers == SetupHeaders(c, i, h)
  }

  lemma SetUpIsStarted(c: Config, i: Interface, h: Headers, b: Builder)
    requires SetUp(c, i, h, b)
    ensures Started(b.cfg, b.headers)
  {
    SetupStarts(c, i, h);
  }

  /** In terms of the settings that setup has found: to the configured destination, from the
      configured source or else that of the interface. */
  ghost predicate CarriesSettings(c: Config, i: Interface, h: Headers, n: nat, d: Draws, p: Packet)
    requires n > 0 && |h.hh| == 14
  {
    && p.addresses == NthMac(c.dstMac, c.dstMac, c.dstMacCount, c.dstMacRandom, n, d.dstMac)
                      + NthMac(FoundSource(c, i, h), c.srcMac, c.srcMacCount, c.srcMacRandom, n, d.srcMac)
    && PortIs(c.udpSrcMin, c.udpSrcMax, c.udpSrcRandom, n, d.udpSrc, p.udpSrc)
    && PortIs(c.udpDstMin, c.udpDstMax, c.udpDstRandom, n, d.udpDst, p.udpDst)
    && (!c.ipv6 && i.hasSrc ==> RangeIs(i.srcMin, i.srcMax, c.srcRandom, n, d.saddr, p.saddr))
    && (!c.ipv6 && !i.hasSrc ==> p.saddr == if i.hasAddr then i.addr else 0)
    && (!c.ipv6 ==> DestinationIs(c.(flow := c.flow.(dstMin := i.dstMin, dstMax := i.dstMax)), SetupHeaders(c, i, h),
                                  n, d, p.daddr))
    && (c.ipv6 ==> p.in6.src == if h.in6.src == UNSPECIFIED && i.linkAddr.Some? then i.linkAddr.value else h.in6.src)
  }

  lemma HalvesJoin(a: seq<u8>)
    requires |a| == 12
    ensures a == a[..6] + a[6..12]
  {
  }

  lemma MacsFromSetup(bs: seq<Builder>, inputs: seq<BuildInput>, n: nat, p: Packet,
                      c: Config, i: Interface, h: Headers)
    requires Makes(bs, inputs, n, p) && SetUp(c, i, h, bs[0])
    ensures var d := inputs[n - 1].draws;
            p.addresses == NthMac(c.dstMac, c.dstMac, c.dstMacCount, c.dstMacRandom, n, d.dstMac)
                           + NthMac(FoundSource(c, i, h), c.srcMac, c.srcMacCount, c.srcMacRandom, n, d.srcMac)
  {
    SetUpIsStarted(c, i, h, bs[0]);
    var hs, draws := HeadersOf(bs, inputs);
    MadeFrom(bs, inputs, n, p);
    NthDestinationMac(c, i, h, hs, draws, n);
    NthSourceMac(c, i, h, hs, draws, n);
    assert p.addresses[..6] == hs[n].hh[..6] && p.addresses[6..12] == hs[n].hh[6..12];
    HalvesJoin(p.addresses);
  }

  /** The packet of build n after setup carries the settings. */
  lemma PacketCarriesSettings(bs: seq<Builder>, inputs: seq<BuildInput>, n: nat, p: Packet,
                              c: Config, i: Interface, h: Headers)
    requires Makes(bs, inputs, n, p) && SetUp(c, i, h, bs[0])
    ensures CarriesSettings(c, i, h, n, inputs[n - 1].draws, p)
  {
    SetUpIsStarted(c, i, h, bs[0]);
    var hs, draws := HeadersOf(bs, inputs);
    MadeFrom(bs, inputs, n, p);
    MacsFromSetup(bs, inputs, n, p, c, i, h);
    NthPortsFromSetup(c, i, h, hs, draws, n);
    if c.ipv6 {
      NthIn6FromSetup(c, i, h, hs, draws, n);
    } else {
      NthSource(c, i, h, hs, draws, n);
      NthDestination(c, i, h, hs, draws, n);
    }
  }
}
