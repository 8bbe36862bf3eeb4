/** mod_cur_headers: all header fields advance together, once per packet that is built. */
module PktgenHeaders {
  import opened ModArith
  import opened Basics
  import opened PktgenOdometer
  import opened PktgenFlows
  import opened PktgenIn6

  /** A packet size setting: a C int that is not negative. */
  type PacketSize = x: int | 0 <= x < 0x8000_0000

  type Mac = s: seq<u8> | |s| == 6 witness [0, 0, 0, 0, 0, 0]

  /** The settings mod_cur_headers reads; addresses are in host order. */
  datatype Config = Config(
    flow: FlowConfig, ipv6: bool,
    srcMac: Mac, dstMac: Mac, srcMacCount: u32, dstMacCount: u32, srcMacRandom: bool, dstMacRandom: bool,
    udpSrcMin: u16, udpSrcMax: u16, udpSrcRandom: bool,
    udpDstMin: u16, udpDstMax: u16, udpDstRandom: bool,
    srcMin: u32, srcMax: u32, srcRandom: bool, minIn6: In6, maxIn6: In6,
    minSize: PacketSize, maxSize: PacketSize, sizeRandom: bool,
    queueMin: u16, queueMax: u16, queueRandom: bool, queueCpu: bool, txQueues: nat)

  /** `hh` is the 14-byte Ethernet header template: destination, then source address. */
  datatype Headers = Headers(
    table: FlowTable, hh: seq<u8>, srcMacOffset: u32, dstMacOffset: u32,
    udpSrc: u16, udpDst: u16, saddr: u32, size: u32, queue: u16, in6: In6Pair)

  /** The random numbers one build may draw, and the CPU it runs on. */
  datatype Draws = Draws(flow: u32, srcMac: u32, dstMac: u32, udpSrc: u32, udpDst: u32,
                         saddr: u32, daddr: seq<u32>, daddr6: In6, size: u32, queue: u32, cpu: u16)

  predicate Ready(c: Config, h: Headers) {
    Fits(c.flow, h.table) && |h.hh| == 14 && 1 <= c.txQueues
  }

  function StepTable(c: Config, t: FlowTable, d: Draws): (r: FlowTable)
    requires Fits(c.flow, t)
    ensures Fits(c.flow, r)
  {
    if !c.ipv6 then FlowStep(c.flow, t, d.flow, d.daddr)
    else
      var (picked, flow) := if c.flow.cflows > 0 then Pick(c.flow, t, d.flow) else (t, 0);
      CountPacket(picked, flow)
  }

  function SetSrcMac(c: Config, hh: seq<u8>, mc: u32): (r: seq<u8>)
    requires |hh| == 14
    ensures |r| == 14
  {
    hh[..7] + AddOffset(c.srcMac, mc) + hh[12..]
  }

  function SetDstMac(c: Config, hh: seq<u8>, mc: u32): (r: seq<u8>)
    requires |hh| == 14
    ensures |r| == 14
  {
    hh[..1] + AddOffset(c.dstMac, mc) + hh[6..]
  }

  function StepSrcMac(c: Config, h: Headers, draw: u32): (r: Headers)
    requires |h.hh| == 14
    ensures |r.hh| == 14
  {
    if c.srcMacCount <= 1 then h
    else
      var (mc, next) := StepOffset(c.srcMacCount, c.srcMacRandom, h.srcMacOffset, draw);
      h.(hh := SetSrcMac(c, h.hh, mc), srcMacOffset := next)
  }

  function StepDstMac(c: Config, h: Headers, draw: u32): (r: Headers)
    requires |h.hh| == 14
    ensures |r.hh| == 14
  {
    if c.dstMacCount <= 1 then h
    else
      var (mc, next) := StepOffset(c.dstMacCount, c.dstMacRandom, h.dstMacOffset, draw);
      h.(hh := SetDstMac(c, h.hh, mc), dstMacOffset := next)
  }

  function NextQueue(lo: u16, hi: u16, cur: u16): u16 {
    var t := (cur + 1) % TWO_16;
    if t > hi then lo else t
  }

  /** The transmit queue is taken modulo the number of queues after it has moved. */
  function StepQueue(c: Config, cur: u16, draw: u32, cpu: u16): u16
    requires 1 <= c.txQueues
  {
    var moved: u16 :=
      if c.queueCpu then cpu
      else if c.queueMin > c.queueMax then cur
      else if c.queueRandom then Rem(draw, c.queueMax - c.queueMin + 1) + c.queueMin
      else NextQueue(c.queueMin, c.queueMax, cur);
    Rem(moved, c.txQueues)
  }

  function NextPair(c: Config, cur: In6Pair, draws: In6): In6Pair {
    cur.(dst := NextIn6(c.minIn6, c.maxIn6, cur.dst, draws))
  }

  function StepIn6(c: Config, cur: In6Pair, draws: In6): In6Pair {
    if c.ipv6 then NextPair(c, cur, draws) else cur
  }

  function StepSource(c: Config, cur: u32, draw: u32): u32 {
    if c.ipv6 then cur else StepRange(c.srcMin, c.srcMax, c.srcRandom, cur, draw)
  }

  function NextHeaders(c: Config, h: Headers, d: Draws): (r: Headers)
    requires Ready(c, h)
    ensures Ready(c, r)
  {
    StepDstMac(c, StepSrcMac(c, h, d.srcMac), d.dstMac).(
      table := StepTable(c, h.table, d),
      udpSrc := StepPort(c.udpSrcMin, c.udpSrcMax, c.udpSrcRandom, h.udpSrc, d.udpSrc),
      udpDst := StepPort(c.udpDstMin, c.udpDstMax, c.udpDstRandom, h.udpDst, d.udpDst),
      saddr := StepSource(c, h.saddr, d.saddr),
      in6 := StepIn6(c, h.in6, d.daddr6),
      size := StepRange(c.minSize, c.maxSize, c.sizeRandom, h.size, d.size),
      queue := StepQueue(c, h.queue, d.queue, d.cpu))
  }

  /** hs is a run: hs[0] is its first state and each build takes hs[k] to hs[k + 1]. */
  ghost predicate IsHeaderRun(c: Config, hs: seq<Headers>, draws: seq<Draws>) {
    && |hs| == |draws| + 1
    && (forall k :: 0 <= k < |hs| ==> Ready(c, hs[k]))
    && (forall k {:trigger draws[k]} :: 0 <= k < |draws| ==> hs[k + 1] == NextHeaders(c, hs[k], draws[k]))
  }

  // ---- The commands for MAC addresses ----

  /** dst_mac and src_mac write the setting and the header template. */
  function CommandDstMac(c: Config, h: Headers, mac: Mac): (Config, Headers)
    requires |h.hh| == 14
  {
    (c.(dstMac := mac), h.(hh := mac + h.hh[6..]))
  }

  function CommandSrcMac(c: Config, h: Headers, mac: Mac): (Config, Headers)
    requires |h.hh| == 14
  {
    (c.(srcMac := mac), h.(hh := h.hh[..6] + mac + h.hh[12..]))
  }

  // ---- Starting a run ----

  /** What pktgen_setup_inject takes from outside: the interface's addresses and queue count,
      the parsed address strings, and the overhead left by the last run. */
  datatype Interface = Interface(mac: Mac, txQueues: nat, hasAddr: bool, addr: u32,
                                 hasSrc: bool, srcMin: u32, srcMax: u32, dstMin: u32, dstMax: u32,
                                 linkAddr: Option<In6>, overhead: u16)

  /** A queue that does not exist becomes the last one, or 0 when there is none. */
  function Clamp(q: u16, txQueues: nat): u16 {
    if txQueues <= q then (if txQueues == 0 then 0 else txQueues - 1) else q
  }

  /** A minimum of 0 becomes the size of all headers and the overhead of the last run. */
  function SetupMinSize(minSize: PacketSize, ipv6: bool, overhead: u16): PacketSize {
    if minSize == 0 then (if ipv6 then 78 else 58) + overhead else minSize
  }

  /** The limits of the IPv4 source: those configured, or else the interface's address. */
  function SetupSource(i: Interface): (u32, u32) {
    if i.hasSrc then (i.srcMin, i.srcMax) else if i.hasAddr then (i.addr, i.addr) else (0, 0)
  }

  function SetupConfig(c: Config, i: Interface): Config {
    var minSize := SetupMinSize(c.minSize, c.ipv6, i.overhead);
    c.(queueMin := Clamp(c.queueMin, i.txQueues), queueMax := Clamp(c.queueMax, i.txQueues),
       txQueues := i.txQueues,
       minSize := minSize, maxSize := if minSize > c.maxSize then minSize else c.maxSize,
       srcMin := if c.ipv6 then c.srcMin else SetupSource(i).0,
       srcMax := if c.ipv6 then c.srcMax else SetupSource(i).1,
       flow := if c.ipv6 then c.flow else c.flow.(dstMin := i.dstMin, dstMax := i.dstMax))
  }

  /** The current values a run starts from; the flow slots and the transmit queue keep what
      the previous run left. */
  function ResetValues(c: Config, h: Headers): Headers {
    h.(srcMacOffset := 0, dstMacOffset := 0,
       udpSrc := c.udpSrcMin, udpDst := c.udpDstMin, saddr := c.srcMin, size := c.minSize,
       table := h.table.(daddr := c.flow.dstMin, nflows := 0))
  }

  /** The interface's own address is the source unless one is configured. */
  function SetAddresses(c: Config, i: Interface, hh: seq<u8>): seq<u8>
    requires |hh| == 14
  {
    c.dstMac + (if c.srcMac == [0, 0, 0, 0, 0, 0] then i.mac else hh[6..12]) + hh[12..]
  }

  /** An IPv6 source that is not set becomes the interface's link address, if it has one. */
  function SourceIn6(c: Config, i: Interface, cur: In6Pair): In6Pair {
    if c.ipv6 && cur.src == UNSPECIFIED && i.linkAddr.Some? then cur.(src := i.linkAddr.value) else cur
  }

  function SetupHeaders(c: Config, i: Interface, h: Headers): Headers
    requires |h.hh| == 14
  {
    ResetValues(SetupConfig(c, i), h.(hh := SetAddresses(c, i, h.hh), in6 := SourceIn6(c, i, h.in6)))
  }

  /** A header state as setup leaves it. */
  predicate Started(c: Config, h: Headers) {
    && Ready(c, h)
    && h.srcMacOffset == 0 && h.dstMacOffset == 0
    && h.udpSrc == c.udpSrcMin && h.udpDst == c.udpDstMin
    && h.saddr == c.srcMin && h.size == c.minSize && c.minSize <= c.maxSize
    && h.table.daddr == c.flow.dstMin && h.table.nflows == 0
    && c.queueMin < c.txQueues && c.queueMax < c.txQueues
  }

  lemma SetupStarts(c: Config, i: Interface, h: Headers)
    requires 1 <= i.txQueues && |h.hh| == 14 && Fits(c.flow, h.table)
    ensures Started(SetupConfig(c, i), SetupHeaders(c, i, h))
  {
  }

  /** A run that begins where setup leaves the headers. */
  ghost predicate FromStart(c: Config, hs: seq<Headers>, draws: seq<Draws>) {
    IsHeaderRun(c, hs, draws) && Started(c, hs[0])
  }

  // ---- Closed forms: hs[n] is the state used by the n-th build, counted from 1 ----

  lemma {:induction false} RunSourcePorts(c: Config, hs: seq<Headers>, draws: seq<Draws>, n: nat)
    requires FromStart(c, hs, draws) && n < |hs| && c.udpSrcMin < c.udpSrcMax && !c.udpSrcRandom
    ensures hs[n].udpSrc == Ports(c.udpSrcMin, c.udpSrcMax, n)
  {
    if n > 0 {
      RunSourcePorts(c, hs, draws, n - 1);
      assert hs[n] == NextHeaders(c, hs[n - 1], draws[n - 1]);
    }
  }

  lemma {:induction false} RunDestinationPorts(c: Config, hs: seq<Headers>, draws: seq<Draws>, n: nat)
    requires FromStart(c, hs, draws) && n < |hs| && c.udpDstMin < c.udpDstMax && !c.udpDstRandom
    ensures hs[n].udpDst == Ports(c.udpDstMin, c.udpDstMax, n)
  {
    if n > 0 {
      RunDestinationPorts(c, hs, draws, n - 1);
      assert hs[n] == NextHeaders(c, hs[n - 1], draws[n - 1]);
    }
  }

  lemma {:induction false} RunSources(c: Config, hs: seq<Headers>, draws: seq<Draws>, n: nat)
    requires FromStart(c, hs, draws) && n < |hs| && c.srcMin < c.srcMax && !c.srcRandom && !c.ipv6
    ensures hs[n].saddr == Walk(c.srcMin, c.srcMax, n)
  {
    if n > 0 {
      RunSources(c, hs, draws, n - 1);
      assert hs[n] == NextHeaders(c, hs[n - 1], draws[n - 1]);
    }
  }

  lemma {:induction false} RunSizes(c: Config, hs: seq<Headers>, draws: seq<Draws>, n: nat)
    requires FromStart(c, hs, draws) && n < |hs| && c.minSize < c.maxSize && !c.sizeRandom
    ensures hs[n].size == Walk(c.minSize, c.maxSize, n)
  {
    if n > 0 {
      RunSizes(c, hs, draws, n - 1);
      assert hs[n] == NextHeaders(c, hs[n - 1], draws[n - 1]);
    }
  }

  lemma {:induction false} RunSrcOffsets(c: Config, hs: seq<Headers>, draws: seq<Draws>, n: nat)
    requires FromStart(c, hs, draws) && n < |hs| && !c.srcMacRandom && c.srcMacCount > 1
    ensures hs[n].srcMacOffset == Offsets(c.srcMacCount, n)
  {
    if n > 0 {
      RunSrcOffsets(c, hs, draws, n - 1);
      assert hs[n] == NextHeaders(c, hs[n - 1], draws[n - 1]);
    }
  }

  lemma {:induction false} RunDstOffsets(c: Config, hs: seq<Headers>, draws: seq<Draws>, n: nat)
    requires FromStart(c, hs, draws) && n < |hs| && !c.dstMacRandom && c.dstMacCount > 1
    ensures hs[n].dstMacOffset == Offsets(c.dstMacCount, n)
  {
    if n > 0 {
      RunDstOffsets(c, hs, draws, n - 1);
      assert hs[n] == NextHeaders(c, hs[n - 1], draws[n - 1]);
    }
  }

  /** The n-th build has UDP ports min + n mod (max - min). */
  lemma NthPorts(c: Config, hs: seq<Headers>, draws: seq<Draws>, n: nat)
    requires FromStart(c, hs, draws) && n < |hs|
    ensures c.udpSrcMin < c.udpSrcMax && !c.udpSrcRandom ==>
              hs[n].udpSrc == c.udpSrcMin + Rem(n, c.udpSrcMax - c.udpSrcMin)
    ensures c.udpDstMin < c.udpDstMax && !c.udpDstRandom ==>
              hs[n].udpDst == c.udpDstMin + Rem(n, c.udpDstMax - c.udpDstMin)
  {
    if c.udpSrcMin < c.udpSrcMax && !c.udpSrcRandom {
      RunSourcePorts(c, hs, draws, n);
      PortClosedForm(c.udpSrcMin, c.udpSrcMax, n);
    }
    if c.udpDstMin < c.udpDstMax && !c.udpDstRandom {
      RunDestinationPorts(c, hs, draws, n);
      PortClosedForm(c.udpDstMin, c.udpDstMax, n);
    }
  }

  /** The n-th build has IPv4 source and packet size min + n mod (max - min + 1). */
  lemma NthSourceAndSize(c: Config, hs: seq<Headers>, draws: seq<Draws>, n: nat)
    requires FromStart(c, hs, draws) && n < |hs|
    ensures c.srcMin < c.srcMax && !c.srcRandom && !c.ipv6 && WrapSafe(c.srcMin, c.srcMax) ==>
              hs[n].saddr == c.srcMin + Rem(n, c.srcMax - c.srcMin + 1)
    ensures c.minSize < c.maxSize && !c.sizeRandom ==>
              hs[n].size == c.minSize + Rem(n, c.maxSize - c.minSize + 1)
  {
    if c.srcMin < c.srcMax && !c.srcRandom && !c.ipv6 && WrapSafe(c.srcMin, c.srcMax) {
      RunSources(c, hs, draws, n);
      WalkClosedForm(c.srcMin, c.srcMax, n);
    }
    if c.minSize < c.maxSize && !c.sizeRandom {
      RunSizes(c, hs, draws, n);
      WalkClosedForm(c.minSize, c.maxSize, n);
    }
  }

  /** Random or not, the size stays between the settings. */
  lemma {:induction false} SizeStaysInRange(c: Config, hs: seq<Headers>, draws: seq<Draws>, n: nat)
    requires FromStart(c, hs, draws) && n < |hs|
    ensures c.minSize <= hs[n].size <= c.maxSize
  {
    if n > 0 {
      SizeStaysInRange(c, hs, draws, n - 1);
      assert hs[n] == NextHeaders(c, hs[n - 1], draws[n - 1]);
      RangeStays(c.minSize, c.maxSize, c.sizeRandom, hs[n - 1].size, draws[n - 1].size);
    }
  }

  // ---- MAC addresses ----

  lemma SetSrcMacBytes(c: Config, hh: seq<u8>, mc: u32)
    requires |hh| == 14
    ensures var r := SetSrcMac(c, hh, mc);
            r[..7] == hh[..7] && r[12..] == hh[12..] && r[7..12] == AddOffset(c.srcMac, mc)
  {
  }

  lemma SetDstMacBytes(c: Config, hh: seq<u8>, mc: u32)
    requires |hh| == 14
    ensures var r := SetDstMac(c, hh, mc);
            r[..1] == hh[..1] && r[6..] == hh[6..] && r[1..6] == AddOffset(c.dstMac, mc)
  {
  }

  /** One build writes bytes 7 to 11 from the source walk, bytes 1 to 5 from the destination
      walk, and keeps the first byte of each address and the EtherType. */
  lemma BuildSetsMacs(c: Config, h: Headers, d: Draws)
    requires Ready(c, h)
    ensures var r := NextHeaders(c, h, d).hh;
            && r[0] == h.hh[0] && r[6] == h.hh[6] && r[12..] == h.hh[12..]
            && (c.srcMacCount > 1 && !c.srcMacRandom ==> r[7..12] == AddOffset(c.srcMac, h.srcMacOffset))
            && (c.dstMacCount > 1 && !c.dstMacRandom ==> r[1..6] == AddOffset(c.dstMac, h.dstMacOffset))
            && (c.srcMacCount <= 1 ==> r[7..12] == h.hh[7..12])
            && (c.dstMacCount <= 1 ==> r[1..6] == h.hh[1..6])
  {
    var s := StepSrcMac(c, h, d.srcMac);
    var t := StepDstMac(c, s, d.dstMac);
    if c.srcMacCount > 1 {
      SetSrcMacBytes(c, h.hh, StepOffset(c.srcMacCount, c.srcMacRandom, h.srcMacOffset, d.srcMac).0);
    }
    if c.dstMacCount > 1 {
      SetDstMacBytes(c, s.hh, StepOffset(c.dstMacCount, c.dstMacRandom, h.dstMacOffset, d.dstMac).0);
    }
    assert s.hh[..7] == h.hh[..7] && s.hh[12..] == h.hh[12..];
    assert t.hh[..1] == s.hh[..1] && t.hh[6..] == s.hh[6..];
    assert t.hh[7..12] == t.hh[6..][1..6] && s.hh[7..12] == s.hh[6..][1..6];
    assert t.hh[12..] == t.hh[6..][6..] && s.hh[12..] == s.hh[6..][6..];
    assert t.hh[6] == t.hh[6..][0] && s.hh[6] == s.hh[6..][0] == s.hh[..7][6];
    assert t.hh[0] == t.hh[..1][0] && s.hh[0] == s.hh[..1][0] == s.hh[..7][0];
    assert s.hh[1..6] == s.hh[..7][1..6] && h.hh[1..6] == h.hh[..7][1..6];
  }

  /** The n-th build's addresses: the base address with the (n-1) mod count-th offset added
      to its low five bytes by the carry chain. */
  lemma NthMacs(c: Config, hs: seq<Headers>, draws: seq<Draws>, n: nat)
    requires FromStart(c, hs, draws) && 0 < n < |hs|
    ensures c.srcMacCount > 1 && !c.srcMacRandom ==>
              hs[n].hh[7..12] == AddOffset(c.srcMac, Rem(n - 1, c.srcMacCount))
    ensures c.dstMacCount > 1 && !c.dstMacRandom ==>
              hs[n].hh[1..6] == AddOffset(c.dstMac, Rem(n - 1, c.dstMacCount))
  {
    var h, d := hs[n - 1], draws[n - 1];
    BuildSetsMacs(c, h, d);
    if c.srcMacCount > 1 && !c.srcMacRandom {
      RunSrcOffsets(c, hs, draws, n - 1);
      OffsetClosedForm(c.srcMacCount, n - 1);
    }
    if c.dstMacCount > 1 && !c.dstMacRandom {
      RunDstOffsets(c, hs, draws, n - 1);
      OffsetClosedForm(c.dstMacCount, n - 1);
    }
  }

  /** The first byte of each address and the EtherType never change during a run. */
  lemma {:induction false} KeptBytes(c: Config, hs: seq<Headers>, draws: seq<Draws>, n: nat)
    requires IsHeaderRun(c, hs, draws) && n < |hs|
    ensures hs[n].hh[0] == hs[0].hh[0] && hs[n].hh[6] == hs[0].hh[6] && hs[n].hh[12..] == hs[0].hh[12..]
  {
    if n > 0 {
      KeptBytes(c, hs, draws, n - 1);
      BuildSetsMacs(c, hs[n - 1], draws[n - 1]);
    }
  }

  /** The n-th build of an IPv6 device with a minimum draws its destination: among the addresses
      between, exactly if all bits of the minimum are set in the maximum, and never above it. */
  lemma NthIn6(c: Config, hs: seq<Headers>, draws: seq<Draws>, n: nat)
    requires IsHeaderRun(c, hs, draws) && 0 < n < |hs| && c.ipv6 && c.minIn6 != UNSPECIFIED
    ensures CommonInside(c.minIn6, c.maxIn6, hs[n].in6.dst) && AtMost(hs[n].in6.dst, c.maxIn6)
    ensures Inside(c.minIn6, c.maxIn6) ==> AtMost(c.minIn6, hs[n].in6.dst)
  {
    assert hs[n] == NextHeaders(c, hs[n - 1], draws[n - 1]);
    In6Drawn(c.minIn6, c.maxIn6, hs[n].in6.dst);
    InsideIsAtMost(hs[n].in6.dst, c.maxIn6);
    if Inside(c.minIn6, c.maxIn6) {
      InsideIsAtMost(c.minIn6, hs[n].in6.dst);
    }
  }

  // ---- Flows and queues ----

  function Tables(hs: seq<Headers>): (ts: seq<FlowTable>)
    ensures |ts| == |hs| && forall k :: 0 <= k < |ts| ==> ts[k] == hs[k].table
  {
    seq(|hs|, k requires 0 <= k < |hs| => hs[k].table)
  }

  function FlowDraws(draws: seq<Draws>): (r: seq<(u32, seq<u32>)>)
    ensures |r| == |draws| && forall k :: 0 <= k < |r| ==> r[k] == (draws[k].flow, draws[k].daddr)
  {
    seq(|draws|, k requires 0 <= k < |draws| => (draws[k].flow, draws[k].daddr))
  }

  /** The flow table of a run is the flow table's own run. */
  lemma RunFlows(c: Config, hs: seq<Headers>, draws: seq<Draws>)
    requires IsHeaderRun(c, hs, draws) && !c.ipv6
    ensures IsFlowRun(c.flow, Tables(hs), FlowDraws(draws))
  {
    var ts, ds := Tables(hs), FlowDraws(draws);
    forall k | 0 <= k < |ds|
      ensures FlowAt(c.flow, ts, ds, k)
    {
      assert hs[k + 1] == NextHeaders(c, hs[k], draws[k]);
    }
  }

  /** A device whose flow slots no packet has used. */
  predicate FreshFlows(h: Headers) {
    h.table.curfl == 0 && forall i :: 0 <= i < |h.table.flows| ==> h.table.flows[i].count == 0 && !h.table.flows[i].seen
  }

  /** The n-th build of a fresh device with sequential flows, counted from 1, follows their
      closed form, and n / lflow flows, rounded up, have been opened by then. */
  lemma NthFlow(c: Config, hs: seq<Headers>, draws: seq<Draws>, n: nat)
    requires FromStart(c, hs, draws) && 0 < n < |hs| && !c.ipv6 && Sequential(c.flow) && FreshFlows(hs[0])
    ensures AtPacketFrom(c.flow, hs[n].table, 1, 1, 0, n - 1)
    ensures hs[n].table.nflows == ((n + c.flow.lflow - 1) / c.flow.lflow) % TWO_32
  {
    RunFlows(c, hs, draws);
    SequentialFlows(c.flow, Tables(hs), FlowDraws(draws), n - 1);
    FlowsOpened(c.flow, Tables(hs), FlowDraws(draws), n);
  }

  /** Setup keeps the flow slots: a device stopped in the middle of a flow and started again
      with the same destinations is in the middle of it still. */
  lemma SetupKeepsFlow(c: Config, i: Interface, h: Headers, w: nat, f: nat, s: nat, j: nat)
    requires 1 <= i.txQueues && |h.hh| == 14 && Sequential(c.flow) && InFlow(c.flow, h.table, w, f, s, j)
    requires !c.ipv6 && SetupConfig(c, i).flow == c.flow
    ensures Restarted(c.flow, SetupHeaders(c, i, h).table, s, j, h.table.daddr)
  {
    WalkClosedForm(c.flow.dstMin, c.flow.dstMax, w);
  }

  /** The n-th build after such a restart: the old flow is finished first, towards its old
      destination. */
  lemma NthFlowRestarted(c: Config, hs: seq<Headers>, draws: seq<Draws>, s: nat, j: nat, d: u32, n: nat)
    requires FromStart(c, hs, draws) && 0 < n < |hs| && !c.ipv6 && Sequential(c.flow)
    requires Restarted(c.flow, hs[0].table, s, j, d)
    ensures if j < c.flow.lflow then AtPacketFrom(c.flow, hs[n].table, d - c.flow.dstMin, 0, s, j + n - 1)
            else AtPacketFrom(c.flow, hs[n].table, 1, 1, NextSlot(c.flow.cflows, s), n - 1)
    ensures j < c.flow.lflow && n <= c.flow.lflow - j ==> hs[n].table.daddr == d && hs[n].table.nflows == 0
  {
    RunFlows(c, hs, draws);
    RestartedFlows(c.flow, Tables(hs), FlowDraws(draws), s, j, d, n - 1);
  }

  /** The chosen queue always exists. */
  lemma QueueExists(c: Config, h: Headers, d: Draws)
    requires Ready(c, h)
    ensures NextHeaders(c, h, d).queue < c.txQueues
  {
  }

  predicate QueuesInOrder(c: Config) {
    && !c.queueCpu && !c.queueRandom && c.queueMin <= c.queueMax
    && (c.queueMax < TWO_16 - 1 || c.queueMin == 0)
  }

  lemma QueueMoves(c: Config, cur: u16, draw: u32, cpu: u16)
    requires 1 <= c.txQueues && QueuesInOrder(c) && c.queueMax < c.txQueues
    ensures StepQueue(c, cur, draw, cpu) == NextQueue(c.queueMin, c.queueMax, cur)
  {
  }

  lemma QueueStep(c: Config, h: Headers, d: Draws)
    requires Ready(c, h) && QueuesInOrder(c) && c.queueMax < c.txQueues
    ensures NextHeaders(c, h, d).queue == NextQueue(c.queueMin, c.queueMax, h.queue)
  {
    QueueMoves(c, h.queue, d.queue, d.cpu);
  }

  lemma QueueAt(c: Config, hs: seq<Headers>, draws: seq<Draws>, k: nat)
    requires FromStart(c, hs, draws) && QueuesInOrder(c) && k < |draws|
    ensures hs[k + 1].queue == NextQueue(c.queueMin, c.queueMax, hs[k].queue)
  {
    QueueStep(c, hs[k], draws[k]);
  }

  /** The queue n builds after q, which is not above the maximum: a climb to the minimum,
      then a cycle through the configured range. */
  function QueueAfter(lo: u16, hi: u16, q: u16, n: nat): nat
    requires lo <= hi
  {
    if q + n < lo then q + n else lo + Rem(q + n - lo, hi - lo + 1)
  }

  lemma QueueAfterSucc(lo: u16, hi: u16, q: u16, n: nat)
    requires q <= hi && lo <= hi && (hi < TWO_16 - 1 || lo == 0)
    ensures QueueAfter(lo, hi, q, n) <= hi
    ensures QueueAfter(lo, hi, q, n + 1) == NextQueue(lo, hi, QueueAfter(lo, hi, q, n))
  {
    if q + n >= lo {
      RemSucc(q + n - lo, hi - lo + 1);
    }
  }

  /** The n-th build's queue in closed form, from whatever queue the run found. */
  lemma {:induction false} NthQueue(c: Config, hs: seq<Headers>, draws: seq<Draws>, n: nat)
    requires FromStart(c, hs, draws) && QueuesInOrder(c) && 0 < n < |hs|
    ensures hs[n].queue
         == QueueAfter(c.queueMin, c.queueMax, NextQueue(c.queueMin, c.queueMax, hs[0].queue), n - 1)
  {
    QueueAt(c, hs, draws, n - 1);
    if n > 1 {
      NthQueue(c, hs, draws, n - 1);
      QueueAfterSucc(c.queueMin, c.queueMax, NextQueue(c.queueMin, c.queueMax, hs[0].queue), n - 2);
    }
  }

  ghost predicate QueuesInRange(c: Config, hs: seq<Headers>) {
    forall n :: 1 <= n < |hs| ==> c.queueMin <= hs[n].queue <= c.queueMax
  }

  /** Every build of a run uses a queue of the configured range exactly when the run finds a
      queue no more than one below the minimum, and not the last number of all, unless the
      minimum is 0. */
  lemma QueuesStayInRange(c: Config, hs: seq<Headers>, draws: seq<Draws>)
    requires FromStart(c, hs, draws) && QueuesInOrder(c) && |draws| >= 1
    ensures QueuesInRange(c, hs)
        <==> hs[0].queue + 1 >= c.queueMin && (hs[0].queue < TWO_16 - 1 || c.queueMin == 0)
  {
    var first := NextQueue(c.queueMin, c.queueMax, hs[0].queue);
    QueueAt(c, hs, draws, 0);
    if c.queueMin <= first {
      forall n | 1 <= n < |hs|
        ensures c.queueMin <= hs[n].queue <= c.queueMax
      {
        NthQueue(c, hs, draws, n);
      }
    } else {
      assert hs[1].queue == first;
    }
  }

  /** A new device, whose queue is 0, uses queue 1 first when the minimum is 2 or more. */
  lemma NewDeviceBelowMinimum(c: Config, hs: seq<Headers>, draws: seq<Draws>)
    requires FromStart(c, hs, draws) && QueuesInOrder(c) && |draws| >= 1
    requires hs[0].queue == 0 && c.queueMin == 2 && c.queueMax == 3
    ensures hs[1].queue == 1 && !QueuesInRange(c, hs)
  {
    QueueAt(c, hs, draws, 0);
  }

  /** Up to the maximum the queues are taken one by one, also those under the minimum. */
  lemma QueueBelowMinimum(c: Config, hs: seq<Headers>, draws: seq<Draws>, n: nat)
    requires FromStart(c, hs, draws) && n < |hs| && QueuesInOrder(c) && hs[0].queue + n <= c.queueMax
    ensures hs[n].queue == hs[0].queue + n
  {
    if n > 0 {
      NthQueue(c, hs, draws, n);
      QuotRem(n - 1, c.queueMax - c.queueMin + 1);
    }
  }
}
