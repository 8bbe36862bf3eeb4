/** What setup writes, seen in every build of the run that follows. */
module PktgenSetup {
  import opened Basics
  import opened PktgenOdometer
  import opened PktgenFlows
  import opened PktgenHeaders
  import opened PktgenHeaderLaws
  import opened PktgenIn6

  /** A run of a device that setup has just started: c and h are its settings and fields
      before, i what setup takes from the interface. */
  ghost predicate FromSetup(c: Config, i: Interface, h: Headers, hs: seq<Headers>, draws: seq<Draws>) {
    && 1 <= i.txQueues && |h.hh| == 14 && Fits(c.flow, h.table)
    && IsHeaderRun(SetupConfig(c, i), hs, draws) && hs[0] == SetupHeaders(c, i, h)
  }

  lemma SetupIsStart(c: Config, i: Interface, h: Headers, hs: seq<Headers>, draws: seq<Draws>)
    requires FromSetup(c, i, h, hs, draws)
    ensures FromStart(SetupConfig(c, i), hs, draws)
  {
    SetupStarts(c, i, h);
  }

  // ---- MAC addresses ----

  const NO_MAC: Mac := [0, 0, 0, 0, 0, 0]

  /** The source that setup leaves: the interface's unless one is configured; then what the
      header template holds. */
  function FoundSource(c: Config, i: Interface, h: Headers): Mac
    requires |h.hh| == 14
  {
    if c.srcMac == NO_MAC then i.mac else h.hh[6..12]
  }

  lemma SetupWritesMacs(c: Config, i: Interface, h: Headers)
    requires |h.hh| == 14
    ensures var r := SetupHeaders(c, i, h).hh;
            |r| == 14 && r[..6] == c.dstMac && r[6..12] == FoundSource(c, i, h)
  {
  }

  /** Six bytes are the first and the five after it. */
  lemma SixBytes(hh: seq<u8>, at: nat)
    requires at + 6 <= |hh|
    ensures hh[at..at + 6] == [hh[at]] + hh[at + 1..at + 6]
  {
  }

  /** The n-th of some addresses: a single one stays as the run has found it; of several the
      first byte stays, and an offset is added to the low bytes of the configured one. */
  function NthMac(found: Mac, base: Mac, count: u32, random: bool, n: nat, draw: u32): seq<u8>
    requires n > 0
  {
    if count <= 1 then found else [found[0]] + AddOffset(base, if random then draw % count else (n - 1) % count)
  }

  /** In every run the destination is the configured one; with more than one, its low bytes
      are walked and its first byte stays. */
  lemma NthDestinationMac(c: Config, i: Interface, h: Headers, hs: seq<Headers>, draws: seq<Draws>, n: nat)
    requires FromSetup(c, i, h, hs, draws) && 0 < n < |hs|
    ensures hs[n].hh[..6] == NthMac(c.dstMac, c.dstMac, c.dstMacCount, c.dstMacRandom, n, draws[n - 1].dstMac)
  {
    var d := SetupConfig(c, i);
    SetupIsStart(c, i, h, hs, draws);
    SetupWritesMacs(c, i, h);
    NthMacsAre(d, hs, draws, n);
    KeptBytes(d, hs, draws, n);
    SixBytes(hs[n].hh, 0);
    SixBytes(hs[0].hh, 0);
    assert hs[0].hh[0] == hs[0].hh[..6][0];
  }

  /** The source is the one setup has found; with more than one, the low bytes of the
      configured source are walked, also when none is configured and they are zero. */
  lemma NthSourceMac(c: Config, i: Interface, h: Headers, hs: seq<Headers>, draws: seq<Draws>, n: nat)
    requires FromSetup(c, i, h, hs, draws) && 0 < n < |hs|
    ensures hs[n].hh[6..12]
         == NthMac(FoundSource(c, i, h), c.srcMac, c.srcMacCount, c.srcMacRandom, n, draws[n - 1].srcMac)
  {
    var d := SetupConfig(c, i);
    SetupIsStart(c, i, h, hs, draws);
    SetupWritesMacs(c, i, h);
    NthMacsAre(d, hs, draws, n);
    KeptBytes(d, hs, draws, n);
    SixBytes(hs[n].hh, 6);
    SixBytes(hs[0].hh, 6);
    assert hs[0].hh[6] == hs[0].hh[6..12][0];
  }

  /** The src_mac command puts the address where setup finds it. */
  lemma SourceCommandIsFound(c: Config, h: Headers, mac: Mac, i: Interface)
    requires |h.hh| == 14 && mac != NO_MAC
    ensures var (d, g) := CommandSrcMac(c, h, mac);
            |g.hh| == 14 && d.srcMac == mac && FoundSource(d, i, g) == mac && g.hh[..6] == h.hh[..6]
  {
  }

  /** The dst_mac command leaves the source alone. */
  lemma DestinationCommandKeepsSource(c: Config, h: Headers, mac: Mac)
    requires |h.hh| == 14
    ensures var (d, g) := CommandDstMac(c, h, mac);
            |g.hh| == 14 && d.dstMac == mac && d.srcMac == c.srcMac && g.hh[..6] == mac && g.hh[6..] == h.hh[6..]
  {
  }

  /** With one source, all builds carry the configured one exactly if the header template
      still holds it when the run starts. */
  lemma SourceIsConfigured(c: Config, i: Interface, h: Headers, hs: seq<Headers>, draws: seq<Draws>)
    requires FromSetup(c, i, h, hs, draws) && |draws| > 0 && c.srcMac != NO_MAC && c.srcMacCount <= 1
    ensures (forall n :: 0 < n < |hs| ==> hs[n].hh[6..12] == c.srcMac) <==> h.hh[6..12] == c.srcMac
  {
    forall n | 0 < n < |hs|
      ensures hs[n].hh[6..12] == h.hh[6..12]
    {
      NthSourceMac(c, i, h, hs, draws, n);
    }
    assert hs[1].hh[6..12] == h.hh[6..12];
  }

  lemma NoOffset(base: Mac)
    ensures AddOffset(base, 0) == base[1..]
  {
    assert base[1..] == [base[1], base[2], base[3], base[4], base[5]];
  }

  lemma OneOffset(base: Mac)
    ensures AddOffset(base, 1) != base[1..]
  {
    NoOffset(base);
    DistinctOffsetsDistinctMacs(base, 0, 1);
  }

  /** And it need not: after two builds of a run that walks sources, a run with one source
      carries the address that the other has reached. */
  lemma StaleSource(c: Config, i: Interface, h: Headers, hs: seq<Headers>, draws: seq<Draws>, j: Interface)
    requires FromSetup(c, i, h, hs, draws) && |draws| >= 2 && c.srcMacCount == 2 && !c.srcMacRandom
    requires c.srcMac != NO_MAC && h.hh[6..12] == c.srcMac && 1 <= j.txQueues
    ensures var d := SetupConfig(c, i).(srcMacCount := 1);
            d.srcMac == c.srcMac && FoundSource(d, j, hs[2]) != d.srcMac
  {
    NthSourceMac(c, i, h, hs, draws, 2);
    OneOffset(c.srcMac);
    assert hs[2].hh[6..12][1..] == AddOffset(c.srcMac, 1);
  }

  // ---- Addresses, sizes and queues ----

  /** The source that packets carry: from the configured range; without one, the interface's
      address; and without that, 0. */
  lemma NthSource(c: Config, i: Interface, h: Headers, hs: seq<Headers>, draws: seq<Draws>, n: nat)
    requires FromSetup(c, i, h, hs, draws) && 0 < n < |hs| && !c.ipv6
    ensures if i.hasSrc then RangeIs(i.srcMin, i.srcMax, c.srcRandom, n, draws[n - 1].saddr, hs[n].saddr)
            else hs[n].saddr == if i.hasAddr then i.addr else 0
  {
    SetupIsStart(c, i, h, hs, draws);
    NthSourceAndSizeAre(SetupConfig(c, i), hs, draws, n);
  }

  /** Destinations come from the configured range. */
  lemma NthDestination(c: Config, i: Interface, h: Headers, hs: seq<Headers>, draws: seq<Draws>, n: nat)
    requires FromSetup(c, i, h, hs, draws) && 0 < n < |hs| && !c.ipv6
    ensures var d := c.(flow := c.flow.(dstMin := i.dstMin, dstMax := i.dstMax));
            DestinationIs(d, hs[0], n, draws[n - 1], hs[n].table.daddr)
  {
    SetupIsStart(c, i, h, hs, draws);
    NthDestinationIs(SetupConfig(c, i), hs, draws, n);
  }

  /** The size that stands for none: all headers and the overhead of the last run. */
  function LowestSize(ipv6: bool, overhead: u16): nat { (if ipv6 then 78 else 58) + overhead }

  /** Sizes come from the configured range; a minimum of 0 becomes the lowest size, and a
      maximum below the minimum becomes the minimum. */
  lemma NthSizeIs(c: Config, i: Interface, h: Headers, hs: seq<Headers>, draws: seq<Draws>, n: nat)
    requires FromSetup(c, i, h, hs, draws) && 0 < n < |hs|
    ensures var lo := if c.minSize == 0 then LowestSize(c.ipv6, i.overhead) else c.minSize;
            var hi := if c.maxSize < lo then lo else c.maxSize;
            RangeIs(lo, hi, c.sizeRandom, n, draws[n - 1].size, hs[n].size)
  {
    SetupIsStart(c, i, h, hs, draws);
    NthSourceAndSizeAre(SetupConfig(c, i), hs, draws, n);
  }

  lemma NthPortsFromSetup(c: Config, i: Interface, h: Headers, hs: seq<Headers>, draws: seq<Draws>, n: nat)
    requires FromSetup(c, i, h, hs, draws) && 0 < n < |hs|
    ensures PortIs(c.udpSrcMin, c.udpSrcMax, c.udpSrcRandom, n, draws[n - 1].udpSrc, hs[n].udpSrc)
    ensures PortIs(c.udpDstMin, c.udpDstMax, c.udpDstRandom, n, draws[n - 1].udpDst, hs[n].udpDst)
  {
    SetupIsStart(c, i, h, hs, draws);
    NthPortsAre(SetupConfig(c, i), hs, draws, n);
  }

  /** A limit that names an existing queue stays; any other becomes the last queue, or 0 when
      there is none. */
  lemma LimitIs(q: u16, txQueues: nat)
    ensures q < txQueues ==> Clamp(q, txQueues) == q
    ensures 0 < txQueues <= q ==> Clamp(q, txQueues) == txQueues - 1
    ensures txQueues == 0 ==> Clamp(q, txQueues) == 0
  {
  }

  lemma SetupQueues(c: Config, i: Interface)
    ensures var d := SetupConfig(c, i);
            && d.txQueues == i.txQueues && d.queueRandom == c.queueRandom && d.queueCpu == c.queueCpu
            && d.queueMin == Clamp(c.queueMin, i.txQueues) && d.queueMax == Clamp(c.queueMax, i.txQueues)
  {
  }

  /** Queues are chosen between these limits, from the queue the last run has left. */
  lemma NthQueueFromSetup(c: Config, i: Interface, h: Headers, hs: seq<Headers>, draws: seq<Draws>, n: nat, d: Config)
    requires FromSetup(c, i, h, hs, draws) && 0 < n < |hs|
    requires d.txQueues == i.txQueues && d.queueRandom == c.queueRandom && d.queueCpu == c.queueCpu
    requires d.queueMin == Clamp(c.queueMin, i.txQueues) && d.queueMax == Clamp(c.queueMax, i.txQueues)
    ensures QueueIs(d, h.queue, n, draws[n - 1], hs[n].queue)
  {
    SetupIsStart(c, i, h, hs, draws);
    SetupQueues(c, i);
    NthQueueIs(SetupConfig(c, i), hs, draws, n);
  }

  /** The IPv6 source is the configured one; without one, the link address, if there is one. */
  lemma NthIn6FromSetup(c: Config, i: Interface, h: Headers, hs: seq<Headers>, draws: seq<Draws>, n: nat)
    requires FromSetup(c, i, h, hs, draws) && 0 < n < |hs| && c.ipv6
    ensures hs[n].in6.src == if h.in6.src == UNSPECIFIED && i.linkAddr.Some? then i.linkAddr.value else h.in6.src
    ensures hs[n].in6.dst == if c.minIn6 == UNSPECIFIED then h.in6.dst
                             else DrawIn6(c.minIn6, c.maxIn6, draws[n - 1].daddr6)
  {
    NthIn6Is(SetupConfig(c, i), hs, draws, n);
  }
}
