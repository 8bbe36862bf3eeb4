/** Every header field of the n-th build of a run, in every mode, and what setup gives a run to
    start from. */
module PktgenHeaderLaws {
  import opened ModArith
  import opened Basics
  import opened PktgenOdometer
  import opened PktgenFlows
  import opened PktgenFlowModes
  import opened PktgenHeaders
  import opened PktgenIn6

  // ---- The n-th value of each kind of field, from 1 ----

  /** A port: the only one of its range, the draw, or the n-th in order; the upper end is left
      out. */
  predicate PortIs(lo: u16, hi: u16, random: bool, n: nat, draw: u32, v: u16) {
    v == if lo >= hi then lo else if random then lo + draw % (hi - lo) else lo + n % (hi - lo)
  }

  /** An address or a size: in order the upper end takes part, at random it does not. */
  predicate RangeIs(lo: u32, hi: u32, random: bool, n: nat, draw: u32, v: u32) {
    if lo >= hi then v == lo
    else if random then v == lo + draw % (hi - lo)
    else WrapSafe(lo, hi) ==> v == lo + n % (hi - lo + 1)
  }

  /** The five low bytes of a MAC address. */
  predicate LowBytesAre(base: Mac, count: u32, random: bool, n: nat, draw: u32, before: seq<u8>, v: seq<u8>)
    requires n > 0
  {
    v == if count <= 1 then before
         else if random then AddOffset(base, draw % count) else AddOffset(base, (n - 1) % count)
  }

  /** A transmit queue: that of the CPU, the one the run has found, a draw, or the next in
      order; never one that does not exist. */
  predicate QueueIs(c: Config, first: u16, n: nat, d: Draws, v: u16)
    requires c.txQueues > 0 && n > 0
  {
    if c.queueCpu then v == d.cpu % c.txQueues
    else if c.queueMin > c.queueMax then v == first % c.txQueues
    else if c.queueRandom then v == (c.queueMin + d.queue % (c.queueMax - c.queueMin + 1)) % c.txQueues
    else QueuesInOrder(c) ==> v == QueueAfter(c.queueMin, c.queueMax, NextQueue(c.queueMin, c.queueMax, first), n - 1)
  }

  lemma StepAtIs(c: Config, hs: seq<Headers>, draws: seq<Draws>, n: nat)
    requires IsHeaderRun(c, hs, draws) && 0 < n < |hs|
    ensures hs[n] == NextHeaders(c, hs[n - 1], draws[n - 1])
  {
    assert hs[n - 1 + 1] == NextHeaders(c, hs[n - 1], draws[n - 1]);
  }

  // ---- Ports, source and size ----

  /** Fields whose range has one value keep it. */
  lemma {:induction false} SingleValues(c: Config, hs: seq<Headers>, draws: seq<Draws>, n: nat)
    requires FromStart(c, hs, draws) && n < |hs|
    ensures c.udpSrcMin >= c.udpSrcMax ==> hs[n].udpSrc == c.udpSrcMin
    ensures c.udpDstMin >= c.udpDstMax ==> hs[n].udpDst == c.udpDstMin
    ensures c.srcMin >= c.srcMax || c.ipv6 ==> hs[n].saddr == c.srcMin
    ensures c.minSize >= c.maxSize ==> hs[n].size == c.minSize
  {
    if n > 0 {
      SingleValues(c, hs, draws, n - 1);
      StepAtIs(c, hs, draws, n);
    }
  }

  lemma RandomPorts(c: Config, h: Headers, d: Draws)
    requires Ready(c, h)
    ensures var r := NextHeaders(c, h, d);
            && (c.udpSrcMin < c.udpSrcMax && c.udpSrcRandom ==>
                  r.udpSrc == c.udpSrcMin + d.udpSrc % (c.udpSrcMax - c.udpSrcMin))
            && (c.udpDstMin < c.udpDstMax && c.udpDstRandom ==>
                  r.udpDst == c.udpDstMin + d.udpDst % (c.udpDstMax - c.udpDstMin))
  {
    if c.udpSrcMin < c.udpSrcMax {
      RemIsModulo(d.udpSrc, c.udpSrcMax - c.udpSrcMin);
    }
    if c.udpDstMin < c.udpDstMax {
      RemIsModulo(d.udpDst, c.udpDstMax - c.udpDstMin);
    }
  }

  lemma RandomSourceAndSize(c: Config, h: Headers, d: Draws)
    requires Ready(c, h)
    ensures var r := NextHeaders(c, h, d);
            && (c.srcMin < c.srcMax && c.srcRandom && !c.ipv6 ==>
                  r.saddr == c.srcMin + d.saddr % (c.srcMax - c.srcMin))
            && (c.minSize < c.maxSize && c.sizeRandom ==> r.size == c.minSize + d.size % (c.maxSize - c.minSize))
  {
    if c.srcMin < c.srcMax {
      RemIsModulo(d.saddr, c.srcMax - c.srcMin);
    }
    if c.minSize < c.maxSize {
      RemIsModulo(d.size, c.maxSize - c.minSize);
    }
  }

  /** The ports of the n-th build, in every mode. */
  lemma NthPortsAre(c: Config, hs: seq<Headers>, draws: seq<Draws>, n: nat)
    requires FromStart(c, hs, draws) && 0 < n < |hs|
    ensures PortIs(c.udpSrcMin, c.udpSrcMax, c.udpSrcRandom, n, draws[n - 1].udpSrc, hs[n].udpSrc)
    ensures PortIs(c.udpDstMin, c.udpDstMax, c.udpDstRandom, n, draws[n - 1].udpDst, hs[n].udpDst)
  {
    SingleValues(c, hs, draws, n);
    NthPorts(c, hs, draws, n);
    StepAtIs(c, hs, draws, n);
    RandomPorts(c, hs[n - 1], draws[n - 1]);
    if c.udpSrcMin < c.udpSrcMax {
      RemIsModulo(n, c.udpSrcMax - c.udpSrcMin);
    }
    if c.udpDstMin < c.udpDstMax {
      RemIsModulo(n, c.udpDstMax - c.udpDstMin);
    }
  }

  /** The IPv4 source and the size of the n-th build, in every mode. */
  lemma NthSourceAndSizeAre(c: Config, hs: seq<Headers>, draws: seq<Draws>, n: nat)
    requires FromStart(c, hs, draws) && 0 < n < |hs|
    ensures !c.ipv6 ==> RangeIs(c.srcMin, c.srcMax, c.srcRandom, n, draws[n - 1].saddr, hs[n].saddr)
    ensures RangeIs(c.minSize, c.maxSize, c.sizeRandom, n, draws[n - 1].size, hs[n].size)
  {
    SingleValues(c, hs, draws, n);
    NthSourceAndSize(c, hs, draws, n);
    StepAtIs(c, hs, draws, n);
    RandomSourceAndSize(c, hs[n - 1], draws[n - 1]);
    if c.srcMin < c.srcMax {
      RemIsModulo(n, c.srcMax - c.srcMin + 1);
    }
    if c.minSize < c.maxSize {
      RemIsModulo(n, c.maxSize - c.minSize + 1);
    }
  }

  // ---- MAC addresses ----

  lemma RandomSrcMac(c: Config, h: Headers, draw: u32)
    requires |h.hh| == 14 && c.srcMacCount > 1 && c.srcMacRandom
    ensures StepSrcMac(c, h, draw).hh[7..12] == AddOffset(c.srcMac, draw % c.srcMacCount)
  {
    RemIsModulo(draw, c.srcMacCount);
    SetSrcMacBytes(c, h.hh, draw % c.srcMacCount);
  }

  lemma RandomDstMac(c: Config, h: Headers, draw: u32)
    requires |h.hh| == 14 && c.dstMacCount > 1 && c.dstMacRandom
    ensures StepDstMac(c, h, draw).hh[1..6] == AddOffset(c.dstMac, draw % c.dstMacCount)
  {
    RemIsModulo(draw, c.dstMacCount);
    SetDstMacBytes(c, h.hh, draw % c.dstMacCount);
  }

  lemma SameTail(a: seq<u8>, b: seq<u8>)
    requires |a| == |b| == 14 && a[6..] == b[6..]
    ensures a[7..12] == b[7..12]
  {
    assert a[7..12] == a[6..][1..6] && b[7..12] == b[6..][1..6];
  }

  lemma DstKeepsSrc(c: Config, h: Headers, draw: u32)
    requires |h.hh| == 14
    ensures StepDstMac(c, h, draw).hh[7..12] == h.hh[7..12]
  {
    if c.dstMacCount > 1 {
      SetDstMacBytes(c, h.hh, StepOffset(c.dstMacCount, c.dstMacRandom, h.dstMacOffset, draw).0);
      SameTail(StepDstMac(c, h, draw).hh, h.hh);
    }
  }

  lemma RandomMacs(c: Config, h: Headers, d: Draws)
    requires Ready(c, h)
    ensures var r := NextHeaders(c, h, d).hh;
            && (c.srcMacCount > 1 && c.srcMacRandom ==> r[7..12] == AddOffset(c.srcMac, d.srcMac % c.srcMacCount))
            && (c.dstMacCount > 1 && c.dstMacRandom ==> r[1..6] == AddOffset(c.dstMac, d.dstMac % c.dstMacCount))
  {
    var s := StepSrcMac(c, h, d.srcMac);
    DstKeepsSrc(c, s, d.dstMac);
    if c.srcMacCount > 1 && c.srcMacRandom {
      RandomSrcMac(c, h, d.srcMac);
    }
    if c.dstMacCount > 1 && c.dstMacRandom {
      RandomDstMac(c, s, d.dstMac);
    }
  }

  lemma {:induction false} UnwalkedBytes(c: Config, hs: seq<Headers>, draws: seq<Draws>, n: nat)
    requires IsHeaderRun(c, hs, draws) && n < |hs|
    ensures c.srcMacCount <= 1 ==> hs[n].hh[7..12] == hs[0].hh[7..12]
    ensures c.dstMacCount <= 1 ==> hs[n].hh[1..6] == hs[0].hh[1..6]
  {
    if n > 0 {
      UnwalkedBytes(c, hs, draws, n - 1);
      StepAtIs(c, hs, draws, n);
      BuildSetsMacs(c, hs[n - 1], draws[n - 1]);
    }
  }

  /** The low bytes of both addresses of the n-th build, in every mode. */
  lemma NthMacsAre(c: Config, hs: seq<Headers>, draws: seq<Draws>, n: nat)
    requires FromStart(c, hs, draws) && 0 < n < |hs|
    ensures var d := draws[n - 1];
            && LowBytesAre(c.srcMac, c.srcMacCount, c.srcMacRandom, n, d.srcMac, hs[0].hh[7..12], hs[n].hh[7..12])
            && LowBytesAre(c.dstMac, c.dstMacCount, c.dstMacRandom, n, d.dstMac, hs[0].hh[1..6], hs[n].hh[1..6])
  {
    UnwalkedBytes(c, hs, draws, n);
    NthMacs(c, hs, draws, n);
    StepAtIs(c, hs, draws, n);
    RandomMacs(c, hs[n - 1], draws[n - 1]);
    if c.srcMacCount > 1 {
      RemIsModulo(n - 1, c.srcMacCount);
    }
    if c.dstMacCount > 1 {
      RemIsModulo(n - 1, c.dstMacCount);
    }
  }

  // ---- Queues ----

  lemma QueueChoices(c: Config, h: Headers, d: Draws)
    requires Ready(c, h)
    ensures var q := NextHeaders(c, h, d).queue;
            && (c.queueCpu ==> q == d.cpu % c.txQueues)
            && (!c.queueCpu && c.queueMin > c.queueMax ==> q == h.queue % c.txQueues)
            && (!c.queueCpu && c.queueMin <= c.queueMax && c.queueRandom ==>
                  q == (c.queueMin + d.queue % (c.queueMax - c.queueMin + 1)) % c.txQueues)
  {
    RemIsModulo(d.cpu, c.txQueues);
    RemIsModulo(h.queue, c.txQueues);
    if c.queueMin <= c.queueMax {
      var pick := Rem(d.queue, c.queueMax - c.queueMin + 1);
      RemIsModulo(d.queue, c.queueMax - c.queueMin + 1);
      RemIsModulo(pick + c.queueMin, c.txQueues);
    }
  }

  lemma {:induction false} UnmovedQueue(c: Config, hs: seq<Headers>, draws: seq<Draws>, n: nat)
    requires IsHeaderRun(c, hs, draws) && 0 < n < |hs| && !c.queueCpu && c.queueMin > c.queueMax
    ensures hs[n].queue == hs[0].queue % c.txQueues
  {
    StepAtIs(c, hs, draws, n);
    QueueChoices(c, hs[n - 1], draws[n - 1]);
    if n > 1 {
      UnmovedQueue(c, hs, draws, n - 1);
      DivModUnique(0, hs[0].queue % c.txQueues, c.txQueues);
    }
  }

  /** The queue of the n-th build, in every mode. */
  lemma NthQueueIs(c: Config, hs: seq<Headers>, draws: seq<Draws>, n: nat)
    requires FromStart(c, hs, draws) && 0 < n < |hs|
    ensures QueueIs(c, hs[0].queue, n, draws[n - 1], hs[n].queue)
  {
    StepAtIs(c, hs, draws, n);
    QueueChoices(c, hs[n - 1], draws[n - 1]);
    if c.queueMin > c.queueMax && !c.queueCpu {
      UnmovedQueue(c, hs, draws, n);
    }
    if QueuesInOrder(c) {
      NthQueue(c, hs, draws, n);
    }
  }

  // ---- IPv4 destinations ----

  /** The destination of the n-th build: without flows the n-th in order or the draw; with
      sequential flows that of the flow of packet n. */
  ghost predicate DestinationIs(c: Config, first: Headers, n: nat, d: Draws, v: u32)
    requires n > 0
  {
    var f := c.flow;
    && (f.cflows == 0 && f.dstMin >= f.dstMax ==> v == f.dstMin)
    && (f.cflows == 0 && f.dstMin < f.dstMax && !f.dstRandom && WrapSafe(f.dstMin, f.dstMax) ==>
          v == f.dstMin + n % (f.dstMax - f.dstMin + 1))
    && (f.cflows == 0 && f.dstMin < f.dstMax && f.dstRandom && FirstRoutable(f, d.daddr) < |d.daddr| ==>
          v == f.dstMin + d.daddr[FirstRoutable(f, d.daddr)] % (f.dstMax - f.dstMin))
    && (Sequential(f) && FreshFlows(first) ==> v == f.dstMin + ((n - 1) / f.lflow + 1) % (f.dstMax - f.dstMin + 1))
  }

  lemma {:induction false} SingleDestination(c: Config, hs: seq<Headers>, draws: seq<Draws>, n: nat)
    requires FromStart(c, hs, draws) && n < |hs| && c.flow.cflows == 0 && c.flow.dstMin >= c.flow.dstMax
    ensures hs[n].table.daddr == c.flow.dstMin
  {
    if n > 0 {
      SingleDestination(c, hs, draws, n - 1);
      StepAtIs(c, hs, draws, n);
    }
  }

  lemma FlowDestination(c: Config, hs: seq<Headers>, draws: seq<Draws>, n: nat)
    requires FromStart(c, hs, draws) && 0 < n < |hs| && !c.ipv6 && Sequential(c.flow) && FreshFlows(hs[0])
    ensures hs[n].table.daddr == c.flow.dstMin + ((n - 1) / c.flow.lflow + 1) % (c.flow.dstMax - c.flow.dstMin + 1)
  {
    NthFlow(c, hs, draws, n);
    QuotIsDivision(n - 1, c.flow.lflow);
    RemIsModulo((n - 1) / c.flow.lflow + 1, c.flow.dstMax - c.flow.dstMin + 1);
  }

  lemma FlowlessDestination(c: Config, hs: seq<Headers>, draws: seq<Draws>, n: nat)
    requires FromStart(c, hs, draws) && 0 < n < |hs| && !c.ipv6 && c.flow.cflows == 0 && c.flow.dstMin < c.flow.dstMax
    ensures DestinationIs(c, hs[0], n, draws[n - 1], hs[n].table.daddr)
  {
    var f, ts, ds := c.flow, Tables(hs), FlowDraws(draws);
    RunFlows(c, hs, draws);
    if f.dstRandom {
      if FirstRoutable(f, draws[n - 1].daddr) < |draws[n - 1].daddr| {
        DrawnWithoutFlows(f, ts, ds, n - 1);
      }
    } else if WrapSafe(f.dstMin, f.dstMax) {
      NthWithoutFlows(f, ts, ds, n);
      RemIsModulo(n, f.dstMax - f.dstMin + 1);
    }
  }

  lemma NthDestinationIs(c: Config, hs: seq<Headers>, draws: seq<Draws>, n: nat)
    requires FromStart(c, hs, draws) && 0 < n < |hs| && !c.ipv6
    ensures DestinationIs(c, hs[0], n, draws[n - 1], hs[n].table.daddr)
  {
    if c.flow.cflows == 0 {
      if c.flow.dstMin >= c.flow.dstMax {
        SingleDestination(c, hs, draws, n);
      } else {
        FlowlessDestination(c, hs, draws, n);
      }
    } else if Sequential(c.flow) && FreshFlows(hs[0]) {
      FlowDestination(c, hs, draws, n);
    }
  }

  /** With flows, sequential or random, a packet goes to the destination its flow keeps. */
  lemma NthInItsFlow(c: Config, hs: seq<Headers>, draws: seq<Draws>, n: nat)
    requires IsHeaderRun(c, hs, draws) && 0 < n < |hs| && !c.ipv6 && c.flow.cflows > 0
    ensures var t := hs[n].table;
            t.curfl < |t.flows| && t.flows[t.curfl].seen && t.daddr == t.flows[t.curfl].daddr
  {
    StepAtIs(c, hs, draws, n);
  }

  // ---- IPv6 ----

  /** The source stays, and the destination is drawn if a minimum is set. */
  lemma {:induction false} NthIn6Is(c: Config, hs: seq<Headers>, draws: seq<Draws>, n: nat)
    requires IsHeaderRun(c, hs, draws) && 0 < n < |hs|
    ensures hs[n].in6.src == hs[0].in6.src
    ensures hs[n].in6.dst == if c.ipv6 && c.minIn6 != UNSPECIFIED then DrawIn6(c.minIn6, c.maxIn6, draws[n - 1].daddr6)
                             else hs[0].in6.dst
  {
    StepAtIs(c, hs, draws, n);
    if n > 1 {
      NthIn6Is(c, hs, draws, n - 1);
    }
  }

  /** The slots of an IPv6 device with sequential flows: build n belongs to slot
      ((n - 1) / lflow) mod cflows, and no flow is ever opened. */
  lemma {:induction false} NthSlotOfIn6(c: Config, hs: seq<Headers>, draws: seq<Draws>, n: nat)
    requires FromStart(c, hs, draws) && 0 < n < |hs| && c.ipv6 && FreshFlows(hs[0])
    requires c.flow.sequential && c.flow.cflows > 0 && c.flow.lflow > 0
    ensures var (m, s, j) := Position(c.flow.cflows, c.flow.lflow, 0, 1, n - 1);
            InSlotOnly(c.flow, hs[n].table, s, j) && 1 <= j && hs[n].table.nflows == 0
  {
    StepAtIs(c, hs, draws, n);
    if n == 1 {
      PacketOfIn6(c.flow, hs[0].table, draws[0].flow, 0, 0);
    } else {
      NthSlotOfIn6(c, hs, draws, n - 1);
      var (m, s, j) := Position(c.flow.cflows, c.flow.lflow, 0, 1, n - 2);
      PacketOfIn6(c.flow, hs[n - 1].table, draws[n - 1].flow, s, j);
    }
  }

  lemma NthSlotIs(c: Config, hs: seq<Headers>, draws: seq<Draws>, n: nat)
    requires FromStart(c, hs, draws) && 0 < n < |hs| && c.ipv6 && FreshFlows(hs[0])
    requires c.flow.sequential && c.flow.cflows > 0 && c.flow.lflow > 0
    ensures hs[n].table.curfl == (n - 1) / c.flow.lflow % c.flow.cflows && hs[n].table.nflows == 0
  {
    NthSlotOfIn6(c, hs, draws, n);
    PositionClosedForm(c.flow.cflows, c.flow.lflow, 0, 1, n - 1);
    QuotIsDivision(n - 1, c.flow.lflow);
    RemIsModulo(Quot(n - 1, c.flow.lflow), c.flow.cflows);
  }
}
