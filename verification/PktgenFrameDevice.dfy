/** The packet-building part of struct pktgen_dev: the header and stack fields together. */
module PktgenFrameDevice {
  import opened Basics
  import opened PktgenHeaders
  import opened PktgenHeaderDevice
  import opened PktgenStack
  import opened PktgenStackDevice
  import opened PktgenPayload
  import opened PktgenSkb
  import opened PktgenFrame

  class FrameDevice {
    const headers: HeaderDevice
    const stack: StackDevice
    const page: nat
    const maxFrags: nat
    var overhead: nat
    var ipId: u16
    var nfrags: int

    constructor (headers: HeaderDevice, stack: StackDevice, page: nat, maxFrags: nat)
      requires headers.Valid() && stack.Valid() && 0 < maxFrags <= page
      ensures this.headers == headers && this.stack == stack && this.page == page && this.maxFrags == maxFrags
      ensures Valid() && overhead == 0 && ipId == 0 && nfrags == 0
    {
      this.headers, this.stack, this.page, this.maxFrags := headers, stack, page, maxFrags;
      overhead, ipId, nfrags := 0, 0, 0;
    }

    function View(): Builder
      reads this, headers, headers.flows, headers.hh, stack, stack.labels
    {
      Builder(headers.cfg, headers.View(), stack.View(), overhead, ipId, nfrags, page, maxFrags)
    }

    ghost predicate Valid()
      reads this, headers, headers.flows, headers.hh, stack, stack.labels
    {
      PktgenFrame.Valid(View())
    }

    /** set_pkt_overhead, when a run starts. */
    method SetPktOverhead()
      requires Valid()
      modifies this`overhead
      ensures View() == old(View()).(overhead := Overhead(stack.View()))
    {
      overhead := 0;
      overhead := overhead + stack.nrLabels * 4;
      overhead := overhead + if stack.vlanId == OFF then 0 else 4;
      overhead := overhead + if stack.svlanId == OFF then 0 else 4;
    }

    /** Starts a run: addresses and current values first, then the overhead. */
    method SetupRun(i: Interface)
      requires Valid() && 1 <= i.txQueues
      modifies this`overhead, headers, headers.hh
      ensures Valid() && overhead == Overhead(stack.View()) && Started(headers.cfg, headers.View())
      ensures View() == old(View()).(cfg := SetupConfig(old(headers.cfg), i),
                                     headers := SetupHeaders(old(headers.cfg), i, old(headers.View())),
                                     overhead := Overhead(stack.View()))
    {
      SetupStarts(headers.cfg, i, headers.View());
      headers.SetupInject(i);
      SetPktOverhead();
    }

    method ModHeadersAndStack(a: BuildInput)
      requires Valid()
      modifies headers, headers.flows, headers.hh, stack, stack.labels
      ensures Valid() && headers.cfg == old(headers.cfg)
      ensures headers.View() == NextHeaders(headers.cfg, old(headers.View()), a.draws)
      ensures stack.View() == Randomize(old(stack.View()), a.stackDraws)
    {
      headers.ModCurHeaders(a.draws);
      stack.ModStack(a.stackDraws);
    }

    /** Builds one packet, or reports that there is no memory. */
    method FillPacket(a: BuildInput, number: u32) returns (r: Option<Packet>)
      requires Valid()
      modifies this`ipId, headers, headers.flows, headers.hh, stack, stack.labels
      ensures Valid() && View() == PktgenFrame.FillPacket(old(View()), a, number).0
      ensures r == PktgenFrame.FillPacket(old(View()), a, number).1
    {
      ghost var b := View();
      ModHeadersAndStack(a);
      FillIs(b, a, number);
      if !a.gotSkb { return None; }
      var pkt := Assemble(a, number);
      AssembledBefore(b, View(), a, number);
      if !headers.cfg.ipv6 { ipId := (ipId + 1) % TWO_16; }
      r := Some(pkt);
    }

    /** A new buffer with room for the headers, and the payload in place. */
    method FillBuffer(stackLen: nat, a: BuildInput, number: u32) returns (datalen: nat, linear: nat, skb: Skb)
      requires 0 < maxFrags <= page
      ensures datalen == DataLen(headers.size, headers.cfg.ipv6, overhead) && fresh(skb)
      ensures skb.magic == PKTGEN_MAGIC && skb.seqNum == number && skb.sec == a.sec && skb.usec == a.usec
      ensures var p := Fill(datalen - PGH_SIZE, nfrags, page, maxFrags, a.gotPage);
              && linear == p.linear && skb.frags == p.frags
              && skb.len == 14 + stackLen + IpHeader(headers.cfg.ipv6) + 8 + PGH_SIZE + p.linear + Sum(p.frags)
    {
      skb := new Skb();
      skb.Put(14);
      skb.Put(stackLen);
      skb.Put(IpHeader(headers.cfg.ipv6) + 8);
      var room := Signed(headers.size - 14 - IpHeader(headers.cfg.ipv6) - 8 - overhead);
      datalen := if room < 0 || room < PGH_SIZE then PGH_SIZE else room;
      ghost var p := Fill(datalen - PGH_SIZE, nfrags, page, maxFrags, a.gotPage);
      var before := skb.len;
      skb.Finalize(datalen, nfrags, page, maxFrags, a.gotPage, number, a.sec, a.usec);
      linear := skb.len - before - PGH_SIZE - skb.dataLen;
      assert skb.frags == p.frags;
    }

    /** Writes one packet into a new buffer, outermost header first. */
    method Assemble(a: BuildInput, number: u32) returns (p: Packet)
      requires Valid()
      ensures p == BuildPacket(View(), headers.View(), stack.View(), a, number)
    {
      var ipv6 := headers.cfg.ipv6;
      var protocol, bytes := stack.PushStack(EtherType(ipv6));
      var datalen, linear, skb := FillBuffer(|bytes|, a, number);
      p := WriteHeaders(protocol, bytes, datalen, linear, skb, a, number);
    }

    /** The headers in front of a buffer filled for this build. */
    method WriteHeaders(protocol: u16, bytes: seq<u8>, datalen: nat, linear: nat, skb: Skb,
                        ghost a: BuildInput, ghost number: u32) returns (p: Packet)
      requires headers.hh.Length == 14
      requires skb.magic == PKTGEN_MAGIC && skb.seqNum == number && skb.sec == a.sec && skb.usec == a.usec
      ensures p == PacketOf(headers.View(), headers.cfg.ipv6, protocol, bytes, datalen, ipId,
                            Payload(linear, skb.frags), skb.len, a, number)
    {
      p := Packet(headers.hh[..12], protocol, bytes,
                  (if headers.cfg.ipv6 then 8 + datalen else 20 + 8 + datalen) % TWO_16,
                  ipId, headers.saddr, headers.daddr, headers.in6,
                  headers.udpSrc, headers.udpDst, (datalen + 8) % TWO_16,
                  headers.queue, Payload(linear, skb.frags), skb.len,
                  skb.magic, skb.seqNum, skb.sec, skb.usec);
    }
  }

  lemma FillIs(b: Builder, a: BuildInput, number: u32)
    requires PktgenFrame.Valid(b)
    ensures var h := NextHeaders(b.cfg, b.headers, a.draws);
            var s := Randomize(b.stack, a.stackDraws);
            var moved := b.(headers := h, stack := s);
            && StackInv(s)
            && PktgenFrame.FillPacket(b, a, number)
               == if !a.gotSkb then (moved, None)
                  else (moved.(ipId := if b.cfg.ipv6 then b.ipId else (b.ipId + 1) % TWO_16),
                        Some(BuildPacket(b, h, s, a, number)))
  {
  }

  /** What a packet is built from besides headers and stack is the same before and after these
      have moved. */
  lemma AssembledBefore(b: Builder, c: Builder, a: BuildInput, number: u32)
    requires PktgenFrame.Valid(c) && c == b.(headers := c.headers, stack := c.stack)
    ensures BuildPacket(c, c.headers, c.stack, a, number) == BuildPacket(b, c.headers, c.stack, a, number)
  {
  }
}
