/** The header fields of struct pktgen_dev, updated in place by every build. */
module PktgenHeaderDevice {
  import opened ModArith
  import opened Basics
  import opened PktgenOdometer
  import opened PktgenFlows
  import opened PktgenIn6
  import opened PktgenHeaders

  class HeaderDevice {
    var cfg: Config
    const flows: array<Flow>
    const hh: array<u8>
    var curfl: u32
    var nflows: u32
    var daddr: u32
    var srcMacOffset: u32
    var dstMacOffset: u32
    var udpSrc: u16
    var udpDst: u16
    var saddr: u32
    var size: u32
    var queue: u16
    var in6: In6Pair

    /** A new device: every flow slot and every current value is zero. */
    constructor (cfg: Config, slots: nat)
      requires 0 < slots && cfg.flow.cflows <= slots && 1 <= cfg.txQueues
      ensures Valid() && fresh(flows) && fresh(hh) && this.cfg == cfg && flows.Length == slots
      ensures forall i :: 0 <= i < slots ==> flows[i] == Flow(0, false, 0)
      ensures curfl == 0 && queue == 0
    {
      this.cfg := cfg;
      flows := new Flow[slots](_ => Flow(0, false, 0));
      hh := new u8[14](_ => 0);
      curfl, nflows, daddr, srcMacOffset, dstMacOffset := 0, 0, 0, 0, 0;
      udpSrc, udpDst, saddr, size, queue := 0, 0, 0, 0, 0;
      in6 := In6Pair(UNSPECIFIED, UNSPECIFIED);
    }

    function View(): Headers
      reads this, flows, hh
    {
      Headers(FlowTable(flows[..], curfl, nflows, daddr), hh[..], srcMacOffset, dstMacOffset,
              udpSrc, udpDst, saddr, size, queue, in6)
    }

    predicate Valid()
      reads this, flows, hh
    {
      Ready(cfg, View())
    }

    /** Chooses the flow slot, resetting the slot of a finished flow. */
    method FPick(draw: u32) returns (flow: nat)
      requires Valid() && cfg.flow.cflows > 0
      modifies this`curfl, flows
      ensures View() == old(View()).(table := Pick(cfg.flow, old(View()).table, draw).0)
      ensures flow == Pick(cfg.flow, old(View()).table, draw).1
    {
      var f: nat := curfl;
      if cfg.flow.sequential {
        if flows[f].count >= cfg.flow.lflow {
          flows[f] := Reset(flows[f]);
          curfl := if curfl + 1 >= cfg.flow.cflows then 0 else curfl + 1;
        }
      } else {
        f := Rem(draw, cfg.flow.cflows);
        curfl := f;
        if flows[f].count > cfg.flow.lflow {
          flows[f] := Reset(flows[f]);
        }
      }
      flow := curfl;
    }

    /** Writes base + mc into the five bytes of hh that follow position `at`, from the last
        byte to the first, carrying as it goes. */
    method WriteMac(at: nat, base: Mac, mc: u32)
      requires Valid() && (at == 0 || at == 6)
      modifies hh
      ensures hh[..] == old(hh[..at + 1]) + AddOffset(base, mc) + old(hh[at + 6..])
    {
      var tmp := base[5] + mc % 256;
      hh[at + 5] := tmp % 256;
      tmp := base[4] + mc / 256 % 256 + tmp / 256;
      hh[at + 4] := tmp % 256;
      tmp := base[3] + mc / 65536 % 256 + tmp / 256;
      hh[at + 3] := tmp % 256;
      tmp := base[2] + mc / 16777216 + tmp / 256;
      hh[at + 2] := tmp % 256;
      tmp := base[1] + tmp / 256;
      hh[at + 1] := tmp % 256;
    }

    method ModSrcMac(draw: u32)
      requires Valid()
      modifies this`srcMacOffset, hh
      ensures View() == StepSrcMac(cfg, old(View()), draw)
    {
      if cfg.srcMacCount > 1 {
        var mc: u32;
        if cfg.srcMacRandom {
          mc := Rem(draw, cfg.srcMacCount);
        } else {
          mc := srcMacOffset;
          srcMacOffset := (srcMacOffset + 1) % TWO_32;
          if srcMacOffset >= cfg.srcMacCount { srcMacOffset := 0; }
        }
        WriteMac(6, cfg.srcMac, mc);
      }
    }

    method ModDstMac(draw: u32)
      requires Valid()
      modifies this`dstMacOffset, hh
      ensures View() == StepDstMac(cfg, old(View()), draw)
    {
      if cfg.dstMacCount > 1 {
        var mc: u32;
        if cfg.dstMacRandom {
          mc := Rem(draw, cfg.dstMacCount);
        } else {
          mc := dstMacOffset;
          dstMacOffset := (dstMacOffset + 1) % TWO_32;
          if dstMacOffset >= cfg.dstMacCount { dstMacOffset := 0; }
        }
        WriteMac(0, cfg.dstMac, mc);
      }
    }

    method ModMacs(srcDraw: u32, dstDraw: u32)
      requires Valid()
      modifies this`srcMacOffset, this`dstMacOffset, hh
      ensures View() == StepDstMac(cfg, StepSrcMac(cfg, old(View()), srcDraw), dstDraw)
    {
      ModSrcMac(srcDraw);
      ModDstMac(dstDraw);
    }

    method ModPorts(srcDraw: u32, dstDraw: u32)
      modifies this`udpSrc, this`udpDst
      ensures View() == old(View()).(
                udpSrc := StepPort(cfg.udpSrcMin, cfg.udpSrcMax, cfg.udpSrcRandom, old(udpSrc), srcDraw),
                udpDst := StepPort(cfg.udpDstMin, cfg.udpDstMax, cfg.udpDstRandom, old(udpDst), dstDraw))
    {
      if cfg.udpSrcMin < cfg.udpSrcMax {
        if cfg.udpSrcRandom {
          udpSrc := Rem(srcDraw, cfg.udpSrcMax - cfg.udpSrcMin) + cfg.udpSrcMin;
        } else {
          udpSrc := (udpSrc + 1) % TWO_16;
          if udpSrc >= cfg.udpSrcMax { udpSrc := cfg.udpSrcMin; }
        }
      }
      if cfg.udpDstMin < cfg.udpDstMax {
        if cfg.udpDstRandom {
          udpDst := Rem(dstDraw, cfg.udpDstMax - cfg.udpDstMin) + cfg.udpDstMin;
        } else {
          udpDst := (udpDst + 1) % TWO_16;
          if udpDst >= cfg.udpDstMax { udpDst := cfg.udpDstMin; }
        }
      }
    }

    method ModSource(draw: u32)
      modifies this`saddr
      ensures View() == old(View()).(saddr := StepRange(cfg.srcMin, cfg.srcMax, cfg.srcRandom, old(saddr), draw))
    {
      if cfg.srcMin < cfg.srcMax {
        var t: u32;
        if cfg.srcRandom {
          t := Rem(draw, cfg.srcMax - cfg.srcMin) + cfg.srcMin;
        } else {
          t := (saddr + 1) % TWO_32;
          if t > cfg.srcMax { t := cfg.srcMin; }
        }
        saddr := t;
      }
    }

    method DrawDestination(draws: seq<u32>)
      requires cfg.flow.dstMin < cfg.flow.dstMax
      modifies this`daddr
      ensures var i := FirstRoutable(cfg.flow, draws);
              daddr == if i < |draws| then Drawn(cfg.flow, draws[i]) else old(daddr)
    {
      var k := 0;
      while k < |draws|
        invariant k <= |draws| && daddr == old(daddr)
        invariant FirstRoutable(cfg.flow, draws) == k + FirstRoutable(cfg.flow, draws[k..])
      {
        var t: u32 := Rem(draws[k], cfg.flow.dstMax - cfg.flow.dstMin) + cfg.flow.dstMin;
        if Routable(t) {
          daddr := t;
          return;
        }
        k := k + 1;
      }
    }

    method ModDestination(flow: nat, draws: seq<u32>)
      requires Valid() && flow < flows.Length
      modifies this`daddr, this`nflows, flows
      ensures View() == old(View()).(table := Destination(cfg.flow, old(View()).table, flow, draws))
    {
      if cfg.flow.cflows > 0 && flows[flow].seen {
        daddr := flows[flow].daddr;
      } else {
        if cfg.flow.dstMin < cfg.flow.dstMax {
          if cfg.flow.dstRandom {
            DrawDestination(draws);
          } else {
            var t := (daddr + 1) % TWO_32;
            if t > cfg.flow.dstMax { t := cfg.flow.dstMin; }
            daddr := t;
          }
        }
        if cfg.flow.cflows > 0 {
          flows[flow] := flows[flow].(seen := true, daddr := daddr);
          nflows := (nflows + 1) % TWO_32;
        }
      }
    }

    /** One word of a random destination. */
    method DrawWord(draws: In6, at: nat) returns (word: seq<bool>)
      requires at + WORD_BITS <= IN6_BITS
      ensures word == DrawIn6(cfg.minIn6, cfg.maxIn6, draws)[at..at + WORD_BITS]
    {
      var lo, hi := cfg.minIn6, cfg.maxIn6;
      word := seq(WORD_BITS, i requires 0 <= i < WORD_BITS => Mix(draws[at + i], lo[at + i], hi[at + i]));
    }

    /** Word by word: a random number, with the minimum's bits set and the maximum's kept. */
    method ModIn6(draws: In6)
      modifies this`in6
      ensures in6 == NextPair(cfg, old(in6), draws)
    {
      if cfg.minIn6 != UNSPECIFIED {
        ghost var drawn := DrawIn6(cfg.minIn6, cfg.maxIn6, draws);
        var at := 0;
        while at < IN6_BITS
          invariant 0 <= at <= IN6_BITS && at % WORD_BITS == 0
          invariant in6.src == old(in6).src && in6.dst[..at] == drawn[..at]
        {
          var word := DrawWord(draws, at);
          assert drawn[..at] + word == drawn[..at + WORD_BITS];
          in6 := in6.(dst := in6.dst[..at] + word + in6.dst[at + WORD_BITS..]);
          at := at + WORD_BITS;
        }
        assert in6.dst == in6.dst[..at] == drawn[..at] == drawn;
      }
    }

    method ModSize(draw: u32)
      modifies this`size
      ensures View() == old(View()).(size := StepRange(cfg.minSize, cfg.maxSize, cfg.sizeRandom, old(size), draw))
    {
      if cfg.minSize < cfg.maxSize {
        var t: u32;
        if cfg.sizeRandom {
          t := Rem(draw, cfg.maxSize - cfg.minSize) + cfg.minSize;
        } else {
          t := (size + 1) % TWO_32;
          if t > cfg.maxSize { t := cfg.minSize; }
        }
        size := t;
      }
    }

    method SetCurQueueMap(draw: u32, cpu: u16)
      requires 1 <= cfg.txQueues
      modifies this`queue
      ensures View() == old(View()).(queue := StepQueue(cfg, old(queue), draw, cpu))
    {
      if cfg.queueCpu {
        queue := cpu;
      } else if cfg.queueMin <= cfg.queueMax {
        var t: u16;
        if cfg.queueRandom {
          t := Rem(draw, cfg.queueMax - cfg.queueMin + 1) + cfg.queueMin;
        } else {
          t := (queue + 1) % TWO_16;
          if t > cfg.queueMax { t := cfg.queueMin; }
        }
        queue := t;
      }
      queue := Rem(queue, cfg.txQueues);
    }

    method CountFlow(flow: nat)
      requires flow < flows.Length
      modifies flows
      ensures View() == old(View()).(table := CountPacket(old(View()).table, flow))
    {
      ghost var slots := flows[..];
      flows[flow] := flows[flow].(count := (flows[flow].count + 1) % TWO_32);
      assert flows[..] == slots[flow := flows[flow]];
    }

    /** The branch for IPv4 or IPv6. */
    method ModAddresses(flow: nat, d: Draws)
      requires Valid() && flow < flows.Length
      modifies this`nflows, this`daddr, this`saddr, this`in6, flows
      ensures View() == old(View()).(
                saddr := StepSource(cfg, old(saddr), d.saddr), in6 := StepIn6(cfg, old(in6), d.daddr6),
                table := if cfg.ipv6 then old(View()).table
                         else Destination(cfg.flow, old(View()).table, flow, d.daddr))
    {
      if !cfg.ipv6 {
        ModSource(d.saddr);
        ModDestination(flow, d.daddr);
      } else {
        ModIn6(d.daddr6);
      }
    }

    /** All header fields move together. */
    method ModCurHeaders(d: Draws)
      requires Valid()
      modifies this`curfl, this`nflows, this`daddr, this`srcMacOffset, this`dstMacOffset,
               this`udpSrc, this`udpDst, this`saddr, this`size, this`queue, this`in6, flows, hh
      ensures Valid() && View() == NextHeaders(cfg, old(View()), d)
    {
      var flow := 0;
      if cfg.flow.cflows > 0 {
        flow := FPick(d.flow);
      }
      ModMacs(d.srcMac, d.dstMac);
      ModPorts(d.udpSrc, d.udpDst);
      ModAddresses(flow, d);
      ModSize(d.size);
      SetCurQueueMap(d.queue, d.cpu);
      CountFlow(flow);
    }

    /** memcpy of one address into the header template. */
    method CopyMac(at: nat, mac: Mac)
      requires hh.Length == 14 && (at == 0 || at == 6)
      modifies hh
      ensures hh[..] == old(hh[..at]) + mac + old(hh[at + 6..])
    {
      ghost var before := hh[..];
      var k := 0;
      while k < 6
        invariant 0 <= k <= 6
        invariant forall j :: 0 <= j < k ==> hh[at + j] == mac[j]
        invariant forall j :: 0 <= j < 14 && !(at <= j < at + k) ==> hh[j] == before[j]
      {
        hh[at + k] := mac[k];
        k := k + 1;
      }
    }

    method WriteDstMac(mac: Mac)
      requires hh.Length == 14
      modifies this`cfg, hh
      ensures (cfg, View()) == CommandDstMac(old(cfg), old(View()), mac)
    {
      CopyMac(0, mac);
      assert hh[..] == mac + old(hh[..])[6..];
      cfg := cfg.(dstMac := mac);
    }

    method WriteSrcMac(mac: Mac)
      requires hh.Length == 14
      modifies this`cfg, hh
      ensures (cfg, View()) == CommandSrcMac(old(cfg), old(View()), mac)
    {
      CopyMac(6, mac);
      assert hh[..] == old(hh[..])[..6] + mac + old(hh[..])[12..];
      cfg := cfg.(srcMac := mac);
    }

    method ResetCurrent()
      modifies this`nflows, this`daddr, this`srcMacOffset, this`dstMacOffset,
               this`udpSrc, this`udpDst, this`saddr, this`size
      ensures View() == ResetValues(cfg, old(View()))
    {
      size := cfg.minSize;
      dstMacOffset, srcMacOffset := 0, 0;
      saddr, daddr := cfg.srcMin, cfg.flow.dstMin;
      udpDst, udpSrc := cfg.udpDstMin, cfg.udpSrcMin;
      nflows := 0;
    }

    /** Takes the interface's link address unless some part of the source is set. */
    method SetSource6(linkAddr: Option<In6>)
      modifies this`in6
      ensures in6 == if old(in6).src == UNSPECIFIED && linkAddr.Some? then old(in6).(src := linkAddr.value)
                     else old(in6)
    {
      var i, found := 0, false;
      while i < IN6_BITS && !found
        invariant 0 <= i <= IN6_BITS && (found ==> in6.src != UNSPECIFIED)
        invariant !found ==> forall k :: 0 <= k < i ==> !in6.src[k]
      {
        found := in6.src[i];
        i := i + 1;
      }
      if !found {
        assert in6.src == UNSPECIFIED;
        if linkAddr.Some? { in6 := in6.(src := linkAddr.value); }
      }
    }

    /** The interface's address becomes the source if none is configured. */
    method WriteAddresses(i: Interface)
      requires hh.Length == 14
      modifies hh
      ensures hh[..] == SetAddresses(cfg, i, old(hh[..]))
    {
      ghost var before := hh[..];
      if cfg.srcMac == [0, 0, 0, 0, 0, 0] { CopyMac(6, i.mac); }
      assert hh[12..] == before[12..];
      assert hh[6..12] == if cfg.srcMac == [0, 0, 0, 0, 0, 0] then i.mac else before[6..12];
      assert hh[6..] == hh[6..12] + hh[12..];
      CopyMac(0, cfg.dstMac);
    }

    /** Reads the interface and sets the current values for a run. */
    method SetupInject(i: Interface)
      requires hh.Length == 14
      modifies this`cfg, this`nflows, this`daddr, this`srcMacOffset, this`dstMacOffset,
               this`udpSrc, this`udpDst, this`saddr, this`size, this`in6, hh
      ensures cfg == SetupConfig(old(cfg), i) && View() == SetupHeaders(old(cfg), i, old(View()))
    {
      WriteAddresses(i);
      if cfg.ipv6 {
        SetSource6(i.linkAddr);
      }
      assert View() == old(View()).(hh := SetAddresses(old(cfg), i, old(hh[..])),
                                    in6 := SourceIn6(old(cfg), i, old(in6)));
      cfg := SetupConfig(cfg, i);
      ResetCurrent();
    }
  }
}
