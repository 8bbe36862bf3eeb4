/** fill_packet: one built packet, its length and its length fields. */
module PktgenFrame {
  import opened ModArith
  import opened Basics
  import opened PktgenHeaders
  import opened PktgenIn6
  import opened PktgenStack
  import opened PktgenPayload
  import opened PktgenSkb

  /** What building a packet reads and advances. `overhead` is set when a run starts; `page`
      is the page size and `maxFrags` the most fragments a buffer holds. */
  datatype Builder = Builder(cfg: Config, headers: Headers, stack: Stack, overhead: nat, ipId: u16,
                             nfrags: int, page: nat, maxFrags: nat)

  /** The random numbers of one build, whether memory is to be had, and the time of day. */
  datatype BuildInput = BuildInput(draws: Draws, stackDraws: StackDraws, gotSkb: bool, gotPage: bool,
                                   sec: u32, usec: u32)

  /** A packet: addresses, EtherType and stack bytes, then the IP and UDP fields that a build
      sets, and the payload. `ipLen` is the total length of IPv4, the payload length of IPv6, and
      a packet is sent with the addresses of its own kind. */
  datatype Packet = Packet(
    addresses: seq<u8>, protocol: u16, stack: seq<u8>, ipLen: u16, ipId: u16, saddr: u32, daddr: u32,
    in6: In6Pair,
    udpSrc: u16, udpDst: u16, udpLen: u16, queue: u16, payload: Payload, len: int,
    magic: u32, seqNum: u32, sec: u32, usec: u32)

  ghost predicate Valid(b: Builder) {
    Ready(b.cfg, b.headers) && StackInv(b.stack) && 0 < b.maxFrags <= b.page
  }

  /** A C int read from the low 32 bits of x. */
  function Signed(x: int): int {
    var u := x % TWO_32;
    if u < 0x8000_0000 then u else u - TWO_32
  }

  function IpHeader(ipv6: bool): nat { if ipv6 then 40 else 20 }

  function EtherType(ipv6: bool): u16 { if ipv6 then ETH_P_IPV6 else ETH_P_IP }

  /** The UDP payload, never less than the packet generator's own header. */
  function DataLen(size: u32, ipv6: bool, overhead: nat): (d: nat)
    ensures d >= PGH_SIZE
  {
    var d := Signed(size - 14 - IpHeader(ipv6) - 8 - overhead);
    if d < PGH_SIZE then PGH_SIZE else d
  }

  function BuiltPayload(b: Builder, h: Headers, gotPage: bool): Payload
    requires 0 < b.maxFrags <= b.page
  {
    Fill(DataLen(h.size, b.cfg.ipv6, b.overhead) - PGH_SIZE, b.nfrags, b.page, b.maxFrags, gotPage)
  }

  /** The packet built from headers and stack that have just moved. */
  function BuildPacket(b: Builder, h: Headers, s: Stack, a: BuildInput, number: u32): Packet
    requires StackInv(s) && |h.hh| == 14 && 0 < b.maxFrags <= b.page
  {
    var payload := BuiltPayload(b, h, a.gotPage);
    var stack := StackBytes(s, EtherType(b.cfg.ipv6));
    PacketOf(h, b.cfg.ipv6, Protocol(s, EtherType(b.cfg.ipv6)), stack,
             DataLen(h.size, b.cfg.ipv6, b.overhead), b.ipId, payload,
             14 + |stack| + IpHeader(b.cfg.ipv6) + 8 + PGH_SIZE + payload.linear + Sum(payload.frags), a, number)
  }

  function PacketOf(h: Headers, ipv6: bool, protocol: u16, stack: seq<u8>, datalen: nat, ipId: u16,
                    payload: Payload, len: int, a: BuildInput, number: u32): Packet
    requires |h.hh| == 14
  {
    Packet(h.hh[..12], protocol, stack, (if ipv6 then 8 + datalen else 20 + 8 + datalen) % TWO_16, ipId,
           h.saddr, h.table.daddr, h.in6, h.udpSrc, h.udpDst, (datalen + 8) % TWO_16, h.queue, payload, len,
           PKTGEN_MAGIC, number, a.sec, a.usec)
  }

  /** Headers and stack advance before memory is asked for, so a build that fails has still
      used up its place in every walk. */
  function FillPacket(b: Builder, a: BuildInput, number: u32): (r: (Builder, Option<Packet>))
    requires Valid(b)
    ensures Valid(r.0) && (r.1.Some? <==> a.gotSkb) && (r.1.Some? ==> r.1.value.seqNum == number)
    ensures r.0.cfg == b.cfg && r.0.overhead == b.overhead && r.0.headers == NextHeaders(b.cfg, b.headers, a.draws)
  {
    RandomizeKeepsInv(b.stack, a.stackDraws);
    var h := NextHeaders(b.cfg, b.headers, a.draws);
    var s := Randomize(b.stack, a.stackDraws);
    var moved := b.(headers := h, stack := s);
    if !a.gotSkb then (moved, None)
    else
      (moved.(ipId := if b.cfg.ipv6 then b.ipId else (b.ipId + 1) % TWO_16),
       Some(BuildPacket(b, h, s, a, number)))
  }

  // ---- Lengths ----

  /** The payload is placed without loss. */
  predicate FillsExactly(datalen: nat, nfrags: int, page: nat, maxFrags: nat, gotPage: bool)
    requires 0 < maxFrags <= page && datalen >= PGH_SIZE
  {
    nfrags <= 0 || datalen == PGH_SIZE
    || (gotPage
        && var n := FragCount(nfrags, maxFrags); LastFits(Paged(datalen - PGH_SIZE, n, page), n, page))
  }

  lemma FillsAll(datalen: nat, nfrags: int, page: nat, maxFrags: nat, gotPage: bool)
    requires 0 < maxFrags <= page && datalen >= PGH_SIZE && FillsExactly(datalen, nfrags, page, maxFrags, gotPage)
    ensures var p := Fill(datalen - PGH_SIZE, nfrags, page, maxFrags, gotPage);
            p.linear + Sum(p.frags) == datalen - PGH_SIZE
  {
    if nfrags > 0 && datalen > PGH_SIZE {
      FillConserves(datalen - PGH_SIZE, nfrags, page, maxFrags);
    } else if nfrags > 0 {
      ShareFits(0, FragCount(nfrags, maxFrags), page);
    }
  }

  function Max(a: int, b: int): int { if a >= b then a else b }

  /** Headers up to and including the generator's own: 58 bytes for IPv4, 78 for IPv6. */
  function Smallest(ipv6: bool, overhead: nat): nat { 14 + IpHeader(ipv6) + 8 + PGH_SIZE + overhead }

  lemma DataLenIs(size: u32, ipv6: bool, overhead: nat)
    requires overhead <= 60
    ensures 14 + IpHeader(ipv6) + 8 + overhead + DataLen(size, ipv6, overhead) == Max(size, Smallest(ipv6, overhead))
        <==> size - 14 - IpHeader(ipv6) - 8 - overhead < 0x8000_0000
  {
  }

  lemma OverheadBound(s: Stack)
    requires StackInv(s)
    ensures Overhead(s) <= 60
  {
  }

  /** With the overhead of the configured stack and a payload that is placed without loss, a
      frame has the size asked for, or the smallest possible one if that is larger: exactly
      while the payload length is below 2^31. */
  lemma FrameLength(b: Builder, h: Headers, s: Stack, a: BuildInput, number: u32)
    requires StackInv(s) && |h.hh| == 14 && 0 < b.maxFrags <= b.page && b.overhead == Overhead(s)
    requires FillsExactly(DataLen(h.size, b.cfg.ipv6, b.overhead), b.nfrags, b.page, b.maxFrags, a.gotPage)
    ensures BuildPacket(b, h, s, a, number).len == Max(h.size, Smallest(b.cfg.ipv6, b.overhead))
        <==> h.size - 14 - IpHeader(b.cfg.ipv6) - 8 - b.overhead < 0x8000_0000
  {
    FillsAll(DataLen(h.size, b.cfg.ipv6, b.overhead), b.nfrags, b.page, b.maxFrags, a.gotPage);
    OverheadIsExact(s, EtherType(b.cfg.ipv6));
    OverheadBound(s);
    DataLenIs(h.size, b.cfg.ipv6, b.overhead);
  }

  lemma BuiltLength(b: Builder, h: Headers, s: Stack, a: BuildInput, number: u32)
    requires StackInv(s) && |h.hh| == 14 && 0 < b.maxFrags <= b.page
    requires FillsExactly(DataLen(h.size, b.cfg.ipv6, b.overhead), b.nfrags, b.page, b.maxFrags, a.gotPage)
    ensures var p := BuildPacket(b, h, s, a, number);
            p.len - 14 - |p.stack| == IpHeader(b.cfg.ipv6) + 8 + DataLen(h.size, b.cfg.ipv6, b.overhead)
  {
    FillsAll(DataLen(h.size, b.cfg.ipv6, b.overhead), b.nfrags, b.page, b.maxFrags, a.gotPage);
  }

  lemma FitsIn16(x: nat)
    ensures x % TWO_16 == x <==> x < TWO_16
  {
  }

  /** The length fields agree with the bytes that really follow their headers exactly while
      these fit in sixteen bits. */
  lemma LengthFields(b: Builder, h: Headers, s: Stack, a: BuildInput, number: u32)
    requires StackInv(s) && |h.hh| == 14 && 0 < b.maxFrags <= b.page
    requires FillsExactly(DataLen(h.size, b.cfg.ipv6, b.overhead), b.nfrags, b.page, b.maxFrags, a.gotPage)
    ensures var p := BuildPacket(b, h, s, a, number);
            var ip := p.len - 14 - |p.stack|;
            && (b.cfg.ipv6 ==> (p.ipLen == ip - 40 <==> ip - 40 < TWO_16))
            && (!b.cfg.ipv6 ==> (p.ipLen == ip <==> ip < TWO_16))
            && (p.udpLen == ip - IpHeader(b.cfg.ipv6) <==> ip - IpHeader(b.cfg.ipv6) < TWO_16)
  {
    BuiltLength(b, h, s, a, number);
    var datalen := DataLen(h.size, b.cfg.ipv6, b.overhead);
    FitsIn16(datalen + 8);
    FitsIn16(datalen + 28);
  }

  /** Randomising labels and ids changes neither the overhead nor the EtherType. */
  lemma RandomizeKeepsLayout(s: Stack, d: StackDraws, inner: u16)
    requires StackInv(s)
    ensures Overhead(Randomize(s, d)) == Overhead(s) && Protocol(Randomize(s, d), inner) == Protocol(s, inner)
  {
  }

  /** The built frame decodes to the tags and labels in force, whatever follows the stack. */
  lemma PacketDecodes(b: Builder, a: BuildInput, number: u32, rest: seq<u8>)
    requires Valid(b) && a.gotSkb
    ensures var (after, p) := FillPacket(b, a, number);
            var pkt := p.value;
            var s := after.stack;
            Decode(pkt.addresses + Be16(pkt.protocol) + pkt.stack + rest)
            == Decoded(Tags(s), Cleared(s.labels[..s.nrLabels]),
                       if s.nrLabels > 0 then ETH_P_MPLS_UC else EtherType(b.cfg.ipv6), 14 + Overhead(b.stack))
  {
    var (after, p) := FillPacket(b, a, number);
    RandomizeKeepsLayout(b.stack, a.stackDraws, EtherType(b.cfg.ipv6));
    DecodesFrame(after.stack, EtherType(b.cfg.ipv6), p.value.addresses, rest);
  }

  // ---- Whole runs ----

  ghost predicate BuildAt(bs: seq<Builder>, inputs: seq<BuildInput>, k: nat)
    requires k < |inputs| < |bs| && Valid(bs[k])
  {
    bs[k + 1] == FillPacket(bs[k], inputs[k], 0).0
  }

  /** bs is a run of builds: each takes bs[k] to bs[k + 1], with or without memory. */
  ghost predicate IsBuildRun(bs: seq<Builder>, inputs: seq<BuildInput>) {
    && |bs| == |inputs| + 1
    && (forall k :: 0 <= k < |bs| ==> Valid(bs[k]))
    && forall k :: 0 <= k < |inputs| ==> BuildAt(bs, inputs, k)
  }

  /** The headers of a run of builds are a run of headers: failed builds take part too. */
  lemma BuildsRunHeaders(bs: seq<Builder>, inputs: seq<BuildInput>)
    requires IsBuildRun(bs, inputs)
    ensures var hs := seq(|bs|, i requires 0 <= i < |bs| => bs[i].headers);
            var draws := seq(|inputs|, i requires 0 <= i < |inputs| => inputs[i].draws);
            IsHeaderRun(bs[0].cfg, hs, draws)
  {
    forall k | 0 <= k < |bs|
      ensures bs[k].cfg == bs[0].cfg
    {
      BuildsKeepConfig(bs, inputs, k);
    }
    var draws := seq(|inputs|, i requires 0 <= i < |inputs| => inputs[i].draws);
    forall k {:trigger draws[k]} | 0 <= k < |inputs|
      ensures bs[k + 1].headers == NextHeaders(bs[0].cfg, bs[k].headers, draws[k])
    {
      assert BuildAt(bs, inputs, k);
    }
  }

  lemma {:induction false} BuildsKeepConfig(bs: seq<Builder>, inputs: seq<BuildInput>, k: nat)
    requires IsBuildRun(bs, inputs) && k < |bs|
    ensures bs[k].cfg == bs[0].cfg && bs[k].overhead == bs[0].overhead && bs[k].nfrags == bs[0].nfrags
    ensures bs[k].page == bs[0].page && bs[k].maxFrags == bs[0].maxFrags
    ensures Overhead(bs[k].stack) == Overhead(bs[0].stack)
  {
    if k > 0 {
      BuildsKeepConfig(bs, inputs, k - 1);
      assert BuildAt(bs, inputs, k - 1);
      RandomizeKeepsLayout(bs[k - 1].stack, inputs[k - 1].stackDraws, 0);
    }
  }

  /** One build of a run, from headers whose size is inside the settings. */
  lemma BuildFrame(b: Builder, a: BuildInput, number: u32)
    requires Valid(b) && a.gotSkb && b.overhead == Overhead(b.stack)
    requires NextHeaders(b.cfg, b.headers, a.draws).size < 0x8000_0000
    requires FillsExactly(DataLen(NextHeaders(b.cfg, b.headers, a.draws).size, b.cfg.ipv6, b.overhead),
                          b.nfrags, b.page, b.maxFrags, a.gotPage)
    ensures FillPacket(b, a, number).1.value.len
         == Max(NextHeaders(b.cfg, b.headers, a.draws).size, Smallest(b.cfg.ipv6, b.overhead))
  {
    RandomizeKeepsInv(b.stack, a.stackDraws);
    RandomizeKeepsLayout(b.stack, a.stackDraws, 0);
    FrameLength(b, NextHeaders(b.cfg, b.headers, a.draws), Randomize(b.stack, a.stackDraws), a, number);
  }

  lemma NthSize(bs: seq<Builder>, inputs: seq<BuildInput>, n: nat)
    requires IsBuildRun(bs, inputs) && n < |bs| && Started(bs[0].cfg, bs[0].headers)
    requires bs[0].cfg.minSize < bs[0].cfg.maxSize && !bs[0].cfg.sizeRandom
    ensures var c := bs[0].cfg;
            bs[n].headers.size == c.minSize + Rem(n, c.maxSize - c.minSize + 1) < 0x8000_0000
  {
    BuildsRunHeaders(bs, inputs);
    var hs := seq(|bs|, i requires 0 <= i < |bs| => bs[i].headers);
    var draws := seq(|inputs|, i requires 0 <= i < |inputs| => inputs[i].draws);
    NthSourceAndSize(bs[0].cfg, hs, draws, n);
    SizeStaysInRange(bs[0].cfg, hs, draws, n);
  }

  /** The n-th build of a run, counted from 1 and with sizes in order, is a frame of
      min + n mod (max - min + 1) bytes, or the smallest possible one. */
  lemma NthFrame(bs: seq<Builder>, inputs: seq<BuildInput>, n: nat, number: u32)
    requires IsBuildRun(bs, inputs) && 0 < n < |bs| && Started(bs[0].cfg, bs[0].headers)
    requires bs[0].overhead == Overhead(bs[0].stack) && inputs[n - 1].gotSkb
    requires bs[0].cfg.minSize < bs[0].cfg.maxSize && !bs[0].cfg.sizeRandom
    requires FillsExactly(DataLen(bs[n].headers.size, bs[0].cfg.ipv6, bs[0].overhead), bs[0].nfrags, bs[0].page,
                          bs[0].maxFrags, inputs[n - 1].gotPage)
    ensures var c := bs[0].cfg;
            FillPacket(bs[n - 1], inputs[n - 1], number).1.value.len
            == Max(c.minSize + Rem(n, c.maxSize - c.minSize + 1), Smallest(c.ipv6, bs[0].overhead))
  {
    NthSize(bs, inputs, n);
    BuildsKeepConfig(bs, inputs, n - 1);
    var b, a := bs[n - 1], inputs[n - 1];
    BuildAdvances(b, a, number);
    assert BuildAt(bs, inputs, n - 1);
    BuildAdvances(b, a, 0);
    BuildFrame(b, a, number);
  }

  lemma BuildAdvances(b: Builder, a: BuildInput, number: u32)
    requires Valid(b)
    ensures FillPacket(b, a, number).0.headers == NextHeaders(b.cfg, b.headers, a.draws)
  {
  }
}
