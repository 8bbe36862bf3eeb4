/** The packet as bytes: its IP, UDP and generator headers with the IPv4 checksum, and what a
    receiver reads from them. */
module PktgenWire {
  import opened ModArith
  import opened Basics
  import opened PktgenIn6
  import opened PktgenStack
  import opened PktgenFrame
  import opened PktgenPackets

  // ---- The checksum of the IPv4 header (RFC 1071) ----

  /** The ones' complement sum: what goes beyond 16 bits is added again at the low end. */
  function Fold(s: nat): (r: u16)
    decreases s
  {
    if s < TWO_16 then s else Fold(s % TWO_16 + s / TWO_16)
  }

  lemma {:induction false} FoldIs(s: nat)
    ensures Fold(s) == if s == 0 then 0 else (s - 1) % 65535 + 1
    decreases s
  {
    if s >= TWO_16 {
      var t, q := s % TWO_16 + s / TWO_16, s / TWO_16;
      FoldIs(t);
      assert t - 1 == s - 1 + (-q) * 65535;
      ModAddMultiple(s - 1, -q, 65535);
    }
  }

  /** The sum of the words of a header. */
  function WordSum(w: seq<u16>): nat {
    if w == [] then 0 else w[0] + WordSum(w[1..])
  }

  lemma {:induction false} SumUpdate(w: seq<u16>, k: nat, v: u16)
    requires k < |w|
    ensures WordSum(w[k := v]) == WordSum(w) - w[k] + v
  {
    if k > 0 {
      SumUpdate(w[1..], k - 1, v);
      assert w[k := v][1..] == w[1..][k - 1 := v];
    } else {
      assert w[0 := v][1..] == w[1..];
    }
  }

  /** What a receiver checks. */
  predicate Verifies(w: seq<u16>) { Fold(WordSum(w)) == 0xffff }

  lemma VerifiesIs(w: seq<u16>)
    ensures Verifies(w) <==> WordSum(w) > 0 && WordSum(w) % 65535 == 0
  {
    var s := WordSum(w);
    FoldIs(s);
    if s > 0 {
      DivModSucc(s - 1, 65535);
    }
  }

  /** The complement of the sum, to be put into a word that was zero. */
  function Checksum(w: seq<u16>): u16 { 0xffff - Fold(WordSum(w)) }

  /** A header with its checksum verifies, and with no other but the one that differs from it
      by 65535. */
  lemma OnlyChecksumVerifies(w: seq<u16>, k: nat, c: u16)
    requires k < |w| && w[k] == 0 && WordSum(w) > 0
    ensures Verifies(w[k := c]) <==> c % 65535 == Checksum(w) % 65535
  {
    var s := WordSum(w);
    SumUpdate(w, k, c);
    VerifiesIs(w[k := c]);
    FoldIs(s);
    var q := (s - 1) / 65535;
    assert s == q * 65535 + Fold(s);
    assert s + c == c - Checksum(w) + (q + 1) * 65535;
    ModAddMultiple(c - Checksum(w), q + 1, 65535);
    SameResidue(c, Checksum(w));
  }

  lemma SameResidue(a: u16, b: u16)
    ensures (a - b) % 65535 == 0 <==> a % 65535 == b % 65535
  {
  }

  /** Any change of one word is noticed, unless it takes 0 for 65535 or the other way round. */
  lemma ChangeIsNoticed(w: seq<u16>, k: nat, v: u16)
    requires k < |w| && Verifies(w) && WordSum(w) > w[k]
    ensures Verifies(w[k := v]) <==> v == w[k] || (v == 0 && w[k] == 0xffff) || (v == 0xffff && w[k] == 0)
  {
    VerifiesIs(w);
    SumUpdate(w, k, v);
    VerifiesIs(w[k := v]);
    var q := WordSum(w) / 65535;
    assert WordSum(w[k := v]) == v - w[k] + q * 65535;
    ModAddMultiple(v - w[k], q, 65535);
  }

  // ---- The headers ----

  const IPPROTO_UDP: nat := 17

  /** Sixteen bits as a number, most significant first. */
  function BitsNumber(b: seq<bool>): nat {
    if b == [] then 0 else 2 * BitsNumber(b[..|b| - 1]) + if b[|b| - 1] then 1 else 0
  }

  function Pow2(n: nat): nat { if n == 0 then 1 else 2 * Pow2(n - 1) }

  lemma {:induction false} BitsBound(b: seq<bool>)
    ensures BitsNumber(b) < Pow2(|b|)
  {
    if b != [] {
      BitsBound(b[..|b| - 1]);
    }
  }

  lemma SixteenBits(b: seq<bool>)
    requires |b| == 16
    ensures BitsNumber(b) < TWO_16
  {
    BitsBound(b);
    assert Pow2(4) == 16;
    assert Pow2(8) == 256;
    assert Pow2(12) == 4096;
  }

  /** Word k of an IPv6 address. */
  function In6Word(a: In6, k: nat): u16
    requires k < 8
  {
    SixteenBits(a[16 * k..16 * k + 16]);
    BitsNumber(a[16 * k..16 * k + 16])
  }

  function In6Words(a: In6): (w: seq<u16>)
    ensures |w| == 8 && forall k :: 0 <= k < 8 ==> w[k] == In6Word(a, k)
  {
    seq(8, k requires 0 <= k < 8 => In6Word(a, k))
  }

  /** The IPv4 header before its checksum: version and length, type of service; total length;
      identification; no fragment; time to live and protocol; and the addresses. */
  function Ipv4Words(p: Packet, tos: u8): (w: seq<u16>)
    ensures |w| == 10 && w[5] == 0 && WordSum(w) > 0
  {
    var w := [0x4500 + tos, p.ipLen, p.ipId, 0, 32 * 256 + IPPROTO_UDP, 0, p.saddr / TWO_16, p.saddr % TWO_16,
              p.daddr / TWO_16, p.daddr % TWO_16];
    assert WordSum(w) == w[0] + WordSum(w[1..]);
    w
  }

  /** The IPv6 header: version and traffic class, no flow label; payload length; next header
      and hop limit; and the addresses. */
  function Ipv6Words(p: Packet, trafficClass: u8): (w: seq<u16>)
    ensures |w| == 20
  {
    [0x6000 + 16 * trafficClass, 0, p.ipLen, 256 * IPPROTO_UDP + 32] + In6Words(p.in6.src) + In6Words(p.in6.dst)
  }

  function IpWords(p: Packet, ipv6: bool, tos: u8): (w: seq<u16>)
    ensures |w| == if ipv6 then 20 else 10
  {
    if ipv6 then Ipv6Words(p, tos) else var w := Ipv4Words(p, tos); w[5 := Checksum(w)]
  }

  /** The UDP header, without a checksum, and the generator's own. */
  function UdpWords(p: Packet): (w: seq<u16>)
    ensures |w| == 12
  {
    [p.udpSrc, p.udpDst, p.udpLen, 0, p.magic / TWO_16, p.magic % TWO_16, p.seqNum / TWO_16, p.seqNum % TWO_16,
     p.sec / TWO_16, p.sec % TWO_16, p.usec / TWO_16, p.usec % TWO_16]
  }

  function WordBytes(w: seq<u16>): (b: seq<u8>)
    ensures |b| == 2 * |w|
  {
    if w == [] then [] else Be16(w[0]) + WordBytes(w[1..])
  }

  /** The frame: `tos` is the type of service or the traffic class, `data` the payload. */
  function Wire(p: Packet, ipv6: bool, tos: u8, data: seq<u8>): seq<u8> {
    p.addresses + Be16(p.protocol) + p.stack + (WordBytes(IpWords(p, ipv6, tos) + UdpWords(p)) + data)
  }

  /** Every IPv4 header verifies. */
  lemma HeaderVerifies(p: Packet, tos: u8)
    ensures Verifies(IpWords(p, false, tos))
  {
    OnlyChecksumVerifies(Ipv4Words(p, tos), 5, Checksum(Ipv4Words(p, tos)));
  }

  // ---- A receiver ----

  /** What a receiver finds behind tags and labels. */
  datatype Received =
    | NotOurs
    | Ipv4(tos: u8, ipLen: u16, ipId: u16, saddr: int, daddr: int, udp: Udp)
    | Ipv6(tos: u8, ipLen: u16, src: seq<u16>, dst: seq<u16>, udp: Udp)

  datatype Udp = Udp(source: u16, dest: u16, len: u16, magic: int, seqNum: int, sec: int, usec: int)

  /** The n words from a position on. */
  function ReadWords(f: seq<u8>, at: nat, n: nat): (w: seq<u16>)
    requires at + 2 * n <= |f|
    ensures |w| == n
    decreases n
  {
    if n == 0 then [] else [Read16(f, at)] + ReadWords(f, at + 2, n - 1)
  }

  function Long(w: seq<u16>, k: nat): int
    requires k + 1 < |w|
  {
    var high: int := w[k];
    high * TWO_16 + w[k + 1]
  }

  /** The UDP header, and the generator's behind it. */
  function ReadUdp(w: seq<u16>): Udp
    requires |w| == 12
  {
    Udp(w[0], w[1], w[2], Long(w, 4), Long(w, 6), Long(w, 8), Long(w, 10))
  }

  function ReadIpv4(w: seq<u16>): Received
    requires |w| == 22
  {
    if !Verifies(w[..10]) || w[3] != 0 || w[4] % 256 != IPPROTO_UDP then NotOurs
    else Ipv4(w[0] % 256, w[1], w[2], Long(w, 6), Long(w, 8), ReadUdp(w[10..]))
  }

  function ReadIpv6(w: seq<u16>): Received
    requires |w| == 32
  {
    if w[3] / 256 != IPPROTO_UDP then NotOurs
    else Ipv6(w[0] / 16 % 256, w[2], w[4..12], w[12..20], ReadUdp(w[20..]))
  }

  /** The IP version stands in the first four bits, also behind labels, which name no protocol.
      A header of IPv4 has to verify. */
  function ReadIp(f: seq<u8>, at: nat): Received {
    if at + 44 > |f| then NotOurs
    else if f[at] == 0x45 then ReadIpv4(ReadWords(f, at, 22))
    else if f[at] / 16 == 6 && at + 64 <= |f| then ReadIpv6(ReadWords(f, at, 32))
    else NotOurs
  }

  function Receive(f: seq<u8>): Received {
    var d := Decode(f);
    if d.Truncated? then NotOurs else ReadIp(f, d.at)
  }

  // ---- Round trip ----

  lemma {:induction false} ReadsWords(w: seq<u16>, f: seq<u8>, at: nat)
    requires at + 2 * |w| <= |f| && f[at..at + 2 * |w|] == WordBytes(w)
    ensures ReadWords(f, at, |w|) == w
    decreases |w|
  {
    if w != [] {
      var g := f[at..at + 2 * |w|];
      assert f[at..at + 2] == g[..2] == Be16(w[0]);
      ReadsBe16(w[0], f, at);
      assert f[at + 2..at + 2 + 2 * |w[1..]|] == g[2..] == WordBytes(w[1..]);
      ReadsWords(w[1..], f, at + 2);
    }
  }

  /** The UDP and generator headers of a packet. */
  function UdpOf(p: Packet): Udp { Udp(p.udpSrc, p.udpDst, p.udpLen, p.magic, p.seqNum, p.sec, p.usec) }

  lemma LongIs(x: u32, w: seq<u16>, k: nat)
    requires k + 1 < |w| && w[k] == x / TWO_16 && w[k + 1] == x % TWO_16
    ensures Long(w, k) == x
  {
  }

  lemma ReadsUdp(p: Packet)
    ensures ReadUdp(UdpWords(p)) == UdpOf(p)
  {
    var w := UdpWords(p);
    LongIs(p.magic, w, 4);
    LongIs(p.seqNum, w, 6);
    LongIs(p.sec, w, 8);
    LongIs(p.usec, w, 10);
  }

  /** The fields that a receiver is meant to find. */
  function Meant(p: Packet, ipv6: bool, tos: u8): Received {
    if ipv6 then Ipv6(tos, p.ipLen, In6Words(p.in6.src), In6Words(p.in6.dst), UdpOf(p))
    else Ipv4(tos, p.ipLen, p.ipId, p.saddr, p.daddr, UdpOf(p))
  }

  lemma FirstByte(w: seq<u16>, f: seq<u8>, at: nat)
    requires |w| > 0 && at + 2 * |w| <= |f| && f[at..at + 2 * |w|] == WordBytes(w)
    ensures f[at] == w[0] / 256
  {
    assert f[at] == f[at..at + 2 * |w|][0];
  }

  lemma ReadsIpv4(p: Packet, tos: u8)
    ensures ReadIpv4(IpWords(p, false, tos) + UdpWords(p)) == Meant(p, false, tos)
  {
    var w := IpWords(p, false, tos) + UdpWords(p);
    HeaderVerifies(p, tos);
    assert w[..10] == IpWords(p, false, tos) && w[10..] == UdpWords(p);
    LongIs(p.saddr, w, 6);
    LongIs(p.daddr, w, 8);
    ReadsUdp(p);
  }

  lemma ReadsIpv6(p: Packet, trafficClass: u8)
    ensures ReadIpv6(IpWords(p, true, trafficClass) + UdpWords(p)) == Meant(p, true, trafficClass)
  {
    var w := IpWords(p, true, trafficClass) + UdpWords(p);
    assert w[20..] == UdpWords(p) && w[4..12] == In6Words(p.in6.src) && w[12..20] == In6Words(p.in6.dst);
    ReadsUdp(p);
  }

  lemma ReadsIp(p: Packet, ipv6: bool, tos: u8, f: seq<u8>, at: nat)
    requires var w := IpWords(p, ipv6, tos) + UdpWords(p); at + 2 * |w| <= |f| && f[at..at + 2 * |w|] == WordBytes(w)
    ensures ReadIp(f, at) == Meant(p, ipv6, tos)
  {
    FirstByte(IpWords(p, ipv6, tos) + UdpWords(p), f, at);
    ReadsWords(IpWords(p, ipv6, tos) + UdpWords(p), f, at);
    if ipv6 {
      ReadsIpv6(p, tos);
    } else {
      ReadsIpv4(p, tos);
    }
  }

  /** A receiver that follows the tags and labels of a packet and reads its headers finds
      each field of the packet, whatever the payload. */
  lemma WireIsReceived(s: Stack, p: Packet, ipv6: bool, tos: u8, data: seq<u8>)
    requires s.nrLabels <= |s.labels| && |p.addresses| == 12 && |p.stack| == Overhead(s)
    requires CarriesStack(s, ipv6, p, WordBytes(IpWords(p, ipv6, tos) + UdpWords(p)) + data)
    ensures Receive(Wire(p, ipv6, tos, data)) == Meant(p, ipv6, tos)
  {
    var f, at, w := Wire(p, ipv6, tos, data), 14 + Overhead(s), IpWords(p, ipv6, tos) + UdpWords(p);
    assert f[at..at + 2 * |w|] == WordBytes(w);
    ReadsIp(p, ipv6, tos, f, at);
  }

  /** So a receiver of the packet of build n finds what that build has put into it. */
  lemma PacketIsReceived(bs: seq<Builder>, inputs: seq<BuildInput>, n: nat, p: Packet, tos: u8, data: seq<u8>)
    requires Makes(bs, inputs, n, p)
    ensures Receive(Wire(p, bs[0].cfg.ipv6, tos, data)) == Meant(p, bs[0].cfg.ipv6, tos)
  {
    var ipv6 := bs[0].cfg.ipv6;
    MadeFrom(bs, inputs, n, p);
    MadeStack(bs, inputs, n, p);
    PacketCarriesStack(bs, inputs, n, p, WordBytes(IpWords(p, ipv6, tos) + UdpWords(p)) + data);
    WireIsReceived(bs[n].stack, p, ipv6, tos, data);
  }

  lemma MadeStack(bs: seq<Builder>, inputs: seq<BuildInput>, n: nat, p: Packet)
    requires Makes(bs, inputs, n, p)
    ensures StackInv(bs[n].stack) && |p.stack| == Overhead(bs[n].stack)
  {
    assert BuildAt(bs, inputs, n - 1);
    SameHeaders(bs[n - 1], inputs[n - 1], p.seqNum);
    OverheadIsExact(bs[n].stack, EtherType(bs[n - 1].cfg.ipv6));
  }

  // ---- IPv6 addresses ----

  lemma {:induction false} BitsAreUnique(a: seq<bool>, b: seq<bool>)
    requires |a| == |b| && BitsNumber(a) == BitsNumber(b)
    ensures a == b
  {
    if a != [] {
      BitsAreUnique(a[..|a| - 1], b[..|b| - 1]);
    }
  }

  /** The words that are received tell the address. */
  lemma WordsTellAddress(a: In6, b: In6)
    requires In6Words(a) == In6Words(b)
    ensures a == b
  {
    forall i | 0 <= i < IN6_BITS
      ensures a[i] == b[i]
    {
      var k := i / 16;
      assert In6Words(a)[k] == In6Words(b)[k];
      BitsAreUnique(a[16 * k..16 * k + 16], b[16 * k..16 * k + 16]);
      assert a[i] == a[16 * k..16 * k + 16][i - 16 * k];
    }
  }
}
