/** The VLAN and MPLS stack: the commands that configure it, the header bytes built from it,
    and a decoder that recovers it from a frame. */
module PktgenStack {
  import opened ModArith
  import opened Basics
  import opened PktgenLabels

  const OFF: u16 := 0xffff
  const ETH_P_IP: u16 := 0x0800
  const ETH_P_IPV6: u16 := 0x86dd
  const ETH_P_8021Q: u16 := 0x8100
  const ETH_P_MPLS_UC: u16 := 0x8847

  datatype Stack = Stack(
    vlanId: u16, vlanCfi: u8, vlanP: u8, svlanId: u16, svlanCfi: u8, svlanP: u8,
    nrLabels: nat, labels: seq<u32>, mplsRandom: bool, vidRandom: bool, svidRandom: bool)

  const NO_LABELS: seq<u32> := [0, 0, 0, 0, 0, 0, 0, 0, 0, 0, 0, 0, 0, 0, 0, 0]

  /** A new device has neither tags nor labels. */
  const NO_STACK := Stack(OFF, 0, 0, OFF, 0, 0, 0, NO_LABELS, false, false, false)

  // ---- Commands ----

  predicate IsDigit(c: char) { '0' <= c <= '9' }

  /** num_arg: decimal digits, at most maxlen of them. */
  function NumFrom(text: string, i: nat, maxlen: nat, num: nat): (r: (Parsed, nat))
    ensures r.0 != TooBig
    decreases maxlen - i
  {
    if i >= maxlen then (Consumed(i), num)
    else if i >= |text| then (Fault, num)
    else if IsDigit(text[i]) then NumFrom(text, i + 1, maxlen, num * 10 + (text[i] as int - '0' as int))
    else (Consumed(i), num)
  }

  /** The text begins with n decimal digits. */
  predicate Decimal(text: string, n: nat) {
    n <= |text| && forall k :: 0 <= k < n ==> IsDigit(text[k])
  }

  function DecimalValue(text: string, n: nat): nat
    requires Decimal(text, n)
  {
    if n == 0 then 0 else 10 * DecimalValue(text, n - 1) + (text[n - 1] as int - '0' as int)
  }

  /** The text begins with n decimal digits and no more. */
  predicate Run(text: string, n: nat) {
    Decimal(text, n) && (n < |text| ==> !IsDigit(text[n]))
  }

  lemma {:induction false} NumFromRun(text: string, i: nat, maxlen: nat, n: nat)
    requires Run(text, n) && i <= n && i <= maxlen
    ensures NumFrom(text, i, maxlen, DecimalValue(text, i)) ==
            if n < maxlen && n == |text| then (Fault, DecimalValue(text, n))
            else (Consumed(Min(n, maxlen)), DecimalValue(text, Min(n, maxlen)))
    decreases n - i
  {
    if i < n && i < maxlen {
      NumFromRun(text, i + 1, maxlen, n);
    }
  }

  lemma {:induction false} DecimalGrows(text: string, m: nat, n: nat)
    requires m < n && Decimal(text, n)
    ensures DecimalValue(text, n) >= 10 * DecimalValue(text, m)
    decreases n
  {
    if m < n - 1 {
      DecimalGrows(text, m, n - 1);
    }
  }

  /** The number read from a run of digits: the reader faults exactly when the text ends
      before maxlen digits and a non-digit; otherwise it takes the first maxlen digits, and
      that is the number written exactly when there are no more of them or it is zero. */
  lemma NumberRead(text: string, maxlen: nat, n: nat)
    requires Run(text, n)
    ensures var (r, v) := NumFrom(text, 0, maxlen, 0);
            && (r.Fault? <==> n < maxlen && n == |text|)
            && (!r.Fault? ==>
                  && r == Consumed(Min(n, maxlen)) && v == DecimalValue(text, Min(n, maxlen))
                  && (v == DecimalValue(text, n) <==> n <= maxlen || DecimalValue(text, n) == 0))
  {
    NumFromRun(text, 0, maxlen, n);
    if n > maxlen {
      DecimalGrows(text, maxlen, n);
    }
  }

  /** A command of the device file with the text of its argument. */
  datatype Command =
    | Mpls(text: string) | VlanId(text: string) | VlanP(text: string) | VlanCfi(text: string)
    | SvlanId(text: string) | SvlanP(text: string) | SvlanCfi(text: string)
    | Flags(mplsRandom: bool, vidRandom: bool, svidRandom: bool)

  function NoVlan(s: Stack): Stack { s.(vlanId := OFF, svlanId := OFF) }

  function ApplyMpls(s: Stack, text: string): Stack
    requires |s.labels| == MAX_MPLS_LABELS
  {
    var r := LabelsFrom(text, 0, 0, s.labels, s.mplsRandom);
    var t := s.(nrLabels := r.count, labels := r.labels, mplsRandom := r.random);
    if r.ret.Consumed? && r.count > 0 && s.vlanId != OFF then NoVlan(t) else t
  }

  function Apply(s: Stack, cmd: Command): (t: Stack)
    requires |s.labels| == MAX_MPLS_LABELS
    ensures |t.labels| == MAX_MPLS_LABELS
  {
    match cmd
    case Mpls(text) => ApplyMpls(s, text)
    case VlanId(text) =>
      var (r, v) := NumFrom(text, 0, 4, 0);
      if r.Fault? then s
      else if v <= 4095 then s.(vlanId := v, nrLabels := 0)
      else NoVlan(s)
    case VlanP(text) =>
      var (r, v) := NumFrom(text, 0, 1, 0);
      if r.Fault? then s else if v <= 7 && s.vlanId != OFF then s.(vlanP := v) else s
    case VlanCfi(text) =>
      var (r, v) := NumFrom(text, 0, 1, 0);
      if r.Fault? then s else if v <= 1 && s.vlanId != OFF then s.(vlanCfi := v) else s
    case SvlanId(text) =>
      var (r, v) := NumFrom(text, 0, 4, 0);
      if r.Fault? then s
      else if v <= 4095 && s.vlanId != OFF then s.(svlanId := v, nrLabels := 0)
      else NoVlan(s)
    case SvlanP(text) =>
      var (r, v) := NumFrom(text, 0, 1, 0);
      if r.Fault? then s else if v <= 7 && s.svlanId != OFF then s.(svlanP := v) else s
    case SvlanCfi(text) =>
      var (r, v) := NumFrom(text, 0, 1, 0);
      if r.Fault? then s else if v <= 1 && s.svlanId != OFF then s.(svlanCfi := v) else s
    case Flags(mplsRandom, vidRandom, svidRandom) =>
      s.(mplsRandom := mplsRandom, vidRandom := vidRandom, svidRandom := svidRandom)
  }

  /** What a vlan_id command does with the digits written. */
  lemma VlanIdIsSet(s: Stack, text: string, n: nat)
    requires |s.labels| == MAX_MPLS_LABELS && Run(text, n) && n < |text|
    ensures var id := DecimalValue(text, Min(n, 4));
            Apply(s, VlanId(text)) == if id <= 4095 then s.(vlanId := id, nrLabels := 0) else NoVlan(s)
  {
    NumberRead(text, 4, n);
  }

  /** Ten thousand is taken for one thousand. */
  lemma LongIdIsCut(s: Stack)
    requires |s.labels| == MAX_MPLS_LABELS
    ensures Apply(s, VlanId("10000\n")) == s.(vlanId := 1000, nrLabels := 0)
  {
    var text := "10000\n";
    assert DecimalValue(text, 1) == 1 && DecimalValue(text, 2) == 10 && DecimalValue(text, 4) == 1000;
    VlanIdIsSet(s, text, 5);
  }

  /** The per-packet randomisation of the stack: labels whose bottom bit is set, and ids. */
  type LabelDraws = s: seq<u32> | |s| == MAX_MPLS_LABELS witness NO_LABELS

  datatype StackDraws = StackDraws(labels: LabelDraws, vid: u32, svid: u32)

  function RandomLabel(entry: u32, draw: u32): u32 {
    if !BottomBit(entry) then entry
    else
      var low := draw % 0x10_0000;
      if BottomBit(low) then low else low + 256
  }

  function RandomLabels(s: Stack, draws: seq<u32>): (r: seq<u32>)
    requires |draws| == |s.labels|
    ensures |r| == |s.labels|
  {
    if !s.mplsRandom then s.labels
    else seq(|s.labels|, i requires 0 <= i < |s.labels| =>
               if i < s.nrLabels then RandomLabel(s.labels[i], draws[i]) else s.labels[i])
  }

  function Randomize(s: Stack, d: StackDraws): (t: Stack)
    requires |s.labels| == MAX_MPLS_LABELS
    ensures |t.labels| == MAX_MPLS_LABELS
  {
    s.(labels := RandomLabels(s, d.labels),
       vlanId := if s.vidRandom && s.vlanId != OFF then d.vid % 4096 else s.vlanId,
       svlanId := if s.svidRandom && s.svlanId != OFF then d.svid % 4096 else s.svlanId)
  }

  datatype Event = Configure(cmd: Command) | Build(draws: StackDraws)

  function React(s: Stack, e: Event): (t: Stack)
    requires |s.labels| == MAX_MPLS_LABELS
    ensures |t.labels| == MAX_MPLS_LABELS
  {
    match e
    case Configure(cmd) => Apply(s, cmd)
    case Build(draws) => Randomize(s, draws)
  }

  ghost predicate EventAt(ss: seq<Stack>, events: seq<Event>, k: nat)
    requires k < |events| < |ss| && |ss[k].labels| == MAX_MPLS_LABELS
  {
    ss[k + 1] == React(ss[k], events[k])
  }

  /** ss is the history of a new device: event k takes ss[k] to ss[k + 1]. */
  ghost predicate IsHistory(ss: seq<Stack>, events: seq<Event>) {
    && |ss| == |events| + 1 && ss[0] == NO_STACK
    && (forall k :: 0 <= k < |ss| ==> |ss[k].labels| == MAX_MPLS_LABELS)
    && forall k :: 0 <= k < |events| ==> EventAt(ss, events, k)
  }

  /** What the commands keep: SVLAN only with VLAN, never MPLS together with VLAN, all fields
      in range, at most fifteen labels. */
  ghost predicate StackInv(s: Stack) {
    && |s.labels| == MAX_MPLS_LABELS && s.nrLabels <= 15
    && (s.vlanId <= 4095 || s.vlanId == OFF) && (s.svlanId <= 4095 || s.svlanId == OFF)
    && (s.svlanId != OFF ==> s.vlanId != OFF)
    && (s.nrLabels > 0 ==> s.vlanId == OFF)
    && s.vlanP <= 7 && s.svlanP <= 7 && s.vlanCfi <= 1 && s.svlanCfi <= 1
  }

  lemma ApplyKeepsInv(s: Stack, cmd: Command)
    requires StackInv(s)
    ensures StackInv(Apply(s, cmd))
  {
  }

  lemma RandomizeKeepsInv(s: Stack, d: StackDraws)
    requires StackInv(s)
    ensures StackInv(Randomize(s, d))
  {
  }

  lemma {:induction false} StackInvAlways(ss: seq<Stack>, events: seq<Event>, k: nat)
    requires IsHistory(ss, events) && k < |ss|
    ensures StackInv(ss[k])
  {
    if k > 0 {
      StackInvAlways(ss, events, k - 1);
      assert EventAt(ss, events, k - 1);
      match events[k - 1]
      case Configure(cmd) => ApplyKeepsInv(ss[k - 1], cmd);
      case Build(draws) => RandomizeKeepsInv(ss[k - 1], draws);
    }
  }

  // ---- Header bytes ----

  function Be16(x: u16): (b: seq<u8>)
    ensures |b| == 2
  {
    [x / 256, x % 256]
  }

  function Be32(x: u32): (b: seq<u8>)
    ensures |b| == 4
  {
    [x / 16777216, x / 65536 % 256, x / 256 % 256, x % 256]
  }

  function ClearBottom(entry: u32): (r: u32)
    ensures !BottomBit(r) && (r == entry || r + 256 == entry)
  {
    if BottomBit(entry) then entry - 256 else entry
  }

  function SetBottom(entry: u32): (r: u32)
    ensures BottomBit(r) && ClearBottom(r) == ClearBottom(entry)
  {
    ClearBottom(entry) + 256
  }

  /** mpls_push: every label with its bottom bit clear, the last one with it set. */
  function LabelBytes(labels: seq<u32>): (b: seq<u8>)
    ensures |b| == 4 * |labels|
  {
    if labels == [] then []
    else Be32(if |labels| == 1 then SetBottom(labels[0]) else ClearBottom(labels[0])) + LabelBytes(labels[1..])
  }

  /** A tag's control information; the fields do not overlap while they are in range. */
  function BuildTci(id: u16, cfi: u8, prio: u8): u16
    requires id <= 4095 && cfi <= 1 && prio <= 7
  {
    id + cfi * 4096 + prio * 8192
  }

  /** With fields in range the source's shift-and-or is this sum. */
  lemma OrIsSum(id: bv16, cfi: bv16, prio: bv16)
    requires id <= 4095 && cfi <= 1 && prio <= 7
    ensures id | (cfi << 12) | (prio << 13) == id + cfi * 4096 + prio * 8192
  {
  }

  function VlanBytes(s: Stack, inner: u16): seq<u8>
    requires StackInv(s) && s.vlanId != OFF
  {
    (if s.svlanId != OFF then Be16(BuildTci(s.svlanId, s.svlanCfi, s.svlanP)) + Be16(ETH_P_8021Q) else [])
    + Be16(BuildTci(s.vlanId, s.vlanCfi, s.vlanP)) + Be16(inner)
  }

  /** The bytes between the Ethernet header and the IP header. */
  function StackBytes(s: Stack, inner: u16): seq<u8>
    requires StackInv(s)
  {
    LabelBytes(s.labels[..s.nrLabels]) + if s.vlanId != OFF then VlanBytes(s, inner) else []
  }

  function Protocol(s: Stack, inner: u16): u16 {
    if s.vlanId != OFF then ETH_P_8021Q
    else if s.nrLabels > 0 then ETH_P_MPLS_UC
    else inner
  }

  /** set_pkt_overhead. */
  function Overhead(s: Stack): nat {
    4 * s.nrLabels + (if s.vlanId == OFF then 0 else 4) + (if s.svlanId == OFF then 0 else 4)
  }

  /** The overhead used for the length fields is the number of bytes really built. */
  lemma OverheadIsExact(s: Stack, inner: u16)
    requires StackInv(s)
    ensures |StackBytes(s, inner)| == Overhead(s)
  {
  }

  /** A frame: addresses, EtherType, stack, and whatever follows. */
  function Frame(s: Stack, inner: u16, addresses: seq<u8>, rest: seq<u8>): seq<u8>
    requires StackInv(s) && |addresses| == 12
  {
    addresses + Be16(Protocol(s, inner)) + StackBytes(s, inner) + rest
  }

  // ---- The decoder ----

  datatype Tag = Tag(id: nat, cfi: nat, prio: nat)

  datatype Decoded = Truncated | Decoded(tags: seq<Tag>, labels: seq<u32>, etherType: int, at: nat)

  function Read16(f: seq<u8>, at: nat): u16
    requires at + 2 <= |f|
  {
    var high: int := f[at];
    high * 256 + f[at + 1]
  }

  function Read32(f: seq<u8>, at: nat): u32
    requires at + 4 <= |f|
  {
    var high: int := f[at];
    ((high * 256 + f[at + 1]) * 256 + f[at + 2]) * 256 + f[at + 3]
  }

  function TagOf(tci: u16): Tag { Tag(tci % 4096, tci / 4096 % 2, tci / 8192) }

  /** Label stack entries up to and including the one whose bottom bit is set. */
  function DecodeLabels(f: seq<u8>, at: nat): Decoded
    decreases |f| - at
  {
    if at + 4 > |f| then Truncated
    else
      var x := Read32(f, at);
      if BottomBit(x) then Decoded([], [ClearBottom(x)], ETH_P_MPLS_UC, at + 4)
      else
        match DecodeLabels(f, at + 4)
        case Truncated => Truncated
        case Decoded(tags, labels, etherType, end) => Decoded(tags, [x] + labels, etherType, end)
  }

  /** Follows the EtherType at `at`: tags while it says 802.1Q, labels if it says MPLS. */
  function DecodeFrom(f: seq<u8>, at: nat): Decoded
    decreases |f| - at
  {
    if at + 2 > |f| then Truncated
    else if Read16(f, at) == ETH_P_8021Q then
      if at + 4 > |f| then Truncated
      else
        match DecodeFrom(f, at + 4)
        case Truncated => Truncated
        case Decoded(tags, labels, etherType, end) =>
          Decoded([TagOf(Read16(f, at + 2))] + tags, labels, etherType, end)
    else if Read16(f, at) == ETH_P_MPLS_UC then DecodeLabels(f, at + 2)
    else Decoded([], [], Read16(f, at), at + 2)
  }

  function Decode(f: seq<u8>): Decoded { DecodeFrom(f, 12) }

  // ---- Round trip ----

  function Tags(s: Stack): seq<Tag> {
    if s.vlanId == OFF then []
    else (if s.svlanId == OFF then [] else [Tag(s.svlanId, s.svlanCfi, s.svlanP)])
         + [Tag(s.vlanId, s.vlanCfi, s.vlanP)]
  }

  function Cleared(labels: seq<u32>): (r: seq<u32>)
    ensures |r| == |labels|
    ensures forall i :: 0 <= i < |r| ==> r[i] == ClearBottom(labels[i])
  {
    if labels == [] then [] else [ClearBottom(labels[0])] + Cleared(labels[1..])
  }

  lemma ReadsBe16(x: u16, f: seq<u8>, at: nat)
    requires at + 2 <= |f| && f[at..at + 2] == Be16(x)
    ensures Read16(f, at) == x
  {
    assert f[at] == f[at..at + 2][0] && f[at + 1] == f[at..at + 2][1];
  }

  lemma ReadsBe32(x: u32, f: seq<u8>, at: nat)
    requires at + 4 <= |f| && f[at..at + 4] == Be32(x)
    ensures Read32(f, at) == x
  {
    FourBytes(x);
    var b := f[at..at + 4];
    assert f[at] == b[0] && f[at + 1] == b[1] && f[at + 2] == b[2] && f[at + 3] == b[3];
  }

  lemma {:induction false} DecodesLabels(labels: seq<u32>, f: seq<u8>, at: nat)
    requires labels != [] && at + 4 * |labels| <= |f| && f[at..at + 4 * |labels|] == LabelBytes(labels)
    ensures DecodeLabels(f, at) == Decoded([], Cleared(labels), ETH_P_MPLS_UC, at + 4 * |labels|)
    decreases |labels|
  {
    var b := f[at..at + 4 * |labels|];
    var first := if |labels| == 1 then SetBottom(labels[0]) else ClearBottom(labels[0]);
    assert f[at..at + 4] == b[..4] == Be32(first);
    ReadsBe32(first, f, at);
    if |labels| > 1 {
      assert f[at + 4..at + 4 * |labels|] == b[4..] == LabelBytes(labels[1..]);
      DecodesLabels(labels[1..], f, at + 4);
    }
  }

  /** From any history of commands and builds, following the EtherTypes, the 802.1Q tags and
      the MPLS bottom-of-stack bit of a built frame recovers exactly the configured tags, in
      order, and the configured labels up to their own bottom bits, and ends where the IP
      header begins. */
  lemma StackRoundTrip(ss: seq<Stack>, events: seq<Event>, k: nat, inner: u16, addresses: seq<u8>, rest: seq<u8>)
    requires IsHistory(ss, events) && k < |ss|
    requires (inner == ETH_P_IP || inner == ETH_P_IPV6) && |addresses| == 12
    ensures var s := ss[k];
            && StackInv(s)
            && Decode(Frame(s, inner, addresses, rest))
               == Decoded(Tags(s), Cleared(s.labels[..s.nrLabels]),
                          if s.nrLabels > 0 then ETH_P_MPLS_UC else inner, 14 + Overhead(s))
  {
    StackInvAlways(ss, events, k);
    DecodesFrame(ss[k], inner, addresses, rest);
  }

  lemma DecodesFrame(s: Stack, inner: u16, addresses: seq<u8>, rest: seq<u8>)
    requires StackInv(s) && (inner == ETH_P_IP || inner == ETH_P_IPV6) && |addresses| == 12
    ensures Decode(Frame(s, inner, addresses, rest))
         == Decoded(Tags(s), Cleared(s.labels[..s.nrLabels]),
                    if s.nrLabels > 0 then ETH_P_MPLS_UC else inner, 14 + Overhead(s))
  {
    var f := Frame(s, inner, addresses, rest);
    assert f[12..14] == Be16(Protocol(s, inner));
    ReadsBe16(Protocol(s, inner), f, 12);
    if s.nrLabels > 0 {
      assert f[14..14 + 4 * s.nrLabels] == LabelBytes(s.labels[..s.nrLabels]);
      DecodesLabels(s.labels[..s.nrLabels], f, 14);
    } else if s.vlanId != OFF {
      DecodesVlan(s, inner, f, rest);
    }
  }

  lemma TciFields(id: u16, cfi: u8, prio: u8)
    requires id <= 4095 && cfi <= 1 && prio <= 7
    ensures TagOf(BuildTci(id, cfi, prio)) == Tag(id, cfi, prio)
  {
  }

  /** One tag: the decoder reads its fields and goes on at the EtherType after it. */
  lemma DecodesTag(f: seq<u8>, at: nat, id: u16, cfi: u8, prio: u8)
    requires id <= 4095 && cfi <= 1 && prio <= 7 && at + 4 <= |f|
    requires Read16(f, at) == ETH_P_8021Q && f[at + 2..at + 4] == Be16(BuildTci(id, cfi, prio))
    requires DecodeFrom(f, at + 4).Decoded?
    ensures var d := DecodeFrom(f, at + 4);
            DecodeFrom(f, at) == Decoded([Tag(id, cfi, prio)] + d.tags, d.labels, d.etherType, d.at)
  {
    TciFields(id, cfi, prio);
    ReadsBe16(BuildTci(id, cfi, prio), f, at + 2);
  }

  lemma DecodesInner(f: seq<u8>, at: nat, inner: u16)
    requires (inner == ETH_P_IP || inner == ETH_P_IPV6) && at + 2 <= |f| && f[at..at + 2] == Be16(inner)
    ensures DecodeFrom(f, at) == Decoded([], [], inner, at + 2)
  {
    ReadsBe16(inner, f, at);
  }

  /** The four header bytes at a position, as two words. */
  lemma TwoWords(f: seq<u8>, at: nat, x: u16, y: u16)
    requires at + 4 <= |f| && f[at..at + 4] == Be16(x) + Be16(y)
    ensures f[at..at + 2] == Be16(x) && f[at + 2..at + 4] == Be16(y)
  {
    var b := f[at..at + 4];
    assert f[at..at + 2] == b[..2] && f[at + 2..at + 4] == b[2..];
  }

  lemma DecodesOneTag(s: Stack, inner: u16, f: seq<u8>)
    requires StackInv(s) && s.vlanId != OFF && s.svlanId == OFF && (inner == ETH_P_IP || inner == ETH_P_IPV6)
    requires |f| >= 18 && Read16(f, 12) == ETH_P_8021Q
    requires f[14..18] == Be16(BuildTci(s.vlanId, s.vlanCfi, s.vlanP)) + Be16(inner)
    ensures DecodeFrom(f, 12) == Decoded(Tags(s), [], inner, 18)
  {
    TwoWords(f, 14, BuildTci(s.vlanId, s.vlanCfi, s.vlanP), inner);
    DecodesInner(f, 16, inner);
    DecodesTag(f, 12, s.vlanId, s.vlanCfi, s.vlanP);
  }

  lemma DecodesTwoTags(s: Stack, inner: u16, f: seq<u8>)
    requires StackInv(s) && s.svlanId != OFF && (inner == ETH_P_IP || inner == ETH_P_IPV6)
    requires |f| >= 22 && Read16(f, 12) == ETH_P_8021Q
    requires f[14..18] == Be16(BuildTci(s.svlanId, s.svlanCfi, s.svlanP)) + Be16(ETH_P_8021Q)
    requires f[18..22] == Be16(BuildTci(s.vlanId, s.vlanCfi, s.vlanP)) + Be16(inner)
    ensures DecodeFrom(f, 12) == Decoded(Tags(s), [], inner, 22)
  {
    TwoWords(f, 14, BuildTci(s.svlanId, s.svlanCfi, s.svlanP), ETH_P_8021Q);
    TwoWords(f, 18, BuildTci(s.vlanId, s.vlanCfi, s.vlanP), inner);
    ReadsBe16(ETH_P_8021Q, f, 16);
    DecodesInner(f, 20, inner);
    DecodesTag(f, 16, s.vlanId, s.vlanCfi, s.vlanP);
    DecodesTag(f, 12, s.svlanId, s.svlanCfi, s.svlanP);
  }

  lemma DecodesVlan(s: Stack, inner: u16, f: seq<u8>, rest: seq<u8>)
    requires StackInv(s) && s.vlanId != OFF && (inner == ETH_P_IP || inner == ETH_P_IPV6)
    requires |f| >= 14 && Read16(f, 12) == ETH_P_8021Q && f[14..] == VlanBytes(s, inner) + rest
    ensures DecodeFrom(f, 12) == Decoded(Tags(s), [], inner, 14 + Overhead(s))
  {
    var b := f[14..];
    assert f[14..18] == b[0..4];
    if s.svlanId == OFF {
      DecodesOneTag(s, inner, f);
    } else {
      assert f[18..22] == b[4..8];
      DecodesTwoTags(s, inner, f);
    }
  }
}
