/** The tag and label commands from the text written to the tags and labels a frame carries. */
module PktgenTags {
  import opened Basics
  import opened PktgenLabels
  import opened PktgenStack

  // ---- What each command sets, from the digits written ----

  lemma VlanPIsSet(s: Stack, text: string, n: nat)
    requires |s.labels| == MAX_MPLS_LABELS && Run(text, n) && n < |text|
    ensures var v := DecimalValue(text, Min(n, 1));
            Apply(s, VlanP(text)) == if s.vlanId != OFF && v <= 7 then s.(vlanP := v) else s
  {
    NumberRead(text, 1, n);
  }

  lemma VlanCfiIsSet(s: Stack, text: string, n: nat)
    requires |s.labels| == MAX_MPLS_LABELS && Run(text, n) && n < |text|
    ensures var v := DecimalValue(text, Min(n, 1));
            Apply(s, VlanCfi(text)) == if s.vlanId != OFF && v <= 1 then s.(vlanCfi := v) else s
  {
    NumberRead(text, 1, n);
  }

  /** An SVLAN id needs a VLAN; otherwise, and when it is too large, both tags go. */
  lemma SvlanIdIsSet(s: Stack, text: string, n: nat)
    requires |s.labels| == MAX_MPLS_LABELS && Run(text, n) && n < |text|
    ensures var v := DecimalValue(text, Min(n, 4));
            Apply(s, SvlanId(text)) ==
            if s.vlanId != OFF && v <= 4095 then s.(svlanId := v, nrLabels := 0) else s.(vlanId := OFF, svlanId := OFF)
  {
    NumberRead(text, 4, n);
  }

  lemma SvlanPIsSet(s: Stack, text: string, n: nat)
    requires |s.labels| == MAX_MPLS_LABELS && Run(text, n) && n < |text|
    ensures var v := DecimalValue(text, Min(n, 1));
            Apply(s, SvlanP(text)) == if s.svlanId != OFF && v <= 7 then s.(svlanP := v) else s
  {
    NumberRead(text, 1, n);
  }

  lemma SvlanCfiIsSet(s: Stack, text: string, n: nat)
    requires |s.labels| == MAX_MPLS_LABELS && Run(text, n) && n < |text|
    ensures var v := DecimalValue(text, Min(n, 1));
            Apply(s, SvlanCfi(text)) == if s.svlanId != OFF && v <= 1 then s.(svlanCfi := v) else s
  {
    NumberRead(text, 1, n);
  }

  /** A number that the text breaks off changes nothing. */
  lemma BrokenOffChangesNothing(s: Stack, text: string)
    requires |s.labels| == MAX_MPLS_LABELS && Run(text, |text|)
    ensures |text| < 4 ==> Apply(s, VlanId(text)) == s == Apply(s, SvlanId(text))
    ensures |text| < 1 ==> Apply(s, VlanP(text)) == s == Apply(s, VlanCfi(text))
    ensures |text| < 1 ==> Apply(s, SvlanP(text)) == s == Apply(s, SvlanCfi(text))
  {
    NumberRead(text, 4, |text|);
    NumberRead(text, 1, |text|);
  }

  /** A list of labels replaces the one in force and turns both tags off. */
  lemma LabelsAreSet(s: Stack, text: string, ws: seq<string>, stop: char)
    requires |s.labels| == MAX_MPLS_LABELS && 1 <= |ws| <= 15 && Words(ws)
    requires Ends(ws, stop) && Joined(ws) + [stop] <= text
    requires s.vlanId == OFF ==> s.svlanId == OFF
    ensures var t := Apply(s, Mpls(text));
            && t.nrLabels == |ws| && t.labels[..t.nrLabels] == ReadsOf(ws)
            && t.mplsRandom == (s.mplsRandom || AnyBottom(ReadsOf(ws)))
            && t == s.(nrLabels := t.nrLabels, labels := t.labels, mplsRandom := t.mplsRandom,
                       vlanId := OFF, svlanId := OFF)
  {
    ListIsRead(text, ws, stop, s.labels, s.mplsRandom);
  }

  // ---- What a build randomises ----

  /** An entry is drawn anew: it keeps its bottom bit, and the rest is the draw's low 20 bits. */
  predicate Redrawn(entry: u32, draw: u32) {
    BottomBit(entry) && ClearBottom(entry) == ClearBottom(draw % 0x10_0000)
  }

  /** A build draws anew exactly the labels in force whose bottom bit is set, if labels are
      random, and the ids of the tags that are on, if those are; it keeps everything else. So
      a label that is random once is random in every build. */
  lemma BuildRandomises(s: Stack, d: StackDraws, i: nat)
    requires |s.labels| == MAX_MPLS_LABELS && i < MAX_MPLS_LABELS
    ensures var t := Randomize(s, d);
            && (if s.mplsRandom && i < s.nrLabels && BottomBit(s.labels[i]) then Redrawn(t.labels[i], d.labels[i])
                else t.labels[i] == s.labels[i])
            && (if s.vidRandom && s.vlanId != OFF then 0 <= t.vlanId <= 4095 && (d.vid - t.vlanId) % 4096 == 0
                else t.vlanId == s.vlanId)
            && (if s.svidRandom && s.svlanId != OFF then 0 <= t.svlanId <= 4095 && (d.svid - t.svlanId) % 4096 == 0
                else t.svlanId == s.svlanId)
            && t == s.(labels := t.labels, vlanId := t.vlanId, svlanId := t.svlanId)
  {
  }

  /** Event j was the last to set the flags before event k. */
  ghost predicate LastFlags(events: seq<Event>, j: nat, k: nat, mpls: bool, vid: bool, svid: bool)
    requires k <= |events|
  {
    && j < k && events[j] == Configure(Flags(mpls, vid, svid))
    && forall i :: j < i < k ==> !(events[i].Configure? && events[i].cmd.Flags?)
  }

  lemma {:induction false} FlagsHold(ss: seq<Stack>, events: seq<Event>, j: nat, k: nat,
                                     mpls: bool, vid: bool, svid: bool)
    requires IsHistory(ss, events) && k <= |events| && LastFlags(events, j, k, mpls, vid, svid)
    ensures ss[k].vidRandom == vid && ss[k].svidRandom == svid && (mpls ==> ss[k].mplsRandom)
    decreases k
  {
    assert EventAt(ss, events, k - 1);
    if j < k - 1 {
      FlagsHold(ss, events, j, k - 1, mpls, vid, svid);
      KeepsFlags(ss[k - 1], events[k - 1]);
    }
  }

  lemma KeepsFlags(s: Stack, e: Event)
    requires |s.labels| == MAX_MPLS_LABELS && !(e.Configure? && e.cmd.Flags?)
    ensures var t := React(s, e);
            t.vidRandom == s.vidRandom && t.svidRandom == s.svidRandom && (s.mplsRandom ==> t.mplsRandom)
  {
    if e.Configure? && e.cmd.Mpls? {
      RandomStays(e.cmd.text, 0, 0, s.labels, s.mplsRandom);
    }
  }

  lemma {:induction false} RandomStays(text: string, i: nat, n: nat, labels: seq<u32>, random: bool)
    requires n < MAX_MPLS_LABELS == |labels|
    ensures random ==> LabelsFrom(text, i, n, labels, random).random
    decreases MAX_MPLS_LABELS - n
  {
    var (h, num) := HexFrom(text, i, 0, LABEL_DIGITS, 0);
    if h.Consumed? && h.len > 0 && n + 1 < MAX_MPLS_LABELS {
      RandomStays(text, i + h.len + 1, n + 1, labels[n := num], random || BottomBit(num));
    }
  }

  /** Random labels that were turned off stay so while no labels are written. */
  lemma {:induction false} LabelsNotDrawn(ss: seq<Stack>, events: seq<Event>, j: nat, k: nat, vid: bool, svid: bool)
    requires IsHistory(ss, events) && k <= |events| && LastFlags(events, j, k, false, vid, svid)
    requires forall i :: j < i < k ==> !(events[i].Configure? && events[i].cmd.Mpls?)
    ensures !ss[k].mplsRandom
    decreases k
  {
    assert EventAt(ss, events, k - 1);
    if j < k - 1 {
      LabelsNotDrawn(ss, events, j, k - 1, vid, svid);
    }
  }

  /** In every build the flags that were set last decide which id is drawn. */
  lemma FlagsDecide(ss: seq<Stack>, events: seq<Event>, j: nat, k: nat, mpls: bool, vid: bool, svid: bool)
    requires IsHistory(ss, events) && k < |events| && LastFlags(events, j, k, mpls, vid, svid) && events[k].Build?
    ensures var s, t, d := ss[k], ss[k + 1], events[k].draws;
            && t.vlanId == (if vid && s.vlanId != OFF then d.vid % 4096 else s.vlanId)
            && t.svlanId == (if svid && s.svlanId != OFF then d.svid % 4096 else s.svlanId)
            && (mpls && s.nrLabels > 0 && BottomBit(s.labels[0]) ==> Redrawn(t.labels[0], d.labels[0]))
  {
    FlagsHold(ss, events, j, k, mpls, vid, svid);
    assert EventAt(ss, events, k);
    BuildRandomises(ss[k], events[k].draws, 0);
  }

  // ---- The last accepted values ----

  datatype Field = VlanIds | VlanPs | VlanCfis | SvlanIds | SvlanPs | SvlanCfis

  function Value(s: Stack, f: Field): u16 {
    match f
    case VlanIds => s.vlanId
    case VlanPs => s.vlanP
    case VlanCfis => s.vlanCfi
    case SvlanIds => s.svlanId
    case SvlanPs => s.svlanP
    case SvlanCfis => s.svlanCfi
  }

  predicate IsFor(cmd: Command, f: Field) {
    match f
    case VlanIds => cmd.VlanId?
    case VlanPs => cmd.VlanP?
    case VlanCfis => cmd.VlanCfi?
    case SvlanIds => cmd.SvlanId?
    case SvlanPs => cmd.SvlanP?
    case SvlanCfis => cmd.SvlanCfi?
  }

  function Digits(f: Field): nat { if f.VlanIds? || f.SvlanIds? then 4 else 1 }

  function Limit(f: Field): nat {
    if f.VlanIds? || f.SvlanIds? then 4095 else if f.VlanPs? || f.SvlanPs? then 7 else 1
  }

  /** The tag that a command needs. */
  predicate TagOn(s: Stack, f: Field) {
    match f
    case VlanIds => true
    case VlanPs => s.vlanId != OFF
    case VlanCfis => s.vlanId != OFF
    case SvlanIds => s.vlanId != OFF
    case SvlanPs => s.svlanId != OFF
    case SvlanCfis => s.svlanId != OFF
  }

  /** The command for f, with n digits that stand for v, is accepted. */
  predicate Accepted(s: Stack, e: Event, f: Field, n: nat, v: nat) {
    && e.Configure? && IsFor(e.cmd, f) && n < |e.cmd.text| && Run(e.cmd.text, n) && n <= Digits(f)
    && v == DecimalValue(e.cmd.text, n) && v <= Limit(f) && TagOn(s, f)
  }

  lemma AcceptedIsSet(s: Stack, e: Event, f: Field, n: nat, v: nat)
    requires |s.labels| == MAX_MPLS_LABELS && Accepted(s, e, f, n, v)
    ensures Value(React(s, e), f) == v
  {
    var text := e.cmd.text;
    match f
    case VlanIds => VlanIdIsSet(s, text, n);
    case VlanPs => VlanPIsSet(s, text, n);
    case VlanCfis => VlanCfiIsSet(s, text, n);
    case SvlanIds => SvlanIdIsSet(s, text, n);
    case SvlanPs => SvlanPIsSet(s, text, n);
    case SvlanCfis => SvlanCfiIsSet(s, text, n);
  }

  /** Commands and builds that may change a field: its own command, whatever turns tags off,
      and a build with random ids. */
  ghost predicate MayChange(s: Stack, e: Event, f: Field) {
    match e
    case Build(_) => (f.VlanIds? && s.vidRandom) || (f.SvlanIds? && s.svidRandom)
    case Configure(cmd) =>
      || IsFor(cmd, f)
      || ((f.VlanIds? || f.SvlanIds?) && (cmd.Mpls? || ((cmd.VlanId? || cmd.SvlanId?) && !KeepsTags(s, cmd))))
  }

  /** An id command that is accepted leaves the other id alone. */
  ghost predicate KeepsTags(s: Stack, cmd: Command) {
    exists n: nat, v: nat :: IdAccepted(s, cmd, n, v)
  }

  predicate IdAccepted(s: Stack, cmd: Command, n: nat, v: nat) {
    Accepted(s, Configure(cmd), if cmd.VlanId? then VlanIds else SvlanIds, n, v)
  }

  lemma AcceptedKeepsOther(s: Stack, cmd: Command, n: nat, v: nat, f: Field)
    requires |s.labels| == MAX_MPLS_LABELS && (cmd.VlanId? || cmd.SvlanId?) && !IsFor(cmd, f)
    requires IdAccepted(s, cmd, n, v)
    ensures Value(Apply(s, cmd), f) == Value(s, f)
  {
    if cmd.VlanId? {
      VlanIdIsSet(s, cmd.text, n);
    } else {
      SvlanIdIsSet(s, cmd.text, n);
    }
  }

  lemma BuildKeeps(s: Stack, d: StackDraws, f: Field)
    requires |s.labels| == MAX_MPLS_LABELS && !MayChange(s, Build(d), f)
    ensures Value(Randomize(s, d), f) == Value(s, f)
  {
  }

  lemma IdCommandKeeps(s: Stack, cmd: Command, f: Field)
    requires |s.labels| == MAX_MPLS_LABELS && (cmd.VlanId? || cmd.SvlanId?) && !MayChange(s, Configure(cmd), f)
    ensures Value(Apply(s, cmd), f) == Value(s, f)
  {
    if f.VlanIds? || f.SvlanIds? {
      var n: nat, v: nat :| IdAccepted(s, cmd, n, v);
      AcceptedKeepsOther(s, cmd, n, v, f);
    }
  }

  lemma OtherCommandKeeps(s: Stack, cmd: Command, f: Field)
    requires |s.labels| == MAX_MPLS_LABELS && !cmd.VlanId? && !cmd.SvlanId? && !MayChange(s, Configure(cmd), f)
    ensures Value(Apply(s, cmd), f) == Value(s, f)
  {
  }

  lemma OthersKeep(s: Stack, e: Event, f: Field)
    requires |s.labels| == MAX_MPLS_LABELS && !MayChange(s, e, f)
    ensures Value(React(s, e), f) == Value(s, f)
  {
    match e
    case Build(d) => BuildKeeps(s, d, f);
    case Configure(cmd) =>
      if cmd.VlanId? || cmd.SvlanId? {
        IdCommandKeeps(s, cmd, f);
      } else {
        OtherCommandKeeps(s, cmd, f);
      }
  }

  /** Event j has set the field to v, and no event from there to k may have changed it. */
  ghost predicate LastSet(ss: seq<Stack>, events: seq<Event>, j: nat, k: nat, f: Field, n: nat, v: nat)
    requires k <= |events| < |ss|
  {
    && j < k && Accepted(ss[j], events[j], f, n, v)
    && forall i :: j < i < k ==> !MayChange(ss[i], events[i], f)
  }

  lemma {:induction false} StillSet(ss: seq<Stack>, events: seq<Event>, j: nat, k: nat, f: Field, n: nat, v: nat)
    requires IsHistory(ss, events) && k <= |events| && LastSet(ss, events, j, k, f, n, v)
    ensures Value(ss[k], f) == v
    decreases k
  {
    assert EventAt(ss, events, k - 1);
    if k - 1 == j {
      AcceptedIsSet(ss[j], events[j], f, n, v);
    } else {
      StillSet(ss, events, j, k - 1, f, n, v);
      OthersKeep(ss[k - 1], events[k - 1], f);
    }
  }

  /** The digits last accepted for a field. */
  datatype Last = Last(at: nat, digits: nat, value: nat)

  ghost predicate IsLast(ss: seq<Stack>, events: seq<Event>, k: nat, f: Field, l: Last)
    requires k <= |events| < |ss|
  {
    LastSet(ss, events, l.at, k, f, l.digits, l.value)
  }

  /** From the commands to the frame: after any history the decoder finds in a frame the two
      tags with exactly the ids, CFIs and priorities that were last written and accepted. */
  lemma CommandsRoundTrip(ss: seq<Stack>, events: seq<Event>, k: nat, inner: u16, addresses: seq<u8>, rest: seq<u8>,
                          vid: Last, vp: Last, vc: Last, sid: Last, sp: Last, sc: Last)
    requires IsHistory(ss, events) && k <= |events|
    requires (inner == ETH_P_IP || inner == ETH_P_IPV6) && |addresses| == 12
    requires IsLast(ss, events, k, VlanIds, vid) && IsLast(ss, events, k, SvlanIds, sid)
    requires IsLast(ss, events, k, VlanPs, vp) && IsLast(ss, events, k, SvlanPs, sp)
    requires IsLast(ss, events, k, VlanCfis, vc) && IsLast(ss, events, k, SvlanCfis, sc)
    ensures StackInv(ss[k])
    ensures Decode(Frame(ss[k], inner, addresses, rest))
         == Decoded([Tag(sid.value, sc.value, sp.value), Tag(vid.value, vc.value, vp.value)], [], inner, 22)
  {
    StackRoundTrip(ss, events, k, inner, addresses, rest);
    StillSet(ss, events, vid.at, k, VlanIds, vid.digits, vid.value);
    StillSet(ss, events, vp.at, k, VlanPs, vp.digits, vp.value);
    StillSet(ss, events, vc.at, k, VlanCfis, vc.digits, vc.value);
    StillSet(ss, events, sid.at, k, SvlanIds, sid.digits, sid.value);
    StillSet(ss, events, sp.at, k, SvlanPs, sp.digits, sp.value);
    StillSet(ss, events, sc.at, k, SvlanCfis, sc.digits, sc.value);
    TwoTagsOn(ss[k], vid.value, vp.value, vc.value, sid.value, sp.value, sc.value);
  }

  lemma TwoTagsOn(s: Stack, vid: nat, vp: nat, vc: nat, sid: nat, sp: nat, sc: nat)
    requires StackInv(s) && s.vlanId == vid != OFF && s.vlanP == vp && s.vlanCfi == vc
    requires s.svlanId == sid != OFF && s.svlanP == sp && s.svlanCfi == sc
    ensures Tags(s) == [Tag(sid, sc, sp), Tag(vid, vc, vp)] && s.nrLabels == 0 && Overhead(s) == 8
    ensures Cleared(s.labels[..s.nrLabels]) == []
  {
  }

  /** The labels last written stay in force while no tag or label command is accepted and no
      build draws them anew. */
  predicate MayChangeLabels(s: Stack, e: Event) {
    match e
    case Build(_) => s.mplsRandom
    case Configure(cmd) => cmd.Mpls? || cmd.VlanId? || cmd.SvlanId?
  }

  lemma LabelsKept(s: Stack, e: Event)
    requires |s.labels| == MAX_MPLS_LABELS && !MayChangeLabels(s, e)
    ensures React(s, e).labels == s.labels && React(s, e).nrLabels == s.nrLabels
  {
  }

  lemma {:induction false} LabelsStillSet(ss: seq<Stack>, events: seq<Event>, j: nat, k: nat)
    requires IsHistory(ss, events) && j <= k <= |events|
    requires forall i :: j <= i < k ==> !MayChangeLabels(ss[i], events[i])
    ensures ss[k].labels == ss[j].labels && ss[k].nrLabels == ss[j].nrLabels
    decreases k
  {
    if j < k {
      LabelsStillSet(ss, events, j, k - 1);
      assert EventAt(ss, events, k - 1);
      LabelsKept(ss[k - 1], events[k - 1]);
    }
  }

  /** From the mpls command to the frame: the decoder finds the labels as they were read, but
      for their bottom bits, and no tag. */
  lemma LabelCommandRoundTrip(ss: seq<Stack>, events: seq<Event>, j: nat, k: nat, ws: seq<string>, stop: char,
                              inner: u16, addresses: seq<u8>, rest: seq<u8>)
    requires IsHistory(ss, events) && j < k <= |events| && events[j].Configure? && events[j].cmd.Mpls?
    requires 1 <= |ws| <= 15 && Words(ws) && Ends(ws, stop) && Joined(ws) + [stop] <= events[j].cmd.text
    requires forall i :: j < i < k ==> !MayChangeLabels(ss[i], events[i])
    requires (inner == ETH_P_IP || inner == ETH_P_IPV6) && |addresses| == 12
    ensures StackInv(ss[k])
    ensures Decode(Frame(ss[k], inner, addresses, rest))
         == Decoded([], Cleared(ReadsOf(ws)), ETH_P_MPLS_UC, 14 + 4 * |ws|)
  {
    LabelsHeld(ss, events, j, k, ws, stop);
    LabelsDecode(ss[k], ReadsOf(ws), inner, addresses, rest);
  }

  lemma LabelsHeld(ss: seq<Stack>, events: seq<Event>, j: nat, k: nat, ws: seq<string>, stop: char)
    requires IsHistory(ss, events) && j < k <= |events| && events[j].Configure? && events[j].cmd.Mpls?
    requires 1 <= |ws| <= 15 && Words(ws) && Ends(ws, stop) && Joined(ws) + [stop] <= events[j].cmd.text
    requires forall i :: j < i < k ==> !MayChangeLabels(ss[i], events[i])
    ensures StackInv(ss[k]) && ss[k].nrLabels == |ws| && ss[k].labels[..ss[k].nrLabels] == ReadsOf(ws)
  {
    LabelsAfterCommand(ss, events, j, ws, stop);
    LabelsStillSet(ss, events, j + 1, k);
    StackInvAlways(ss, events, k);
  }

  lemma LabelsDecode(s: Stack, labels: seq<u32>, inner: u16, addresses: seq<u8>, rest: seq<u8>)
    requires StackInv(s) && s.nrLabels == |labels| > 0 && s.labels[..s.nrLabels] == labels
    requires (inner == ETH_P_IP || inner == ETH_P_IPV6) && |addresses| == 12
    ensures Decode(Frame(s, inner, addresses, rest)) == Decoded([], Cleared(labels), ETH_P_MPLS_UC, 14 + 4 * |labels|)
  {
    DecodesFrame(s, inner, addresses, rest);
    NoTagsWithLabels(s);
  }

  lemma LabelsAfterCommand(ss: seq<Stack>, events: seq<Event>, j: nat, ws: seq<string>, stop: char)
    requires IsHistory(ss, events) && j < |events| && events[j].Configure? && events[j].cmd.Mpls?
    requires 1 <= |ws| <= 15 && Words(ws) && Ends(ws, stop) && Joined(ws) + [stop] <= events[j].cmd.text
    ensures ss[j + 1].nrLabels == |ws| && ss[j + 1].labels[..ss[j + 1].nrLabels] == ReadsOf(ws)
  {
    StackInvAlways(ss, events, j);
    assert EventAt(ss, events, j);
    LabelsAreSet(ss[j], events[j].cmd.text, ws, stop);
  }

  lemma NoTagsWithLabels(s: Stack)
    requires StackInv(s) && s.nrLabels > 0
    ensures Tags(s) == [] && Overhead(s) == 4 * s.nrLabels
  {
  }

  // ---- Both tags can be on ----

  /** vlan_id 0100 and svlan_id 0200 on a new device. */
  function TwoTags(): seq<Event> { [Configure(VlanId("0100\n")), Configure(SvlanId("0200\n"))] }

  lemma FourDigits(text: string)
    requires |text| == 5 && Run(text, 4)
    ensures DecimalValue(text, 4) == (text[0] as int - '0' as int) * 1000 + (text[1] as int - '0' as int) * 100
                                     + (text[2] as int - '0' as int) * 10 + (text[3] as int - '0' as int)
  {
    assert DecimalValue(text, 1) == text[0] as int - '0' as int;
    assert DecimalValue(text, 2) == 10 * DecimalValue(text, 1) + (text[1] as int - '0' as int);
    assert DecimalValue(text, 3) == 10 * DecimalValue(text, 2) + (text[2] as int - '0' as int);
  }

  lemma TwoTagsSet(ss: seq<Stack>)
    requires IsHistory(ss, TwoTags())
    ensures ss[2].vlanId == 100 && ss[2].svlanId == 200
  {
    var first, second := "0100\n", "0200\n";
    assert EventAt(ss, TwoTags(), 0) && EventAt(ss, TwoTags(), 1);
    FourDigits(first);
    FourDigits(second);
    VlanIdIsSet(ss[0], first, 4);
    SvlanIdIsSet(ss[1], second, 4);
  }

  /** A device with both tags on is reached from a new one. */
  lemma BothTagsReachable() returns (ss: seq<Stack>)
    ensures IsHistory(ss, TwoTags()) && ss[2].vlanId == 100 && ss[2].svlanId == 200
  {
    var events := TwoTags();
    var s1 := React(NO_STACK, events[0]);
    ss := [NO_STACK, s1, React(s1, events[1])];
    assert EventAt(ss, events, 0) && EventAt(ss, events, 1);
    TwoTagsSet(ss);
  }
}
