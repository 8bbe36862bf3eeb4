/** The VLAN and MPLS fields of struct pktgen_dev, updated in place by the commands and by
    every build. */
module PktgenStackDevice {
  import opened Basics
  import opened PktgenLabels
  import opened PktgenStack

  class StackDevice {
    var vlanId: u16
    var vlanCfi: u8
    var vlanP: u8
    var svlanId: u16
    var svlanCfi: u8
    var svlanP: u8
    var nrLabels: nat
    const labels: array<u32>
    var mplsRandom: bool
    var vidRandom: bool
    var svidRandom: bool

    constructor ()
      ensures Valid() && View() == NO_STACK && fresh(labels)
    {
      vlanId, vlanCfi, vlanP, svlanId, svlanCfi, svlanP := OFF, 0, 0, OFF, 0, 0;
      nrLabels, mplsRandom, vidRandom, svidRandom := 0, false, false, false;
      labels := new u32[MAX_MPLS_LABELS](_ => 0);
    }

    function View(): Stack
      reads this, labels
    {
      Stack(vlanId, vlanCfi, vlanP, svlanId, svlanCfi, svlanP, nrLabels, labels[..], mplsRandom, vidRandom, svidRandom)
    }

    /** The command invariant, which every method keeps. */
    ghost predicate Valid()
      reads this, labels
    {
      StackInv(View())
    }

    /** One label and the character after it: `ret` is final unless another label follows. */
    method GetLabel(text: string, i: nat, n: nat) returns (more: bool, ret: Parsed, j: nat)
      requires n < MAX_MPLS_LABELS == labels.Length
      modifies this`mplsRandom, labels
      ensures var r := LabelsFrom(text, i, n, old(labels[..]), old(mplsRandom));
              if more then n + 1 < MAX_MPLS_LABELS && r == LabelsFrom(text, j, n + 1, labels[..], mplsRandom)
              else r == LabelState(ret, r.count, labels[..], mplsRandom)
                   && r.count == if ret.Consumed? && ret.len > 0 then n + 1 else 0
    {
      more, j := false, i;
      var h, tmp := Hex32Arg(text, i, LABEL_DIGITS);
      if h.Fault? { return false, Fault, i; }
      if h.len == 0 { return false, Consumed(0), i; }
      labels[n] := tmp;
      assert labels[..] == old(labels[..])[n := tmp];
      if BottomBit(tmp) { mplsRandom := true; }
      j := i + h.len;
      if j >= |text| { return false, Fault, j; }
      var c := text[j];
      j := j + 1;
      if n + 1 >= MAX_MPLS_LABELS { return false, TooBig, j; }
      more, ret := c == ',', Consumed(j);
    }

    /** Reads a comma-separated label list into the array; on any failure no label is in
        force, but labels already read stay in the array. */
    method GetLabels(text: string) returns (ret: Parsed)
      requires labels.Length == MAX_MPLS_LABELS
      modifies this`nrLabels, this`mplsRandom, labels
      ensures var r := LabelsFrom(text, 0, 0, old(labels[..]), old(mplsRandom));
              ret == r.ret && nrLabels == r.count && labels[..] == r.labels && mplsRandom == r.random
    {
      ghost var all := LabelsFrom(text, 0, 0, labels[..], mplsRandom);
      nrLabels := 0;
      ret := Consumed(0);
      var n, i := 0, 0;
      var more := true;
      while more
        invariant n < MAX_MPLS_LABELS && (more ==> nrLabels == 0)
        invariant more ==> all == LabelsFrom(text, i, n, labels[..], mplsRandom)
        invariant !more ==> all == LabelState(ret, nrLabels, labels[..], mplsRandom)
        decreases MAX_MPLS_LABELS - n, more
      {
        more, ret, i := GetLabel(text, i, n);
        if more {
          n := n + 1;
        } else if ret.Consumed? && ret.len > 0 {
          nrLabels := n + 1;
        }
      }
    }

    method NumArg(text: string, maxlen: nat) returns (r: Parsed, num: nat)
      ensures (r, num) == NumFrom(text, 0, maxlen, 0)
    {
      var i := 0;
      num := 0;
      while i < maxlen
        invariant 0 <= i <= maxlen
        invariant NumFrom(text, 0, maxlen, 0) == NumFrom(text, i, maxlen, num)
      {
        if i >= |text| { return Fault, num; }
        if IsDigit(text[i]) {
          num := num * 10;
          num := num + (text[i] as int - '0' as int);
        } else {
          break;
        }
        i := i + 1;
      }
      r := Consumed(i);
    }

    method VlanOff()
      modifies this`vlanId, this`svlanId
      ensures View() == NoVlan(old(View()))
    {
      vlanId := OFF;
      svlanId := OFF;
    }

    method WriteMpls(text: string)
      requires Valid()
      modifies this`nrLabels, this`mplsRandom, this`vlanId, this`svlanId, labels
      ensures View() == ApplyMpls(old(View()), text)
    {
      var r := GetLabels(text);
      if r.Consumed? && nrLabels > 0 && vlanId != OFF { VlanOff(); }
    }

    method WriteVlanId(text: string)
      requires Valid()
      modifies this`nrLabels, this`vlanId, this`svlanId
      ensures View() == Apply(old(View()), VlanId(text))
    {
      var r, v := NumArg(text, 4);
      if r.Fault? { return; }
      if v <= 4095 {
        vlanId := v;
        nrLabels := 0;
      } else {
        VlanOff();
      }
    }

    method WriteSvlanId(text: string)
      requires Valid()
      modifies this`nrLabels, this`vlanId, this`svlanId
      ensures View() == Apply(old(View()), SvlanId(text))
    {
      var r, v := NumArg(text, 4);
      if r.Fault? { return; }
      if v <= 4095 && vlanId != OFF {
        svlanId := v;
        nrLabels := 0;
      } else {
        VlanOff();
      }
    }

    /** The priority and CFI commands take one digit and need their tag to be on. */
    method WriteTagBits(cmd: Command)
      requires Valid() && (cmd.VlanP? || cmd.VlanCfi? || cmd.SvlanP? || cmd.SvlanCfi?)
      modifies this`vlanP, this`vlanCfi, this`svlanP, this`svlanCfi
      ensures View() == Apply(old(View()), cmd)
    {
      var r, v := NumArg(cmd.text, 1);
      if r.Fault? { return; }
      match cmd
      case VlanP(_) =>
        if v <= 7 && vlanId != OFF { vlanP := v; }
      case VlanCfi(_) =>
        if v <= 1 && vlanId != OFF { vlanCfi := v; }
      case SvlanP(_) =>
        if v <= 7 && svlanId != OFF { svlanP := v; }
      case SvlanCfi(_) =>
        if v <= 1 && svlanId != OFF { svlanCfi := v; }
    }

    /** The branch of the command file's write handler for each of the stack commands. */
    method IfWrite(cmd: Command)
      requires Valid()
      modifies this, labels
      ensures Valid() && View() == Apply(old(View()), cmd)
    {
      ApplyKeepsInv(View(), cmd);
      match cmd
      case Mpls(text) => WriteMpls(text);
      case VlanId(text) => WriteVlanId(text);
      case SvlanId(text) => WriteSvlanId(text);
      case Flags(mpls, vid, svid) => mplsRandom, vidRandom, svidRandom := mpls, vid, svid;
      case _ => WriteTagBits(cmd);
    }

    /** The stack's part of building a packet. */
    method ModStack(d: StackDraws)
      requires Valid()
      modifies this`vlanId, this`svlanId, labels
      ensures Valid() && View() == Randomize(old(View()), d)
    {
      RandomizeKeepsInv(View(), d);
      if mplsRandom {
        var i := 0;
        while i < nrLabels
          modifies labels
          invariant 0 <= i <= nrLabels
          invariant forall k :: 0 <= k < labels.Length ==>
                      labels[k] == if k < i then RandomLabel(old(labels[k]), d.labels[k]) else old(labels[k])
        {
          if BottomBit(labels[i]) {
            var low := d.labels[i] % 0x10_0000;
            labels[i] := if BottomBit(low) then low else low + 256;
          }
          i := i + 1;
        }
      }
      assert labels[..] == RandomLabels(old(View()), d.labels);
      if vidRandom && vlanId != OFF { vlanId := d.vid % 4096; }
      if svidRandom && svlanId != OFF { svlanId := d.svid % 4096; }
    }

    /** mpls_push: writes every label with the bottom bit clear, then sets it in the last. */
    method MplsPush() returns (entries: seq<u32>)
      requires Valid() && nrLabels > 0
      ensures |entries| == nrLabels
      ensures forall k :: 0 <= k < nrLabels ==>
                entries[k] == if k == nrLabels - 1 then SetBottom(labels[k]) else ClearBottom(labels[k])
    {
      entries := [];
      var i := 0;
      while i < nrLabels
        invariant 0 <= i <= nrLabels && |entries| == i
        invariant forall k :: 0 <= k < i ==> entries[k] == ClearBottom(labels[k])
      {
        entries := entries + [ClearBottom(labels[i])];
        i := i + 1;
      }
      entries := entries[i - 1 := SetBottom(entries[i - 1])];
    }

    /** The bytes between the Ethernet header and the IP header, in the order in which the
        packet builder appends them. */
    method PushStack(inner: u16) returns (protocol: u16, bytes: seq<u8>)
      requires Valid()
      ensures protocol == Protocol(View(), inner) && bytes == StackBytes(View(), inner)
    {
      protocol := inner;
      if nrLabels > 0 { protocol := ETH_P_MPLS_UC; }
      if vlanId != OFF { protocol := ETH_P_8021Q; }
      bytes := [];
      if nrLabels > 0 {
        var entries := MplsPush();
        var i := 0;
        while i < |entries|
          invariant 0 <= i <= |entries| == nrLabels
          invariant bytes + LabelBytes(labels[i..nrLabels]) == LabelBytes(labels[..nrLabels])
        {
          assert labels[i..nrLabels][1..] == labels[i + 1..nrLabels];
          assert bytes + (Be32(entries[i]) + LabelBytes(labels[i + 1..nrLabels]))
              == (bytes + Be32(entries[i])) + LabelBytes(labels[i + 1..nrLabels]);
          bytes := bytes + Be32(entries[i]);
          i := i + 1;
        }
      }
      if vlanId != OFF {
        if svlanId != OFF {
          bytes := bytes + Be16(BuildTci(svlanId, svlanCfi, svlanP));
          bytes := bytes + Be16(ETH_P_8021Q);
        }
        bytes := bytes + Be16(BuildTci(vlanId, vlanCfi, vlanP));
        bytes := bytes + Be16(inner);
      }
    }
  }
}
