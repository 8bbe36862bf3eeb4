/** The flow table when flows are chosen at random, when there are none, and for IPv6. */
module PktgenFlowModes {
  import opened ModArith
  import opened Basics
  import opened PktgenOdometer
  import opened PktgenFlows

  // ---- Flows chosen at random ----

  predicate Random(c: FlowConfig) { !c.sequential && c.cflows > 0 }

  /** The slot that a random number chooses. */
  function SlotOf(c: FlowConfig, pick: u32): nat
    requires c.cflows > 0
  {
    pick % c.cflows
  }

  /** The packet finds no flow in its slot, or one that has had more than lflow packets. */
  predicate Opens(c: FlowConfig, t: FlowTable, pick: u32)
    requires Fits(c, t) && c.cflows > 0
  {
    var f := t.flows[SlotOf(c, pick)]; !f.seen || f.count > c.lflow
  }

  /** One packet, when flows are random: it belongs to the slot drawn. If it opens a flow, this
      is counted, goes to the next destination after that of the previous packet, and has one
      packet; if not, the packet goes where its flow goes. No other slot changes. */
  lemma RandomPacket(c: FlowConfig, t: FlowTable, pick: u32, dst: seq<u32>)
    requires Random(c) && Fits(c, t)
    ensures var s, r := SlotOf(c, pick), FlowStep(c, t, pick, dst);
            && r.curfl == s && |r.flows| == |t.flows|
            && (forall i :: 0 <= i < |t.flows| && i != s ==> r.flows[i] == t.flows[i])
            && r.flows[s].seen && r.flows[s].daddr == r.daddr
            && if Opens(c, t, pick) then
                 && r.nflows == (t.nflows + 1) % TWO_32 && r.daddr == NextDestination(c, t.daddr, dst)
                 && ((!t.flows[s].seen ==> t.flows[s].count == 0) ==> r.flows[s].count == 1)
               else
                 && r.nflows == t.nflows && r.daddr == t.flows[s].daddr
                 && r.flows[s].count == (t.flows[s].count + 1) % TWO_32
  {
    RemIsModulo(pick, c.cflows);
  }

  /** The next destination: in order, the successor, and after the last the first; at random,
      the last draw, if it is the first that can be routed; the same in a range of one. */
  lemma NextDestinationIs(c: FlowConfig, cur: u32, draws: seq<u32>)
    requires c.dstMin <= cur <= c.dstMax && WrapSafe(c.dstMin, c.dstMax)
    ensures var a := NextDestination(c, cur, draws);
            && (c.dstMin == c.dstMax ==> a == cur)
            && (c.dstMin < c.dstMax && !c.dstRandom ==> a == if cur == c.dstMax then c.dstMin else cur + 1)
            && (c.dstMin < c.dstMax && c.dstRandom && draws != [] && Routable(Drawn(c, draws[|draws| - 1]))
                && (forall k :: 0 <= k < |draws| - 1 ==> !Routable(Drawn(c, draws[k]))) ==>
                  a == c.dstMin + draws[|draws| - 1] % (c.dstMax - c.dstMin))
  {
    if c.dstMin < c.dstMax && draws != [] {
      RemIsModulo(draws[|draws| - 1], c.dstMax - c.dstMin);
    }
  }

  /** How many of the first n packets belong to slot s. */
  function InSlot(c: FlowConfig, draws: seq<(u32, seq<u32>)>, s: nat, n: nat): nat
    requires c.cflows > 0 && n <= |draws|
  {
    if n == 0 then 0 else InSlot(c, draws, s, n - 1) + if SlotOf(c, draws[n - 1].0) == s then 1 else 0
  }

  /** A slot that has had p packets. */
  predicate SlotAt(c: FlowConfig, f: Flow, p: nat) {
    if p == 0 then f.count == 0 && !f.seen else f.seen && f.count == Rem(p - 1, c.lflow + 1) + 1
  }

  /** The slot after one packet more. */
  lemma SlotMoves(c: FlowConfig, f: Flow, g: Flow, p: nat)
    requires c.lflow < TWO_32 - 1 && SlotAt(c, f, p)
    requires if !f.seen || f.count > c.lflow then g.seen && g.count == 1
             else g.seen && g.count == (f.count + 1) % TWO_32
    ensures SlotAt(c, g, p + 1) && (!f.seen || f.count > c.lflow <==> Rem(p, c.lflow + 1) == 0)
  {
    if p > 0 {
      RemSucc(p - 1, c.lflow + 1);
    }
  }

  lemma {:induction false} RandomSlots(c: FlowConfig, ts: seq<FlowTable>, draws: seq<(u32, seq<u32>)>, s: nat, n: nat)
    requires IsFlowRun(c, ts, draws) && Random(c) && c.lflow < TWO_32 - 1 && Fresh(c, ts[0]) && n < |ts|
    requires s < c.cflows
    ensures SlotAt(c, ts[n].flows[s], InSlot(c, draws, s, n))
  {
    if n > 0 {
      RandomSlots(c, ts, draws, s, n - 1);
      assert FlowAt(c, ts, draws, n - 1);
      RandomPacket(c, ts[n - 1], draws[n - 1].0, draws[n - 1].1);
      if SlotOf(c, draws[n - 1].0) == s {
        SlotMoves(c, ts[n - 1].flows[s], ts[n].flows[s], InSlot(c, draws, s, n - 1));
      }
    }
  }

  /** Over every run from a fresh table: a packet opens a flow exactly when the number of
      earlier packets of its slot is a multiple of lflow + 1. So every flow that is followed by
      another in its slot has had lflow + 1 packets, one more than when flows are sequential,
      and none ever has more. */
  lemma RandomFlowsOpen(c: FlowConfig, ts: seq<FlowTable>, draws: seq<(u32, seq<u32>)>, k: nat)
    requires IsFlowRun(c, ts, draws) && Random(c) && c.lflow < TWO_32 - 1 && Fresh(c, ts[0]) && k < |draws|
    ensures var s := SlotOf(c, draws[k].0);
            && ts[k + 1].curfl == s && 1 <= ts[k + 1].flows[s].count <= c.lflow + 1
            && (Opens(c, ts[k], draws[k].0) <==> InSlot(c, draws, s, k) % (c.lflow + 1) == 0)
            && ts[k + 1].flows[s].count == InSlot(c, draws, s, k) % (c.lflow + 1) + 1
  {
    var s := SlotOf(c, draws[k].0);
    RandomSlots(c, ts, draws, s, k);
    assert FlowAt(c, ts, draws, k);
    RandomPacket(c, ts[k], draws[k].0, draws[k].1);
    SlotMoves(c, ts[k].flows[s], ts[k + 1].flows[s], InSlot(c, draws, s, k));
    RemIsModulo(InSlot(c, draws, s, k), c.lflow + 1);
  }

  /** Packet k opens a flow. */
  ghost predicate OpensAt(c: FlowConfig, ts: seq<FlowTable>, draws: seq<(u32, seq<u32>)>, k: nat)
    requires IsFlowRun(c, ts, draws) && c.cflows > 0 && k < |draws|
  {
    Opens(c, ts[k], draws[k].0)
  }

  /** How many of the first n packets open a flow. */
  ghost function Opened(c: FlowConfig, ts: seq<FlowTable>, draws: seq<(u32, seq<u32>)>, n: nat): nat
    requires IsFlowRun(c, ts, draws) && c.cflows > 0 && n <= |draws|
  {
    if n == 0 then 0 else Opened(c, ts, draws, n - 1) + if OpensAt(c, ts, draws, n - 1) then 1 else 0
  }

  lemma CountStep(c: FlowConfig, ts: seq<FlowTable>, draws: seq<(u32, seq<u32>)>, k: nat)
    requires IsFlowRun(c, ts, draws) && Random(c) && k < |draws|
    ensures ts[k + 1].nflows == if OpensAt(c, ts, draws, k) then (ts[k].nflows + 1) % TWO_32 else ts[k].nflows
  {
    assert FlowAt(c, ts, draws, k);
    RandomPacket(c, ts[k], draws[k].0, draws[k].1);
  }

  lemma {:induction false} RandomFlowsCounted(c: FlowConfig, ts: seq<FlowTable>, draws: seq<(u32, seq<u32>)>, n: nat)
    requires IsFlowRun(c, ts, draws) && Random(c) && n <= |draws|
    ensures ts[n].nflows == Rem(ts[0].nflows + Opened(c, ts, draws, n), TWO_32)
  {
    if n > 0 {
      RandomFlowsCounted(c, ts, draws, n - 1);
      CountStep(c, ts, draws, n - 1);
      RemNext(ts[0].nflows + Opened(c, ts, draws, n - 1), TWO_32);
    }
  }

  /** The destination of a slot stays as long as no packet opens a flow in it. */
  lemma {:induction false} SlotKeepsDestination(c: FlowConfig, ts: seq<FlowTable>, draws: seq<(u32, seq<u32>)>,
                                                s: nat, i: nat, k: nat)
    requires IsFlowRun(c, ts, draws) && Random(c) && i <= k < |ts| && s < c.cflows
    requires forall m :: i <= m < k && SlotOf(c, draws[m].0) == s ==> !Opens(c, ts[m], draws[m].0)
    ensures ts[k].flows[s].daddr == ts[i].flows[s].daddr
    decreases k
  {
    if i < k {
      SlotKeepsDestination(c, ts, draws, s, i, k - 1);
      assert FlowAt(c, ts, draws, k - 1);
      RandomPacket(c, ts[k - 1], draws[k - 1].0, draws[k - 1].1);
    }
  }

  /** All packets of one flow go to one destination: packets i and k are of the same slot, and
      none of the slot after i up to k opens a flow. */
  lemma OneDestinationPerFlow(c: FlowConfig, ts: seq<FlowTable>, draws: seq<(u32, seq<u32>)>, i: nat, k: nat)
    requires IsFlowRun(c, ts, draws) && Random(c) && i < k < |draws|
    requires SlotOf(c, draws[i].0) == SlotOf(c, draws[k].0)
    requires forall m :: i < m <= k && SlotOf(c, draws[m].0) == SlotOf(c, draws[i].0) ==> !Opens(c, ts[m], draws[m].0)
    ensures ts[k + 1].daddr == ts[i + 1].daddr
  {
    var s := SlotOf(c, draws[i].0);
    assert FlowAt(c, ts, draws, i) && FlowAt(c, ts, draws, k);
    RandomPacket(c, ts[i], draws[i].0, draws[i].1);
    RandomPacket(c, ts[k], draws[k].0, draws[k].1);
    SlotKeepsDestination(c, ts, draws, s, i + 1, k);
  }

  // ---- Without flows ----

  /** Without flows every packet takes the next destination and no flow is counted. */
  lemma PacketWithoutFlows(c: FlowConfig, t: FlowTable, pick: u32, dst: seq<u32>)
    requires c.cflows == 0 && Fits(c, t)
    ensures var r := FlowStep(c, t, pick, dst);
            r.nflows == t.nflows && r.daddr == NextDestination(c, t.daddr, dst) && r.curfl == t.curfl
  {
  }

  /** The n-th packet, from 1, of a device without flows goes to min + n mod (max - min + 1). */
  lemma {:induction false} NthWithoutFlows(c: FlowConfig, ts: seq<FlowTable>, draws: seq<(u32, seq<u32>)>, n: nat)
    requires IsFlowRun(c, ts, draws) && c.cflows == 0 && n < |ts| && ts[0].daddr == c.dstMin
    requires !c.dstRandom && c.dstMin < c.dstMax && WrapSafe(c.dstMin, c.dstMax)
    ensures ts[n].daddr == c.dstMin + Rem(n, c.dstMax - c.dstMin + 1) && ts[n].nflows == ts[0].nflows
  {
    if n > 0 {
      NthWithoutFlows(c, ts, draws, n - 1);
      assert FlowAt(c, ts, draws, n - 1);
      PacketWithoutFlows(c, ts[n - 1], draws[n - 1].0, draws[n - 1].1);
      NextDestinationIs(c, ts[n - 1].daddr, draws[n - 1].1);
      RemSucc(n - 1, c.dstMax - c.dstMin + 1);
    }
  }

  /** At random, each packet's destination is its own draw. */
  lemma DrawnWithoutFlows(c: FlowConfig, ts: seq<FlowTable>, draws: seq<(u32, seq<u32>)>, k: nat)
    requires IsFlowRun(c, ts, draws) && c.cflows == 0 && k < |draws| && c.dstRandom && c.dstMin < c.dstMax
    requires FirstRoutable(c, draws[k].1) < |draws[k].1|
    ensures var draw := draws[k].1[FirstRoutable(c, draws[k].1)];
            ts[k + 1].daddr == c.dstMin + draw % (c.dstMax - c.dstMin) && Routable(ts[k + 1].daddr)
  {
    assert FlowAt(c, ts, draws, k);
    PacketWithoutFlows(c, ts[k], draws[k].0, draws[k].1);
    RemIsModulo(draws[k].1[FirstRoutable(c, draws[k].1)], c.dstMax - c.dstMin);
  }

  // ---- IPv6 ----

  /** One packet of an IPv6 device with random flows: it is counted in the slot drawn, which
      begins anew after more than lflow packets; no destination and no flow is recorded. */
  lemma RandomPacketOfIn6(c: FlowConfig, t: FlowTable, pick: u32)
    requires Random(c) && Fits(c, t)
    ensures var s := SlotOf(c, pick);
            var (p, slot) := Pick(c, t, pick);
            var r := CountPacket(p, slot);
            && slot == s && r.curfl == s && r.nflows == t.nflows && r.daddr == t.daddr
            && r.flows[s].count == (if t.flows[s].count > c.lflow then 1 else (t.flows[s].count + 1) % TWO_32)
            && r.flows == t.flows[s := r.flows[s]]
  {
    RemIsModulo(pick, c.cflows);
  }

  /** Slot s has had j packets, the others none, and no slot has a destination. */
  ghost predicate InSlotOnly(c: FlowConfig, t: FlowTable, s: nat, j: nat) {
    && Fits(c, t) && s < c.cflows && j <= c.lflow && t.curfl == s && t.flows[s].count == j
    && (forall i :: 0 <= i < |t.flows| ==> !t.flows[i].seen)
    && forall i :: 0 <= i < |t.flows| && i != s ==> t.flows[i].count == 0
  }

  /** One packet of an IPv6 device, whose flows have slots and counts but no destinations. */
  lemma PacketOfIn6(c: FlowConfig, t: FlowTable, pick: u32, s: nat, j: nat)
    requires c.sequential && c.lflow >= 1 && InSlotOnly(c, t, s, j)
    ensures var (p, slot) := Pick(c, t, pick);
            var r := CountPacket(p, slot);
            && r.nflows == t.nflows && r.daddr == t.daddr
            && if j < c.lflow then InSlotOnly(c, r, s, j + 1) else InSlotOnly(c, r, NextSlot(c.cflows, s), 1)
  {
  }
}
