/** The flow table: which slot a packet belongs to and the destination it keeps. */
module PktgenFlows {
  import opened ModArith
  import opened Basics
  import opened PktgenOdometer

  /** `seen` is the F_INIT flag; the destination is in host order. */
  datatype Flow = Flow(count: u32, seen: bool, daddr: u32)

  datatype FlowConfig = FlowConfig(sequential: bool, cflows: u32, lflow: u32,
                                   dstRandom: bool, dstMin: u32, dstMax: u32)

  datatype FlowTable = FlowTable(flows: seq<Flow>, curfl: u32, nflows: u32, daddr: u32)

  /** The current slot and all configured slots exist. */
  predicate Fits(c: FlowConfig, t: FlowTable) {
    |t.flows| > 0 && c.cflows <= |t.flows| && t.curfl < |t.flows|
  }

  function Reset(f: Flow): Flow { f.(count := 0, seen := false) }

  /** Chooses the slot of the next packet, first resetting a finished flow. */
  function Pick(c: FlowConfig, t: FlowTable, draw: u32): (r: (FlowTable, nat))
    requires Fits(c, t) && c.cflows > 0
    ensures Fits(c, r.0) && r.1 == r.0.curfl
  {
    if c.sequential then
      if t.flows[t.curfl].count >= c.lflow then
        var next := if t.curfl + 1 >= c.cflows then 0 else t.curfl + 1;
        (t.(flows := t.flows[t.curfl := Reset(t.flows[t.curfl])], curfl := next), next)
      else (t, t.curfl)
    else
      var flow := Rem(draw, c.cflows);
      var flows := if t.flows[flow].count > c.lflow then t.flows[flow := Reset(t.flows[flow])] else t.flows;
      (t.(flows := flows, curfl := flow), flow)
  }

  /** Random destinations are drawn again when they are loopback, zero-net or multicast
      addresses, or the limited broadcast. */
  predicate Routable(a: u32) {
    a / 0x100_0000 != 127 && a / 0x100_0000 != 0 && a / 0x1000_0000 != 14 && a != 0xFFFF_FFFF
  }

  function Drawn(c: FlowConfig, draw: u32): u32
    requires c.dstMin < c.dstMax
  {
    Rem(draw, c.dstMax - c.dstMin) + c.dstMin
  }

  /** The first draw that gives a routable destination. */
  function FirstRoutable(c: FlowConfig, draws: seq<u32>): (i: nat)
    requires c.dstMin < c.dstMax
    ensures i <= |draws| && (forall k :: 0 <= k < i ==> !Routable(Drawn(c, draws[k])))
    ensures i < |draws| ==> Routable(Drawn(c, draws[i]))
  {
    if draws == [] || Routable(Drawn(c, draws[0])) then 0 else 1 + FirstRoutable(c, draws[1..])
  }

  /** Drawing goes on until a destination is routable; until then the current one stays. */
  function NextDestination(c: FlowConfig, cur: u32, draws: seq<u32>): u32 {
    if c.dstMin >= c.dstMax then cur
    else if c.dstRandom then
      var i := FirstRoutable(c, draws);
      if i < |draws| then Drawn(c, draws[i]) else cur
    else NextInRange(c.dstMin, c.dstMax, cur)
  }

  /** The IPv4 destination: the flow's own if the slot has one, else the next in range. */
  function Destination(c: FlowConfig, t: FlowTable, flow: nat, draws: seq<u32>): (r: FlowTable)
    requires Fits(c, t) && flow < |t.flows|
    ensures Fits(c, r) && |r.flows| == |t.flows|
  {
    if c.cflows > 0 && t.flows[flow].seen then t.(daddr := t.flows[flow].daddr)
    else
      var daddr := NextDestination(c, t.daddr, draws);
      if c.cflows == 0 then t.(daddr := daddr)
      else t.(daddr := daddr, nflows := (t.nflows + 1) % TWO_32,
              flows := t.flows[flow := t.flows[flow].(seen := true, daddr := daddr)])
  }

  function CountPacket(t: FlowTable, flow: nat): FlowTable
    requires flow < |t.flows|
  {
    t.(flows := t.flows[flow := t.flows[flow].(count := (t.flows[flow].count + 1) % TWO_32)])
  }

  /** The table's part of building one IPv4 packet. */
  function FlowStep(c: FlowConfig, t: FlowTable, pick: u32, dst: seq<u32>): (r: FlowTable)
    requires Fits(c, t)
    ensures Fits(c, r)
  {
    var (picked, flow) := if c.cflows > 0 then Pick(c, t, pick) else (t, 0);
    CountPacket(Destination(c, picked, flow, dst), flow)
  }

  ghost predicate FlowAt(c: FlowConfig, ts: seq<FlowTable>, draws: seq<(u32, seq<u32>)>, k: nat)
    requires k < |draws| < |ts| && Fits(c, ts[k])
  {
    ts[k + 1] == FlowStep(c, ts[k], draws[k].0, draws[k].1)
  }

  /** ts is a run: packet k takes ts[k] to ts[k + 1]. */
  ghost predicate IsFlowRun(c: FlowConfig, ts: seq<FlowTable>, draws: seq<(u32, seq<u32>)>) {
    && |ts| == |draws| + 1 && (forall k :: 0 <= k < |ts| ==> Fits(c, ts[k]))
    && forall k :: 0 <= k < |draws| ==> FlowAt(c, ts, draws, k)
  }

  // ---- Sequential flows ----

  /** Sequential flows over a destination range that is walked in order. */
  predicate Sequential(c: FlowConfig) {
    && c.sequential && c.cflows >= 1 && c.lflow >= 1
    && !c.dstRandom && c.dstMin < c.dstMax && WrapSafe(c.dstMin, c.dstMax)
  }

  /** A table no packet has used, as a device has it when it is created. */
  predicate Fresh(c: FlowConfig, t: FlowTable) {
    && Fits(c, t) && t.curfl == 0 && t.nflows == 0 && t.daddr == c.dstMin
    && forall i :: 0 <= i < |t.flows| ==> t.flows[i].count == 0 && !t.flows[i].seen
  }

  /** The table while slot s holds the current flow: it has sent j packets to destination w of
      the walk, and f flows have been opened. */
  ghost predicate InFlow(c: FlowConfig, t: FlowTable, w: nat, f: nat, s: nat, j: nat) {
    && Fits(c, t) && 1 <= j <= c.lflow && s < c.cflows
    && t.curfl == s && t.nflows == f % TWO_32
    && t.daddr == Walk(c.dstMin, c.dstMax, w)
    && t.flows[s] == Flow(j, true, t.daddr)
    && forall i :: 0 <= i < |t.flows| && i != s ==> t.flows[i].count == 0 && !t.flows[i].seen
  }

  /** A table whose slots are all reset, about to open a flow in slot s. */
  ghost predicate Opening(c: FlowConfig, t: FlowTable, w: nat, f: nat, s: nat) {
    && Fits(c, t) && s < c.cflows && t.curfl == s && t.nflows == f % TWO_32
    && t.daddr == Walk(c.dstMin, c.dstMax, w)
    && forall i :: 0 <= i < |t.flows| ==> t.flows[i].count == 0 && !t.flows[i].seen
  }

  function NextSlot(cflows: u32, s: nat): nat { if s == cflows - 1 then 0 else s + 1 }

  lemma OpensFlow(c: FlowConfig, t: FlowTable, w: nat, f: nat, s: nat, dst: seq<u32>)
    requires Sequential(c) && Opening(c, t, w, f, s)
    ensures InFlow(c, CountPacket(Destination(c, t, s, dst), s), w + 1, f + 1, s, 1)
  {
    assert Walk(c.dstMin, c.dstMax, w + 1) == NextInRange(c.dstMin, c.dstMax, Walk(c.dstMin, c.dstMax, w));
  }

  lemma NextPacketSameFlow(c: FlowConfig, t: FlowTable, w: nat, f: nat, s: nat, j: nat, pick: u32, dst: seq<u32>)
    requires Sequential(c) && InFlow(c, t, w, f, s, j) && j < c.lflow
    ensures InFlow(c, FlowStep(c, t, pick, dst), w, f, s, j + 1)
  {
  }

  lemma FinishedFlowIsReset(c: FlowConfig, t: FlowTable, w: nat, f: nat, s: nat, pick: u32)
    requires Sequential(c) && InFlow(c, t, w, f, s, c.lflow)
    ensures Opening(c, Pick(c, t, pick).0, w, f, NextSlot(c.cflows, s))
  {
  }

  lemma NextPacketNextFlow(c: FlowConfig, t: FlowTable, w: nat, f: nat, s: nat, pick: u32, dst: seq<u32>)
    requires Sequential(c) && InFlow(c, t, w, f, s, c.lflow)
    ensures InFlow(c, FlowStep(c, t, pick, dst), w + 1, f + 1, NextSlot(c.cflows, s), 1)
  {
    var picked := Pick(c, t, pick).0;
    FinishedFlowIsReset(c, t, w, f, s, pick);
    OpensFlow(c, picked, w, f, picked.curfl, dst);
  }

  /** Flows opened since, slot, and packet number within the flow, k packets after packet j of
      a flow in slot s, counted. */
  function Position(cflows: u32, lflow: u32, s: nat, j: nat, k: nat): (nat, nat, nat)
    decreases k
  {
    if k == 0 then (0, s, j)
    else
      var (m, t, i) := Position(cflows, lflow, s, j, k - 1);
      if i < lflow then (m, t, i + 1) else (m + 1, NextSlot(cflows, t), 1)
  }

  lemma {:induction false} PositionClosedForm(cflows: u32, lflow: u32, s: nat, j: nat, k: nat)
    requires s < cflows && 1 <= j <= lflow
    ensures var m := Quot(j - 1 + k, lflow);
            Position(cflows, lflow, s, j, k) == (m, Rem(s + m, cflows), Rem(j - 1 + k, lflow) + 1)
    decreases k
  {
    if k > 0 {
      var before := j - 1 + (k - 1);
      PositionClosedForm(cflows, lflow, s, j, k - 1);
      QuotSucc(before, lflow);
      RemSucc(before, lflow);
      RemSucc(s + Quot(before, lflow), cflows);
    }
  }

  lemma NextPacket(c: FlowConfig, t: FlowTable, w: nat, f: nat, s: nat, j: nat, k: nat, pick: u32, dst: seq<u32>)
    requires Sequential(c)
    requires var (m, r, i) := Position(c.cflows, c.lflow, s, j, k); InFlow(c, t, w + m, f + m, r, i)
    ensures var (m, r, i) := Position(c.cflows, c.lflow, s, j, k + 1);
            InFlow(c, FlowStep(c, t, pick, dst), w + m, f + m, r, i)
  {
    var (m, r, i) := Position(c.cflows, c.lflow, s, j, k);
    if i < c.lflow {
      NextPacketSameFlow(c, t, w + m, f + m, r, i, pick, dst);
    } else {
      NextPacketNextFlow(c, t, w + m, f + m, r, pick, dst);
    }
  }

  lemma {:induction false} SequentialFlowsInFlow(c: FlowConfig, ts: seq<FlowTable>, draws: seq<(u32, seq<u32>)>,
                                                 w: nat, f: nat, s: nat, j: nat, k: nat)
    requires IsFlowRun(c, ts, draws) && Sequential(c) && InFlow(c, ts[0], w, f, s, j) && k < |ts|
    ensures var (m, r, i) := Position(c.cflows, c.lflow, s, j, k); InFlow(c, ts[k], w + m, f + m, r, i)
    decreases k
  {
    if k > 0 {
      SequentialFlowsInFlow(c, ts, draws, w, f, s, j, k - 1);
      assert FlowAt(c, ts, draws, k - 1);
      NextPacket(c, ts[k - 1], w, f, s, j, k - 1, draws[k - 1].0, draws[k - 1].1);
    }
  }

  /** The closed form at packet number k, counted from 0 from the first packet of a flow that
      had slot s, destination w of the walk and number f: the packet belongs to slot
      (s + k / lflow) mod cflows and goes to destination w + k / lflow of the cycle;
      f + k / lflow flows have been opened, and every slot but the current one is reset. */
  ghost predicate AtPacketFrom(c: FlowConfig, t: FlowTable, w: nat, f: nat, s: nat, k: nat)
    requires Sequential(c)
  {
    var flow := Quot(k, c.lflow);
    && t.curfl == Rem(s + flow, c.cflows) && t.curfl < |t.flows|
    && t.daddr == c.dstMin + Rem(w + flow, c.dstMax - c.dstMin + 1)
    && t.nflows == (f + flow) % TWO_32
    && t.flows[t.curfl] == Flow(Rem(k, c.lflow) + 1, true, t.daddr)
    && forall i :: 0 <= i < |t.flows| && i != t.curfl ==> t.flows[i].count == 0 && !t.flows[i].seen
  }

  lemma InFlowIsAtPacket(c: FlowConfig, t: FlowTable, w: nat, f: nat, s: nat, k: nat, m: nat)
    requires Sequential(c) && m == Quot(k, c.lflow)
    requires InFlow(c, t, w + m, f + m, Rem(s + m, c.cflows), Rem(k, c.lflow) + 1)
    ensures AtPacketFrom(c, t, w, f, s, k)
  {
    WalkClosedForm(c.dstMin, c.dstMax, w + m);
  }

  /** From any table in the middle of a flow on, packets follow the closed form. */
  lemma SequentialFlowsFrom(c: FlowConfig, ts: seq<FlowTable>, draws: seq<(u32, seq<u32>)>,
                            w: nat, f: nat, s: nat, j: nat, k: nat)
    requires IsFlowRun(c, ts, draws) && Sequential(c) && InFlow(c, ts[0], w, f, s, j) && k < |ts|
    ensures AtPacketFrom(c, ts[k], w, f, s, j - 1 + k)
  {
    SequentialFlowsInFlow(c, ts, draws, w, f, s, j, k);
    PositionClosedForm(c.cflows, c.lflow, s, j, k);
    InFlowIsAtPacket(c, ts[k], w, f, s, j - 1 + k, Quot(j - 1 + k, c.lflow));
  }

  /** The same from the table after the first packet. */
  lemma SequentialFlowsAfterFirst(c: FlowConfig, ts: seq<FlowTable>, draws: seq<(u32, seq<u32>)>,
                                  w: nat, f: nat, s: nat, j: nat, k: nat)
    requires IsFlowRun(c, ts, draws) && Sequential(c) && k < |draws| && InFlow(c, ts[1], w, f, s, j)
    ensures AtPacketFrom(c, ts[k + 1], w, f, s, j - 1 + k)
  {
    var us, ds := ts[1..], draws[1..];
    forall i | 0 <= i < |ds|
      ensures FlowAt(c, us, ds, i)
    {
      assert FlowAt(c, ts, draws, i + 1);
    }
    SequentialFlowsFrom(c, us, ds, w, f, s, j, k);
  }

  /** From a fresh table on: packet k, from 0, belongs to slot (k / lflow) mod cflows and goes to
      the (k / lflow + 1)-th destination of the cycle. */
  lemma SequentialFlows(c: FlowConfig, ts: seq<FlowTable>, draws: seq<(u32, seq<u32>)>, k: nat)
    requires IsFlowRun(c, ts, draws) && Sequential(c) && Fresh(c, ts[0]) && k < |draws|
    ensures AtPacketFrom(c, ts[k + 1], 1, 1, 0, k)
  {
    assert FlowAt(c, ts, draws, 0);
    OpensFlow(c, ts[0], 0, 0, 0, draws[0].1);
    SequentialFlowsAfterFirst(c, ts, draws, 1, 1, 0, 1, k);
  }

  lemma RoundUp(n: nat, lflow: u32)
    requires n > 0 && lflow >= 1
    ensures Quot(n - 1, lflow) + 1 == (n + lflow - 1) / lflow
  {
    QuotIsDivision(n - 1, lflow);
    ModAddMultiple(n - 1, 1, lflow);
  }

  /** n packets have opened n / lflow flows, rounded up. */
  lemma FlowsOpened(c: FlowConfig, ts: seq<FlowTable>, draws: seq<(u32, seq<u32>)>, n: nat)
    requires IsFlowRun(c, ts, draws) && Sequential(c) && Fresh(c, ts[0]) && 0 < n < |ts|
    ensures ts[n].nflows == ((n + c.lflow - 1) / c.lflow) % TWO_32
  {
    SequentialFlows(c, ts, draws, n - 1);
    RoundUp(n, c.lflow);
  }

  /** A table that an earlier run has left in the middle of a flow, and setup has reset all but
      its slots: slot s has sent j packets to d. */
  predicate Restarted(c: FlowConfig, t: FlowTable, s: nat, j: nat, d: u32) {
    && Fits(c, t) && s < c.cflows && 1 <= j <= c.lflow && c.dstMin <= d <= c.dstMax
    && t.curfl == s && t.nflows == 0 && t.daddr == c.dstMin && t.flows[s] == Flow(j, true, d)
    && forall i :: 0 <= i < |t.flows| && i != s ==> t.flows[i].count == 0 && !t.flows[i].seen
  }

  lemma FirstPacketAfterRestart(c: FlowConfig, t: FlowTable, s: nat, j: nat, d: u32, pick: u32, dst: seq<u32>)
    requires Sequential(c) && Restarted(c, t, s, j, d)
    ensures if j < c.lflow then InFlow(c, FlowStep(c, t, pick, dst), d - c.dstMin, 0, s, j + 1)
            else InFlow(c, FlowStep(c, t, pick, dst), 1, 1, NextSlot(c.cflows, s), 1)
  {
    if j < c.lflow {
      WalkClosedForm(c.dstMin, c.dstMax, d - c.dstMin);
    } else {
      var picked := Pick(c, t, pick).0;
      assert Opening(c, picked, 0, 0, NextSlot(c.cflows, s));
      OpensFlow(c, picked, 0, 0, picked.curfl, dst);
    }
  }

  /** A restarted device goes on with the flow it was in: the rest of its lflow packets still go
      to its old destination d and open no flow, and the next flows walk on from d. Only a flow
      that was complete is followed by the first destinations of the range. */
  lemma RestartedFlows(c: FlowConfig, ts: seq<FlowTable>, draws: seq<(u32, seq<u32>)>,
                       s: nat, j: nat, d: u32, k: nat)
    requires IsFlowRun(c, ts, draws) && Sequential(c) && Restarted(c, ts[0], s, j, d) && k < |draws|
    ensures if j < c.lflow then AtPacketFrom(c, ts[k + 1], d - c.dstMin, 0, s, j + k)
            else AtPacketFrom(c, ts[k + 1], 1, 1, NextSlot(c.cflows, s), k)
  {
    assert FlowAt(c, ts, draws, 0);
    FirstPacketAfterRestart(c, ts[0], s, j, d, draws[0].0, draws[0].1);
    if j < c.lflow {
      SequentialFlowsAfterFirst(c, ts, draws, d - c.dstMin, 0, s, j + 1, k);
    } else {
      SequentialFlowsAfterFirst(c, ts, draws, 1, 1, NextSlot(c.cflows, s), 1, k);
    }
  }

  // ---- Random destinations ----

  /** The half-open range holds no routable address: it lies in the zero net, in the loopback
      net or among the multicast addresses. */
  predicate NoneRoutable(lo: u32, hi: u32) {
    || hi <= 0x100_0000
    || (0x7F00_0000 <= lo && hi <= 0x8000_0000)
    || (0xE000_0000 <= lo && hi <= 0xF000_0000)
  }

  function SomeRoutable(lo: u32, hi: u32): (a: u32)
    requires lo < hi && !NoneRoutable(lo, hi)
    ensures lo <= a < hi && Routable(a)
  {
    if Routable(lo) then lo
    else if lo < 0x100_0000 then 0x100_0000
    else if lo < 0x8000_0000 then 0x8000_0000
    else 0xF000_0000
  }

  lemma DrawnInRange(c: FlowConfig, draw: u32)
    requires c.dstMin < c.dstMax
    ensures c.dstMin <= Drawn(c, draw) < c.dstMax
    ensures NoneRoutable(c.dstMin, c.dstMax) ==> !Routable(Drawn(c, draw))
  {
  }

  /** Drawing a destination can end exactly when the range holds a routable address; each
      destination it ends with is routable and in the range. */
  lemma DrawingCanEnd(c: FlowConfig)
    requires c.dstMin < c.dstMax
    ensures (exists draws :: FirstRoutable(c, draws) < |draws|) <==> !NoneRoutable(c.dstMin, c.dstMax)
    ensures forall cur, draws :: c.dstRandom && FirstRoutable(c, draws) < |draws| ==>
              var a := NextDestination(c, cur, draws); c.dstMin <= a < c.dstMax && Routable(a)
  {
    forall draws: seq<u32> | FirstRoutable(c, draws) < |draws|
      ensures var a := Drawn(c, draws[FirstRoutable(c, draws)]);
              c.dstMin <= a < c.dstMax && Routable(a) && !NoneRoutable(c.dstMin, c.dstMax)
    {
      DrawnInRange(c, draws[FirstRoutable(c, draws)]);
    }
    if !NoneRoutable(c.dstMin, c.dstMax) {
      var draw := SomeRoutable(c.dstMin, c.dstMax) - c.dstMin;
      assert Drawn(c, [draw][0]) == SomeRoutable(c.dstMin, c.dstMax);
      assert FirstRoutable(c, [draw]) < |[draw]|;
    }
  }
}
