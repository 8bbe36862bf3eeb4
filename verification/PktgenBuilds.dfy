/** The packets a run builds: the walks of the header fields, seen from the transmit loop. */
module PktgenBuilds {
  import opened ModArith
  import opened Basics
  import opened PktgenOdometer
  import opened PktgenFlows
  import opened PktgenHeaders
  import opened PktgenFrame
  import opened PktgenTransmit
  import opened PktgenSequence

  /** An attempt that builds, or tries to. */
  predicate Builds(st: Settings, r: Run, a: Attempt) {
    r.tx.running && a.online && st.delay != NEVER && NeedsBuild(st, r.tx)
  }

  /** The builds among the first n attempts, and the builder states between them. */
  ghost function Inputs(st: Settings, rs: seq<Run>, xs: seq<Attempt>, n: nat): seq<BuildInput>
    requires n <= |xs| < |rs|
  {
    if n == 0 then []
    else Inputs(st, rs, xs, n - 1) + if Builds(st, rs[n - 1], xs[n - 1]) then [xs[n - 1].build] else []
  }

  ghost function Builders(st: Settings, rs: seq<Run>, xs: seq<Attempt>, n: nat): (bs: seq<Builder>)
    requires n <= |xs| < |rs|
    ensures |bs| == |Inputs(st, rs, xs, n)| + 1
  {
    if n == 0 then [rs[0].tx.builder]
    else Builders(st, rs, xs, n - 1) + if Builds(st, rs[n - 1], xs[n - 1]) then [rs[n].tx.builder] else []
  }

  /** Only preparing a packet moves the builder. */
  lemma TurnPrepares(st: Settings, r: Run, a: Attempt)
    requires Recorded(r)
    ensures Turn(st, r, a).tx.builder ==
            if r.tx.running && a.online && st.delay != NEVER then Prepare(st, r.tx, a.build).builder
            else r.tx.builder
  {
    var b := Built(st, r, a.build);
    assert b.tx == Prepare(st, r.tx, a.build);
    if b.tx.skb.Some? {
      assert Deliver(st, b.tx, a.outcome).builder == b.tx.builder;
    }
  }

  lemma TurnBuilds(st: Settings, r: Run, a: Attempt)
    requires Recorded(r)
    ensures Turn(st, r, a).tx.builder
         == if Builds(st, r, a) then FillPacket(r.tx.builder, a.build, 0).0 else r.tx.builder
  {
    TurnPrepares(st, r, a);
    SameBuilder(r.tx.builder, a.build, r.tx.seqNum);
  }

  lemma SameBuilder(b: Builder, a: BuildInput, number: u32)
    requires Valid(b)
    ensures FillPacket(b, a, number).0 == FillPacket(b, a, 0).0
  {
  }

  lemma ExtendBuildRun(bs: seq<Builder>, inputs: seq<BuildInput>, b: Builder, a: BuildInput)
    requires IsBuildRun(bs, inputs) && Valid(b) && b == FillPacket(bs[|bs| - 1], a, 0).0
    ensures IsBuildRun(bs + [b], inputs + [a])
  {
    var all, ins := bs + [b], inputs + [a];
    forall k | 0 <= k < |ins|
      ensures BuildAt(all, ins, k)
    {
      if k < |inputs| {
        assert BuildAt(bs, inputs, k);
      } else {
        assert all[k] == bs[|bs| - 1] && ins[k] == a && all[k + 1] == b;
      }
    }
  }

  /** bs are the builder states of a run of builds from one state to another. */
  ghost predicate Joins(bs: seq<Builder>, inputs: seq<BuildInput>, first: Builder, last: Builder) {
    IsBuildRun(bs, inputs) && bs[0] == first && bs[|bs| - 1] == last
  }

  lemma JoinNext(bs: seq<Builder>, inputs: seq<BuildInput>, first: Builder, last: Builder, next: Builder,
                 a: BuildInput, builds: bool)
    requires Joins(bs, inputs, first, last) && next == if builds then FillPacket(last, a, 0).0 else last
    ensures Joins(bs + if builds then [next] else [], inputs + if builds then [a] else [], first, next)
  {
    if builds {
      ExtendBuildRun(bs, inputs, next, a);
    } else {
      assert bs + [] == bs && inputs + [] == inputs;
    }
  }

  /** However often packets are repeated, dropped or refused, the builds of a run take the
      headers through their walks one step at a time: no value is skipped or built twice. */
  lemma {:induction false} BuildsAreARun(st: Settings, rs: seq<Run>, xs: seq<Attempt>, n: nat)
    requires IsRun(st, rs, xs) && n < |rs|
    ensures Joins(Builders(st, rs, xs, n), Inputs(st, rs, xs, n), rs[0].tx.builder, rs[n].tx.builder)
  {
    if n > 0 {
      BuildsAreARun(st, rs, xs, n - 1);
      BuilderAt(st, rs, xs, n - 1);
      JoinNext(Builders(st, rs, xs, n - 1), Inputs(st, rs, xs, n - 1), rs[0].tx.builder, rs[n - 1].tx.builder,
               rs[n].tx.builder, xs[n - 1].build, Builds(st, rs[n - 1], xs[n - 1]));
    } else {
      FirstBuilder(rs[0].tx.builder);
    }
  }

  lemma FirstBuilder(b: Builder)
    requires Valid(b)
    ensures Joins([b], [], b, b)
  {
  }

  lemma BuilderAt(st: Settings, rs: seq<Run>, xs: seq<Attempt>, k: nat)
    requires IsRun(st, rs, xs) && k < |xs|
    ensures rs[k + 1].tx.builder
         == if Builds(st, rs[k], xs[k]) then FillPacket(rs[k].tx.builder, xs[k].build, 0).0 else rs[k].tx.builder
  {
    TurnAt(st, rs, xs, k);
    TurnBuilds(st, rs[k], xs[k]);
  }

  /** The header fields stand at step n of their walks. */
  predicate SizeAt(c: Config, h: Headers, n: nat) {
    c.minSize < c.maxSize && !c.sizeRandom ==> h.size == c.minSize + Rem(n, c.maxSize - c.minSize + 1)
  }

  predicate PortsAt(c: Config, h: Headers, n: nat) {
    && (c.udpSrcMin < c.udpSrcMax && !c.udpSrcRandom ==>
          h.udpSrc == c.udpSrcMin + Rem(n, c.udpSrcMax - c.udpSrcMin))
    && (c.udpDstMin < c.udpDstMax && !c.udpDstRandom ==>
          h.udpDst == c.udpDstMin + Rem(n, c.udpDstMax - c.udpDstMin))
  }

  predicate SourceAt(c: Config, h: Headers, n: nat) {
    c.srcMin < c.srcMax && !c.srcRandom && !c.ipv6 && WrapSafe(c.srcMin, c.srcMax) ==>
      h.saddr == c.srcMin + Rem(n, c.srcMax - c.srcMin + 1)
  }

  predicate MacsAt(c: Config, h: Headers, n: nat)
    requires |h.hh| == 14
  {
    n > 0 ==>
      && (c.srcMacCount > 1 && !c.srcMacRandom ==> h.hh[7..12] == AddOffset(c.srcMac, Rem(n - 1, c.srcMacCount)))
      && (c.dstMacCount > 1 && !c.dstMacRandom ==> h.hh[1..6] == AddOffset(c.dstMac, Rem(n - 1, c.dstMacCount)))
  }

  /** The queue after n builds from a first state. */
  predicate QueueAfterBuilds(c: Config, first: Headers, h: Headers, n: nat) {
    n > 0 && QueuesInOrder(c) ==>
      h.queue == QueueAfter(c.queueMin, c.queueMax, NextQueue(c.queueMin, c.queueMax, first.queue), n - 1)
  }

  /** The flows after n builds, of a device that is new or that goes on with a flow. */
  ghost predicate FlowsAfterBuilds(c: Config, first: Headers, h: Headers, n: nat) {
    n > 0 && !c.ipv6 && Sequential(c.flow) ==>
      && (FreshFlows(first) ==> AtPacketFrom(c.flow, h.table, 1, 1, 0, n - 1))
      && (first.table.curfl < |first.table.flows| ==>
            var s := first.table.curfl;
            var flow := first.table.flows[s];
            Restarted(c.flow, first.table, s, flow.count, flow.daddr) ==>
              if flow.count < c.flow.lflow then
                AtPacketFrom(c.flow, h.table, flow.daddr - c.flow.dstMin, 0, s, flow.count + n - 1)
              else AtPacketFrom(c.flow, h.table, 1, 1, NextSlot(c.flow.cflows, s), n - 1))
  }

  lemma HeadersAt(c: Config, hs: seq<Headers>, draws: seq<Draws>, n: nat)
    requires FromStart(c, hs, draws) && n < |hs|
    ensures SizeAt(c, hs[n], n) && PortsAt(c, hs[n], n) && SourceAt(c, hs[n], n) && MacsAt(c, hs[n], n)
  {
    NthPorts(c, hs, draws, n);
    NthSourceAndSize(c, hs, draws, n);
    if n > 0 {
      NthMacs(c, hs, draws, n);
    }
  }

  lemma QueuesAt(c: Config, hs: seq<Headers>, draws: seq<Draws>, n: nat)
    requires FromStart(c, hs, draws) && n < |hs|
    ensures QueueAfterBuilds(c, hs[0], hs[n], n)
  {
    if n > 0 && QueuesInOrder(c) {
      NthQueue(c, hs, draws, n);
    }
  }

  lemma FlowsAt(c: Config, hs: seq<Headers>, draws: seq<Draws>, n: nat)
    requires FromStart(c, hs, draws) && n < |hs|
    ensures FlowsAfterBuilds(c, hs[0], hs[n], n)
  {
    if n > 0 && !c.ipv6 && Sequential(c.flow) {
      var t := hs[0].table;
      if FreshFlows(hs[0]) {
        NthFlow(c, hs, draws, n);
      }
      if Restarted(c.flow, t, t.curfl, t.flows[t.curfl].count, t.flows[t.curfl].daddr) {
        NthFlowRestarted(c, hs, draws, t.curfl, t.flows[t.curfl].count, t.flows[t.curfl].daddr, n);
      }
    }
  }

  /** After any attempts on a device whose fields setup has just reset, sizes, ports, sources,
      MAC addresses, queues and flows stand at the step of their walk given by the number of
      builds. */
  lemma FieldsFollowBuilds(st: Settings, rs: seq<Run>, xs: seq<Attempt>, n: nat)
    requires IsRun(st, rs, xs) && n < |rs| && Started(rs[0].tx.builder.cfg, rs[0].tx.builder.headers)
    ensures var c := rs[0].tx.builder.cfg;
            var first, h := rs[0].tx.builder.headers, rs[n].tx.builder.headers;
            var built := |Inputs(st, rs, xs, n)|;
            && SizeAt(c, h, built) && PortsAt(c, h, built) && SourceAt(c, h, built) && MacsAt(c, h, built)
            && QueueAfterBuilds(c, first, h, built) && FlowsAfterBuilds(c, first, h, built)
  {
    var hs, draws := HeadersOfBuilds(st, rs, xs, n);
    var c := rs[0].tx.builder.cfg;
    HeadersAt(c, hs, draws, |draws|);
    QueuesAt(c, hs, draws, |draws|);
    FlowsAt(c, hs, draws, |draws|);
  }

  /** The header states between the builds of a run. */
  lemma HeadersOfBuilds(st: Settings, rs: seq<Run>, xs: seq<Attempt>, n: nat)
    returns (hs: seq<Headers>, draws: seq<Draws>)
    requires IsRun(st, rs, xs) && n < |rs| && Started(rs[0].tx.builder.cfg, rs[0].tx.builder.headers)
    ensures FromStart(rs[0].tx.builder.cfg, hs, draws) && |draws| == |Inputs(st, rs, xs, n)|
    ensures hs[0] == rs[0].tx.builder.headers && hs[|draws|] == rs[n].tx.builder.headers
  {
    BuildsAreARun(st, rs, xs, n);
    var bs, inputs := Builders(st, rs, xs, n), Inputs(st, rs, xs, n);
    BuildsRunHeaders(bs, inputs);
    hs := seq(|bs|, i requires 0 <= i < |bs| => bs[i].headers);
    draws := seq(|inputs|, i requires 0 <= i < |inputs| => inputs[i].draws);
  }
}
