/** The packets that a run of the transmit loop sends, and the builds they come from. */
module PktgenSent {
  import opened Basics
  import opened PktgenHeaders
  import opened PktgenStack
  import opened PktgenFrame
  import opened PktgenPackets
  import opened PktgenWire
  import opened PktgenTransmit
  import opened PktgenSequence
  import opened PktgenOutcomes
  import opened PktgenBuilds

  /** p is the packet of the last build among the first n attempts. */
  ghost predicate LastMade(st: Settings, rs: seq<Run>, xs: seq<Attempt>, n: nat, p: Packet)
    requires n <= |xs| < |rs|
  {
    Makes(Builders(st, rs, xs, n), Inputs(st, rs, xs, n), |Inputs(st, rs, xs, n)|, p)
  }

  /** What an attempt has in hand when it comes to the driver. */
  function InHand(st: Settings, t: Tx, a: Attempt): Option<Packet>
    requires Valid(t.builder)
  {
    if t.running && a.online && st.delay != NEVER then Prepare(st, t, a.build).skb else t.skb
  }

  lemma DeliverKeepsOrDrops(st: Settings, t: Tx, o: Outcome)
    ensures Deliver(st, t, o).skb == t.skb || Deliver(st, t, o).skb == None
  {
  }

  lemma XmitKeepsOrDrops(st: Settings, t: Tx, a: Attempt)
    requires Valid(t.builder) && t.running
    ensures var n := Xmit(st, t, a); n.skb.Some? ==> n.skb == InHand(st, t, a)
  {
    if a.online && st.delay != NEVER {
      DeliverKeepsOrDrops(st, Prepare(st, t, a.build), a.outcome);
    }
  }

  /** An attempt keeps the packet in hand or gives it up. */
  lemma KeepsOrDrops(st: Settings, r: Run, a: Attempt)
    requires Recorded(r)
    ensures var n := Turn(st, r, a); n.tx.skb.Some? ==> n.tx.skb == InHand(st, r.tx, a)
  {
    TurnIsXmit(st, r, a);
    if r.tx.running {
      XmitKeepsOrDrops(st, r.tx, a);
    }
  }

  /** A build takes the number that is next; without one the packet stays. */
  lemma InHandIs(st: Settings, t: Tx, a: Attempt)
    requires Valid(t.builder) && t.running && a.online && st.delay != NEVER
    ensures InHand(st, t, a) == if NeedsBuild(st, t) then FillPacket(t.builder, a.build, t.seqNum).1 else t.skb
    ensures NeedsBuild(st, t) && InHand(st, t, a).Some? ==> InHand(st, t, a).value.seqNum == t.seqNum
  {
  }

  lemma SendsInHand(st: Settings, r: Run, a: Attempt)
    requires Recorded(r) && Reaches(st, r.tx, a)
    ensures InHand(st, r.tx, a).Some?
    ensures var p, n := InHand(st, r.tx, a).value, Turn(st, r, a);
            if a.outcome.Ok? then
              && |n.sent| == |r.sent| + 1 && n.sent[..|r.sent|] == r.sent
              && var s := n.sent[|r.sent|]; s.packet == p && s.number == p.seqNum && s.size == p.len
            else n.sent == r.sent
  {
    var b := Built(st, r, a.build);
    TurnWithPacket(st, r, a, b);
  }

  /** A build that succeeds makes the packet in hand. */
  lemma BuildIsLastMade(st: Settings, rs: seq<Run>, xs: seq<Attempt>, k: nat, p: Packet)
    requires IsRun(st, rs, xs) && k < |xs| && Builds(st, rs[k], xs[k])
    requires FillPacket(rs[k].tx.builder, xs[k].build, p.seqNum).1 == Some(p)
    ensures LastMade(st, rs, xs, k + 1, p)
  {
    BuildsAreARun(st, rs, xs, k);
    BuildsAreARun(st, rs, xs, k + 1);
    var bs, inputs := Builders(st, rs, xs, k), Inputs(st, rs, xs, k);
    assert Builders(st, rs, xs, k + 1) == bs + [rs[k + 1].tx.builder];
    assert Inputs(st, rs, xs, k + 1) == inputs + [xs[k].build];
    assert (bs + [rs[k + 1].tx.builder])[|inputs|] == rs[k].tx.builder;
  }

  lemma StillLastMade(st: Settings, rs: seq<Run>, xs: seq<Attempt>, k: nat, p: Packet)
    requires IsRun(st, rs, xs) && k < |xs| && !Builds(st, rs[k], xs[k]) && LastMade(st, rs, xs, k, p)
    ensures LastMade(st, rs, xs, k + 1, p)
  {
    assert Builders(st, rs, xs, k + 1) == Builders(st, rs, xs, k);
    assert Inputs(st, rs, xs, k + 1) == Inputs(st, rs, xs, k);
  }

  lemma InHandFrom(st: Settings, rs: seq<Run>, xs: seq<Attempt>, k: nat)
    requires IsRun(st, rs, xs) && k < |xs| && InHand(st, rs[k].tx, xs[k]).Some?
    requires rs[k].tx.skb.Some? ==> LastMade(st, rs, xs, k, rs[k].tx.skb.value)
    ensures LastMade(st, rs, xs, k + 1, InHand(st, rs[k].tx, xs[k]).value)
  {
    if rs[k].tx.running && xs[k].online && st.delay != NEVER {
      InHandIs(st, rs[k].tx, xs[k]);
    }
    if Builds(st, rs[k], xs[k]) {
      BuildIsLastMade(st, rs, xs, k, InHand(st, rs[k].tx, xs[k]).value);
    } else {
      StillLastMade(st, rs, xs, k, rs[k].tx.skb.value);
    }
  }

  /** A device never holds any packet but that of its last build. */
  lemma {:induction false} HeldIsLastMade(st: Settings, rs: seq<Run>, xs: seq<Attempt>, n: nat)
    requires IsRun(st, rs, xs) && n < |rs| && rs[n].tx.skb.Some?
    ensures LastMade(st, rs, xs, n, rs[n].tx.skb.value)
  {
    if n > 0 {
      TurnAt(st, rs, xs, n - 1);
      KeepsOrDrops(st, rs[n - 1], xs[n - 1]);
      if rs[n - 1].tx.skb.Some? {
        HeldIsLastMade(st, rs, xs, n - 1);
      }
      InHandFrom(st, rs, xs, n - 1);
    }
  }

  /** Attempt k adds one packet to the record, which is p, with its number and its length. */
  predicate SendsPacket(rs: seq<Run>, k: nat, p: Packet)
    requires k + 1 < |rs|
  {
    && |rs[k + 1].sent| == |rs[k].sent| + 1 && rs[k + 1].sent[..|rs[k].sent|] == rs[k].sent
    && var s := rs[k + 1].sent[|rs[k].sent|]; s.packet == p && s.number == p.seqNum && s.size == p.len
  }

  /** An attempt that sends takes the packet of the last build, its own included. */
  lemma SendsLastMade(st: Settings, rs: seq<Run>, xs: seq<Attempt>, k: nat) returns (p: Packet)
    requires IsRun(st, rs, xs) && k < |xs| && Sends(st, rs, xs, k)
    ensures SendsPacket(rs, k, p) && LastMade(st, rs, xs, k + 1, p)
  {
    TurnAt(st, rs, xs, k);
    SendsInHand(st, rs[k], xs[k]);
    if rs[k].tx.skb.Some? {
      HeldIsLastMade(st, rs, xs, k);
    }
    InHandFrom(st, rs, xs, k);
    p := InHand(st, rs[k].tx, xs[k]).value;
  }

  /** A packet carries what the last build among the first n attempts has to. */
  ghost predicate CarriesLast(st: Settings, rs: seq<Run>, xs: seq<Attempt>, n: nat, p: Packet)
    requires n <= |xs| < |rs| && Valid(rs[0].tx.builder)
  {
    var inputs := Inputs(st, rs, xs, n);
    inputs != [] && Carries(rs[0].tx.builder, inputs, |inputs|, p)
  }

  ghost predicate CarriesLastSettings(st: Settings, rs: seq<Run>, xs: seq<Attempt>, n: nat, p: Packet,
                                      c: Config, i: Interface, h: Headers)
    requires n <= |xs| < |rs| && |h.hh| == 14
  {
    var inputs := Inputs(st, rs, xs, n);
    inputs != [] && CarriesSettings(c, i, h, |inputs|, inputs[|inputs| - 1].draws, p)
  }

  lemma LastMadeCarries(st: Settings, rs: seq<Run>, xs: seq<Attempt>, n: nat, p: Packet)
    requires IsRun(st, rs, xs) && n < |rs| && LastMade(st, rs, xs, n, p)
    requires var first := rs[0].tx.builder;
             Started(first.cfg, first.headers) && first.overhead == Overhead(first.stack)
    ensures CarriesLast(st, rs, xs, n, p)
  {
    BuildsAreARun(st, rs, xs, n);
    PacketCarries(Builders(st, rs, xs, n), Inputs(st, rs, xs, n), |Inputs(st, rs, xs, n)|, p);
  }

  lemma LastOfRun(bs: seq<Builder>, inputs: seq<BuildInput>, p: Packet, c: Config, i: Interface, h: Headers)
    requires Makes(bs, inputs, |inputs|, p) && SetUp(c, i, h, bs[0])
    ensures inputs != [] && CarriesSettings(c, i, h, |inputs|, inputs[|inputs| - 1].draws, p)
  {
    PacketCarriesSettings(bs, inputs, |inputs|, p, c, i, h);
  }

  lemma LastMadeCarriesSettings(st: Settings, rs: seq<Run>, xs: seq<Attempt>, n: nat, p: Packet,
                                c: Config, i: Interface, h: Headers)
    requires IsRun(st, rs, xs) && n < |rs| && LastMade(st, rs, xs, n, p) && SetUp(c, i, h, rs[0].tx.builder)
    ensures CarriesLastSettings(st, rs, xs, n, p, c, i, h)
  {
    BuildsAreARun(st, rs, xs, n);
    LastOfRun(Builders(st, rs, xs, n), Inputs(st, rs, xs, n), p, c, i, h);
  }

  /** After any drops, refusals, waits and failed builds, what an attempt sends carries the
      values of the build that was last: every field that is walked stands at the step given by
      the number of builds, and the identification of IPv4 is the number of packets built. */
  lemma SentCarries(st: Settings, rs: seq<Run>, xs: seq<Attempt>, k: nat) returns (p: Packet)
    requires IsRun(st, rs, xs) && k < |xs| && Sends(st, rs, xs, k)
    requires var first := rs[0].tx.builder;
             Started(first.cfg, first.headers) && first.overhead == Overhead(first.stack)
    ensures SendsPacket(rs, k, p) && CarriesLast(st, rs, xs, k + 1, p)
  {
    p := SendsLastMade(st, rs, xs, k);
    LastMadeCarries(st, rs, xs, k + 1, p);
  }

  /** And they are the values of the settings that setup has found. */
  lemma SentCarriesSettings(st: Settings, rs: seq<Run>, xs: seq<Attempt>, k: nat, c: Config, i: Interface, h: Headers)
    returns (p: Packet)
    requires IsRun(st, rs, xs) && k < |xs| && Sends(st, rs, xs, k) && SetUp(c, i, h, rs[0].tx.builder)
    ensures SendsPacket(rs, k, p) && CarriesLastSettings(st, rs, xs, k + 1, p, c, i, h)
  {
    p := SendsLastMade(st, rs, xs, k);
    LastMadeCarriesSettings(st, rs, xs, k + 1, p, c, i, h);
  }

  lemma LastMadeCarriesStack(st: Settings, rs: seq<Run>, xs: seq<Attempt>, n: nat, p: Packet, rest: seq<u8>)
    requires IsRun(st, rs, xs) && n < |rs| && LastMade(st, rs, xs, n, p) && Undrawn(rs[0].tx.builder.stack)
    ensures var first := rs[0].tx.builder; CarriesStack(first.stack, first.cfg.ipv6, p, rest)
  {
    BuildsAreARun(st, rs, xs, n);
    var bs, inputs := Builders(st, rs, xs, n), Inputs(st, rs, xs, n);
    PacketCarriesStack(bs, inputs, |inputs|, p, rest);
    NthStack(bs, inputs, |inputs|);
  }

  /** And the tags and labels that were configured when the run began, unless they are drawn. */
  lemma SentCarriesStack(st: Settings, rs: seq<Run>, xs: seq<Attempt>, k: nat, rest: seq<u8>) returns (p: Packet)
    requires IsRun(st, rs, xs) && k < |xs| && Sends(st, rs, xs, k) && Undrawn(rs[0].tx.builder.stack)
    ensures SendsPacket(rs, k, p)
    ensures var first := rs[0].tx.builder; CarriesStack(first.stack, first.cfg.ipv6, p, rest)
  {
    p := SendsLastMade(st, rs, xs, k);
    LastMadeCarriesStack(st, rs, xs, k + 1, p, rest);
  }

  lemma LastMadeIsReceived(st: Settings, rs: seq<Run>, xs: seq<Attempt>, n: nat, p: Packet, tos: u8, data: seq<u8>)
    requires IsRun(st, rs, xs) && n < |rs| && LastMade(st, rs, xs, n, p)
    ensures var ipv6 := rs[0].tx.builder.cfg.ipv6; Receive(Wire(p, ipv6, tos, data)) == Meant(p, ipv6, tos)
  {
    BuildsAreARun(st, rs, xs, n);
    PacketIsReceived(Builders(st, rs, xs, n), Inputs(st, rs, xs, n), |Inputs(st, rs, xs, n)|, p, tos, data);
  }

  /** And a receiver reads from the bytes of the packet what it carries. */
  lemma SentIsReceived(st: Settings, rs: seq<Run>, xs: seq<Attempt>, k: nat, tos: u8, data: seq<u8>)
    returns (p: Packet)
    requires IsRun(st, rs, xs) && k < |xs| && Sends(st, rs, xs, k)
    ensures SendsPacket(rs, k, p)
    ensures var ipv6 := rs[0].tx.builder.cfg.ipv6; Receive(Wire(p, ipv6, tos, data)) == Meant(p, ipv6, tos)
  {
    p := SendsLastMade(st, rs, xs, k);
    LastMadeIsReceived(st, rs, xs, k + 1, p, tos, data);
  }

  // ---- The whole record ----

  lemma TurnGrows(st: Settings, r: Run, a: Attempt, n: Run)
    requires Recorded(r) && n == Turn(st, r, a)
    ensures if Reaches(st, r.tx, a) && a.outcome.Ok? then |n.sent| == |r.sent| + 1 && n.sent[..|r.sent|] == r.sent
            else n.sent == r.sent
  {
    if Reaches(st, r.tx, a) {
      SendsInHand(st, r, a);
    }
  }

  lemma RecordAt(st: Settings, rs: seq<Run>, xs: seq<Attempt>, k: nat, before: seq<Send>, after: seq<Send>)
    requires IsRun(st, rs, xs) && k < |xs| && before == rs[k].sent && after == rs[k + 1].sent
    ensures if Sends(st, rs, xs, k) then |after| == |before| + 1 && after[..|before|] == before else after == before
  {
    TurnAt(st, rs, xs, k);
    TurnGrows(st, rs[k], xs[k], rs[k + 1]);
  }

  /** Packet j of the record was sent by one attempt, after j others. */
  lemma {:induction false} SentBy(st: Settings, rs: seq<Run>, xs: seq<Attempt>, n: nat, j: nat) returns (k: nat)
    requires IsRun(st, rs, xs) && n < |rs| && j < |rs[n].sent|
    ensures k < n && Sends(st, rs, xs, k) && |rs[k].sent| == j && j < |rs[k + 1].sent|
    ensures rs[n].sent[j] == rs[k + 1].sent[j]
  {
    assert n > 0;
    var before, after := rs[n - 1].sent, rs[n].sent;
    RecordAt(st, rs, xs, n - 1, before, after);
    if j < |before| {
      k := SentBy(st, rs, xs, n - 1, j);
      assert after[j] == after[..|before|][j];
    } else {
      k := n - 1;
    }
  }

  /** So every packet of the record carries what the build has to that was last when it was
      sent. */
  lemma EveryPacketCarries(st: Settings, rs: seq<Run>, xs: seq<Attempt>, n: nat, j: nat) returns (k: nat)
    requires IsRun(st, rs, xs) && n < |rs| && j < |rs[n].sent|
    requires var first := rs[0].tx.builder;
             Started(first.cfg, first.headers) && first.overhead == Overhead(first.stack)
    ensures k < n && Sends(st, rs, xs, k) && |rs[k].sent| == j
    ensures CarriesLast(st, rs, xs, k + 1, rs[n].sent[j].packet)
  {
    k := SentBy(st, rs, xs, n, j);
    var p := SentCarries(st, rs, xs, k);
    assert rs[n].sent[j].packet == p;
  }

  // ---- Clones ----

  /** All packets sent from one buffer are the same packet, and it is the one in hand. */
  ghost predicate SameFromBuffer(r: Run) {
    && (forall i, j :: 0 <= i < j < |r.sent| && r.sent[i].buffer == r.sent[j].buffer ==>
          r.sent[i].packet == r.sent[j].packet)
    && (forall j :: 0 <= j < |r.sent| ==> r.sent[j].buffer < |r.buffers|)
    && (r.tx.skb.Some? ==> forall j :: 0 <= j < |r.sent| && r.sent[j].buffer == |r.buffers| - 1 ==>
          r.sent[j].packet == r.tx.skb.value)
  }

  lemma BuiltKeepsSame(st: Settings, r: Run, b: Run)
    requires SameFromBuffer(r) && BuildStep(st, r, b)
    ensures SameFromBuffer(b)
  {
    if b.buffers != r.buffers {
      assert |b.buffers| == |r.buffers| + 1;
    }
  }

  /** What an attempt does to the record. */
  lemma AttemptedRecord(st: Settings, b: Run, a: Attempt)
    requires Recorded(b) && b.tx.skb.Some?
    ensures var n := Attempted(st, b, a);
            && |n.buffers| == |b.buffers| && (n.tx.skb == b.tx.skb || n.tx.skb.None?)
            && if a.outcome.Ok? then
                 && |n.sent| == |b.sent| + 1 && n.sent[..|b.sent|] == b.sent
                 && n.sent[|b.sent|].buffer == |b.buffers| - 1 && n.sent[|b.sent|].packet == b.tx.skb.value
               else n.sent == b.sent
  {
  }

  lemma AttemptedKeepsSame(b: Run, n: Run, sends: bool)
    requires SameFromBuffer(b) && b.tx.skb.Some? && |b.buffers| > 0
    requires |n.buffers| == |b.buffers| && (n.tx.skb == b.tx.skb || n.tx.skb.None?)
    requires if sends then
               && |n.sent| == |b.sent| + 1 && n.sent[..|b.sent|] == b.sent
               && n.sent[|b.sent|].buffer == |b.buffers| - 1 && n.sent[|b.sent|].packet == b.tx.skb.value
             else n.sent == b.sent
    ensures SameFromBuffer(n)
  {
    assert forall j :: 0 <= j < |b.sent| ==> n.sent[j] == n.sent[..|b.sent|][j] == b.sent[j];
  }

  lemma TurnKeepsSame(st: Settings, r: Run, a: Attempt)
    requires Recorded(r) && SameFromBuffer(r)
    ensures SameFromBuffer(Turn(st, r, a))
  {
    if r.tx.running && a.online && st.delay != NEVER {
      var b := Built(st, r, a.build);
      BuiltIsStep(st, r, a.build);
      BuiltKeepsSame(st, r, b);
      if b.tx.skb.Some? {
        AttemptedRecord(st, b, a);
        AttemptedKeepsSame(b, Attempted(st, b, a), a.outcome.Ok?);
      }
    }
  }

  /** Clones are the same packet, to the last byte. */
  lemma {:induction false} ClonesAreEqual(st: Settings, rs: seq<Run>, xs: seq<Attempt>, n: nat)
    requires IsRun(st, rs, xs) && n < |rs|
    ensures SameFromBuffer(rs[n])
  {
    if n > 0 {
      ClonesAreEqual(st, rs, xs, n - 1);
      TurnAt(st, rs, xs, n - 1);
      TurnKeepsSame(st, rs[n - 1], xs[n - 1]);
    }
  }
}
