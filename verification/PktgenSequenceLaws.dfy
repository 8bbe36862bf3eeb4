/** Sequence numbers and clone counts of whole runs, whatever the driver does. */
module PktgenSequenceLaws {
  import opened ModArith
  import opened Basics
  import opened PktgenFrame
  import opened PktgenTransmit
  import opened PktgenSequence

  /** The number of the k-th packet sent, from 0, when each buffer is sent n times: the number
      of the packet that was first sent from its buffer. */
  function InStep(k: nat, n: nat): u32
    requires n > 0
  {
    Rem(1 + (k - Rem(k, n)), TWO_32)
  }

  lemma InStepIs(k: nat, n: nat)
    requires n > 0
    ensures InStep(k, n) == (1 + n * (k / n)) % TWO_32
  {
    QuotRem(k, n);
    QuotIsDivision(k, n);
    RemIsModulo(1 + (k - Rem(k, n)), TWO_32);
  }

  ghost predicate AllInStep(st: Settings, r: Run) {
    forall k :: 0 <= k < |r.sent| ==> r.sent[k].number == InStep(k, Uses(st))
  }

  /** A buffer before the last was wasted never, or every time. */
  predicate WholeBuffers(st: Settings, r: Run) {
    forall m :: 0 <= m < |r.buffers| - 1 ==> r.buffers[m].wasted == 0 || r.buffers[m].wasted == Uses(st)
  }

  ghost predicate CarriesFirst(st: Settings, r: Run) {
    forall k :: 0 <= k < |r.sent| ==>
                  && r.sent[k].rank <= k && r.sent[k].rank < Uses(st)
                  && r.sent[k].number == Rem(1 + (k - r.sent[k].rank), TWO_32)
  }

  ghost predicate UsedUp(st: Settings, r: Run) {
    forall m :: 0 <= m < |r.buffers| - 1 ==> r.buffers[m].uses + r.buffers[m].wasted == Uses(st)
  }

  lemma PacketCarriesFirst(st: Settings, r: Run, k: nat)
    requires Inv(st, r) && k < |r.sent|
    ensures r.sent[k].rank <= k && r.sent[k].rank < Uses(st)
    ensures r.sent[k].number == Rem(1 + (k - r.sent[k].rank), TWO_32)
  {
    assert From(r, k);
    var u := r.buffers[r.sent[k].buffer];
    assert u.uses + u.wasted <= Uses(st);
    assert 1 + u.first == 1 + (k - r.sent[k].rank);
  }

  lemma InvGivesLaw(st: Settings, r: Run)
    requires Inv(st, r)
    ensures CarriesFirst(st, r) && UsedUp(st, r)
  {
    forall k | 0 <= k < |r.sent|
      ensures r.sent[k].rank <= k && r.sent[k].rank < Uses(st)
      ensures r.sent[k].number == Rem(1 + (k - r.sent[k].rank), TWO_32)
    {
      PacketCarriesFirst(st, r, k);
    }
  }

  /** Under any mix of outcomes: every buffer given up was sent or wasted max(clone_skb, 1)
      times together, and a packet carries the number of the first one sent from its buffer.
      A packet consumed after a refusal is not wasted. */
  lemma SequenceLaw(st: Settings, rs: seq<Run>, xs: seq<Attempt>, n: nat)
    requires IsRun(st, rs, xs) && n < |rs|
    ensures var r := rs[n];
            && r.tx.sofar == Rem(|r.sent|, TWO_64) && r.tx.txBytes == Bytes(r.sent) % TWO_64
            && CarriesFirst(st, r) && UsedUp(st, r)
  {
    InvAlways(st, rs, xs, n);
    InvGivesLaw(st, rs[n]);
  }

  ghost predicate InOrder(r: Run) {
    forall k :: 0 <= k < |r.sent| ==> r.sent[k].number == Rem(1 + k, TWO_32)
  }

  lemma LawWithoutClones(st: Settings, r: Run)
    requires CarriesFirst(st, r) && st.clone <= 1
    ensures InOrder(r)
  {
  }

  /** Without clones the k-th packet sent, counted from 1, carries k, whatever mix of busy,
      locked, dropped and memory-less attempts there was. */
  lemma NumberedInOrder(st: Settings, rs: seq<Run>, xs: seq<Attempt>, n: nat)
    requires IsRun(st, rs, xs) && n < |rs| && st.clone <= 1
    ensures InOrder(rs[n])
  {
    SequenceLaw(st, rs, xs, n);
    LawWithoutClones(st, rs[n]);
  }

  // ---- Clones ----

  lemma {:induction false} FirstsOrdered(r: Run, j: nat, m: nat)
    requires ChainInv(r) && j < m < |r.buffers|
    ensures r.buffers[j].first + r.buffers[j].uses <= r.buffers[m].first
    decreases m
  {
    assert r.buffers[m - 1].first + r.buffers[m - 1].uses == End(r, m - 1);
    if j < m - 1 {
      FirstsOrdered(r, j, m - 1);
    }
  }

  /** The first packet sent from a buffer is its number 0. */
  lemma FirstOfBuffer(r: Run, m: nat)
    requires ChainInv(r) && SentInv(r) && m < |r.buffers| && r.buffers[m].uses > 0
    ensures r.buffers[m].first < |r.sent| && r.sent[r.buffers[m].first].rank == 0
    ensures r.sent[r.buffers[m].first].number == Rem(1 + r.buffers[m].first, TWO_32)
  {
    var k := r.buffers[m].first;
    assert k + r.buffers[m].uses == End(r, m);
    if m + 1 < |r.buffers| {
      LastEnds(r, m + 1);
    }
    assert From(r, k);
    var b := r.sent[k].buffer;
    if b < m {
      FirstsOrdered(r, b, m);
    } else if m < b {
      FirstsOrdered(r, m, b);
    }
  }

  lemma {:induction false} LastEnds(r: Run, m: nat)
    requires ChainInv(r) && m < |r.buffers|
    ensures r.buffers[m].first <= |r.sent|
    decreases |r.buffers| - m
  {
    assert r.buffers[m].first + r.buffers[m].uses == End(r, m);
    if m + 1 < |r.buffers| {
      LastEnds(r, m + 1);
    }
  }

  lemma {:induction false} WholeFirsts(st: Settings, r: Run, m: nat)
    requires Inv(st, r) && WholeBuffers(st, r) && m < |r.buffers|
    ensures Rem(r.buffers[m].first, Uses(st)) == 0
  {
    if m > 0 {
      WholeFirsts(st, r, m - 1);
      assert r.buffers[m - 1].first + r.buffers[m - 1].uses == End(r, m - 1);
      assert r.buffers[m - 1].uses + r.buffers[m - 1].wasted == Uses(st);
      RemAdd(r.buffers[m - 1].first, r.buffers[m - 1].uses, Uses(st));
    }
  }

  lemma WholeIsInStep(st: Settings, r: Run, k: nat)
    requires Inv(st, r) && WholeBuffers(st, r) && k < |r.sent|
    ensures r.sent[k].number == InStep(k, Uses(st)) && r.sent[k].rank == Rem(k, Uses(st))
  {
    assert From(r, k);
    var u := r.buffers[r.sent[k].buffer];
    WholeFirsts(st, r, r.sent[k].buffer);
    RemAdd(u.first, r.sent[k].rank, Uses(st));
  }

  lemma SameNumber(x: nat, d: nat)
    requires d < TWO_32 && d <= x && Rem(1 + x, TWO_32) == Rem(1 + (x - d), TWO_32)
    ensures d == 0
  {
    RemIsModulo(1 + x, TWO_32);
    RemIsModulo(1 + (x - d), TWO_32);
  }

  lemma InStepFirst(st: Settings, r: Run, m: nat)
    requires Inv(st, r) && AllInStep(st, r) && m < |r.buffers| && r.buffers[m].uses > 0
    ensures Rem(r.buffers[m].first, Uses(st)) == 0
  {
    var k := r.buffers[m].first;
    FirstOfBuffer(r, m);
    SameNumber(k, Rem(k, Uses(st)));
  }

  lemma {:induction false} InStepFirsts(st: Settings, r: Run, m: nat)
    requires Inv(st, r) && AllInStep(st, r) && m < |r.buffers| && r.buffers[|r.buffers| - 1].uses > 0
    ensures Rem(r.buffers[m].first, Uses(st)) == 0
    decreases |r.buffers| - m
  {
    if r.buffers[m].uses > 0 {
      InStepFirst(st, r, m);
    } else {
      InStepFirsts(st, r, m + 1);
      assert r.buffers[m].first + r.buffers[m].uses == End(r, m);
    }
  }

  lemma InStepIsWhole(st: Settings, r: Run, m: nat)
    requires Inv(st, r) && AllInStep(st, r) && m < |r.buffers| - 1 && r.buffers[|r.buffers| - 1].uses > 0
    ensures r.buffers[m].wasted == 0 || r.buffers[m].wasted == Uses(st)
  {
    InStepFirsts(st, r, m);
    InStepFirsts(st, r, m + 1);
    assert r.buffers[m].first + r.buffers[m].uses == End(r, m);
    RemAdd(r.buffers[m].first, r.buffers[m].uses, Uses(st));
    assert r.buffers[m].uses + r.buffers[m].wasted == Uses(st);
  }

  lemma WholeIffInStep(st: Settings, r: Run)
    requires Inv(st, r)
    ensures WholeBuffers(st, r) ==> AllInStep(st, r)
    ensures |r.buffers| > 0 && r.buffers[|r.buffers| - 1].uses > 0 && AllInStep(st, r) ==> WholeBuffers(st, r)
  {
    if WholeBuffers(st, r) {
      forall k | 0 <= k < |r.sent|
        ensures r.sent[k].number == InStep(k, Uses(st))
      {
        WholeIsInStep(st, r, k);
      }
    } else if AllInStep(st, r) && r.buffers[|r.buffers| - 1].uses > 0 {
      forall m | 0 <= m < |r.buffers| - 1
        ensures r.buffers[m].wasted == 0 || r.buffers[m].wasted == Uses(st)
      {
        InStepIsWhole(st, r, m);
      }
    }
  }

  /** As soon as the current buffer has been sent: the k-th packet, from 0, carries
      1 + c * (k / c) throughout exactly when every earlier buffer was wasted either never or
      all c times. */
  lemma ClonesInStep(st: Settings, rs: seq<Run>, xs: seq<Attempt>, n: nat)
    requires IsRun(st, rs, xs) && n < |rs|
    ensures WholeBuffers(st, rs[n]) ==> AllInStep(st, rs[n])
    ensures |rs[n].buffers| > 0 && rs[n].buffers[|rs[n].buffers| - 1].uses > 0 && AllInStep(st, rs[n]) ==>
              WholeBuffers(st, rs[n])
  {
    InvAlways(st, rs, xs, n);
    WholeIffInStep(st, rs[n]);
  }

  // ---- Without consumed packets ----

  predicate NothingConsumed(xs: seq<Attempt>) { forall i :: 0 <= i < |xs| ==> !Consumed(xs[i].outcome) }

  ghost predicate NothingWasted(r: Run) { forall m :: 0 <= m < |r.buffers| ==> r.buffers[m].wasted == 0 }

  lemma BuildWastesNothing(st: Settings, r: Run, b: Run)
    requires BuildStep(st, r, b) && NothingWasted(r)
    ensures NothingWasted(b)
  {
    forall m | 0 <= m < |b.buffers|
      ensures b.buffers[m].wasted == 0
    {
      if m < |r.buffers| {
        assert r.buffers[m].wasted == 0;
      }
    }
  }

  lemma AttemptWastesNothing(st: Settings, b: Run, a: Attempt)
    requires Recorded(b) && b.tx.skb.Some? && NothingWasted(b) && !Consumed(a.outcome)
    ensures NothingWasted(Attempted(st, b, a))
  {
  }

  lemma TurnWastesNothing(st: Settings, r: Run, a: Attempt)
    requires Recorded(r) && NothingWasted(r) && !Consumed(a.outcome)
    ensures NothingWasted(Turn(st, r, a))
  {
    var b := Built(st, r, a.build);
    BuiltIsStep(st, r, a.build);
    BuildWastesNothing(st, r, b);
    if b.tx.skb.Some? {
      AttemptWastesNothing(st, b, a);
    }
  }

  lemma {:induction false} WastesNothing(st: Settings, rs: seq<Run>, xs: seq<Attempt>, n: nat)
    requires IsRun(st, rs, xs) && n < |rs| && NothingConsumed(xs)
    ensures NothingWasted(rs[n])
  {
    if n > 0 {
      WastesNothing(st, rs, xs, n - 1);
      TurnWastesNothing(st, rs[n - 1], xs[n - 1]);
      TurnAt(st, rs, xs, n - 1);
    }
  }

  lemma {:induction false} FirstsWithoutWaste(st: Settings, r: Run, m: nat)
    requires Inv(st, r) && NothingWasted(r) && m < |r.buffers|
    ensures r.buffers[m].first == m * Uses(st)
  {
    if m > 0 {
      FirstsWithoutWaste(st, r, m - 1);
      assert r.buffers[m - 1].first + r.buffers[m - 1].uses == End(r, m - 1);
      assert r.buffers[m - 1].uses + r.buffers[m - 1].wasted == Uses(st);
      assert (m - 1) * Uses(st) + Uses(st) == m * Uses(st);
    }
  }

  /** Each buffer but the last was sent n times, and the packets sent are n for each of them
      and those of the last. */
  ghost predicate EachSent(r: Run, n: nat) {
    && (forall m :: 0 <= m < |r.buffers| - 1 ==> r.buffers[m].uses == n)
    && (|r.buffers| > 0 ==> |r.sent| == (|r.buffers| - 1) * n + r.buffers[|r.buffers| - 1].uses)
  }

  lemma EachSentWithoutWaste(st: Settings, r: Run)
    requires Inv(st, r) && NothingWasted(r)
    ensures EachSent(r, Uses(st))
  {
    forall m | 0 <= m < |r.buffers| - 1
      ensures r.buffers[m].uses == Uses(st)
    {
      assert r.buffers[m].uses + r.buffers[m].wasted == Uses(st);
    }
    if |r.buffers| > 0 {
      FirstsWithoutWaste(st, r, |r.buffers| - 1);
      assert r.buffers[|r.buffers| - 1].first + r.buffers[|r.buffers| - 1].uses == End(r, |r.buffers| - 1);
    }
  }

  /** If no packet is consumed without being sent, each buffer but the last is sent exactly c times and
      the k-th packet, from 0, carries 1 + c * (k / c). */
  lemma ClonesWithoutDrops(st: Settings, rs: seq<Run>, xs: seq<Attempt>, n: nat)
    requires IsRun(st, rs, xs) && n < |rs| && NothingConsumed(xs)
    ensures AllInStep(st, rs[n]) && EachSent(rs[n], Uses(st))
  {
    InvAlways(st, rs, xs, n);
    WastesNothing(st, rs, xs, n);
    assert WholeBuffers(st, rs[n]);
    WholeIffInStep(st, rs[n]);
    EachSentWithoutWaste(st, rs[n]);
  }

  // ---- One dropped clone ----

  /** A new buffer was built and sent. */
  ghost predicate SentNew(r: Run, n: Run) {
    && n.tx.running && n.tx.skb.Some? && n.tx.lastOk && n.tx.cloneCount == 0
    && n.tx.seqNum == (r.tx.seqNum + 1) % TWO_32
    && |n.sent| == |r.sent| + 1 && n.sent[|r.sent|].number == r.tx.seqNum
  }

  lemma SendsNew(st: Settings, r: Run, a: Attempt)
    requires Recorded(r) && r.tx.running && NeedsBuild(st, r.tx)
    requires st.delay != NEVER && st.count == 0 && a.online && a.build.gotSkb && a.outcome.Ok?
    ensures SentNew(r, Turn(st, r, a))
  {
    BuiltIsStep(st, r, a.build);
    NewIsBuilt(st, r, a.build);
    OkIsSent(st, Built(st, r, a.build), a);
  }

  lemma NewIsBuilt(st: Settings, r: Run, a: BuildInput)
    requires Recorded(r) && NeedsBuild(st, r.tx) && a.gotSkb
    ensures Built(st, r, a).tx.skb.Some? && Built(st, r, a).buffers != r.buffers
  {
    assert |Built(st, r, a).buffers| > |r.buffers|;
  }

  /** Preparing a clone that is not the last builds nothing and counts it. */
  lemma NothingIsBuilt(st: Settings, r: Run, b: Run)
    requires BuildStep(st, r, b) && r.tx.skb.Some? && r.tx.lastOk && r.tx.cloneCount + 1 < st.clone
    ensures b.sent == r.sent && b.tx.running == r.tx.running && b.tx.skb == r.tx.skb && b.tx.lastOk
    ensures b.tx.cloneCount == r.tx.cloneCount + 1 && b.tx.seqNum == r.tx.seqNum
  {
    DivModUnique(0, r.tx.cloneCount + 1, TWO_32);
  }

  lemma OkIsSent(st: Settings, b: Run, a: Attempt)
    requires Recorded(b) && b.tx.skb.Some? && b.tx.running && st.count == 0 && a.outcome.Ok?
    ensures var n := Attempted(st, b, a);
            && n.tx.running && n.tx.skb == b.tx.skb && n.tx.lastOk && n.tx.cloneCount == b.tx.cloneCount
            && n.tx.seqNum == (b.tx.seqNum + 1) % TWO_32
            && |n.sent| == |b.sent| + 1 && n.sent[|b.sent|].number == b.tx.skb.value.seqNum
  {
  }

  lemma DropIsNotSent(st: Settings, b: Run, a: Attempt)
    requires Recorded(b) && b.tx.skb.Some? && b.tx.running && b.tx.lastOk && st.count == 0 && a.outcome.Drop?
    ensures var n := Attempted(st, b, a);
            && n.sent == b.sent && n.tx.running && n.tx.skb.Some? && n.tx.lastOk
            && n.tx.cloneCount == b.tx.cloneCount && n.tx.seqNum == b.tx.seqNum
  {
  }

  /** A clone was dropped: only the clone counter moved. */
  ghost predicate DroppedClone(r: Run, n: Run) {
    && n.sent == r.sent && n.tx.running && n.tx.skb.Some? && n.tx.lastOk
    && n.tx.cloneCount == r.tx.cloneCount + 1 && n.tx.seqNum == r.tx.seqNum
  }

  lemma DropsClone(st: Settings, r: Run, a: Attempt)
    requires Recorded(r) && r.tx.running && r.tx.skb.Some? && r.tx.lastOk && r.tx.cloneCount + 1 < st.clone
    requires st.delay != NEVER && st.count == 0 && a.online && a.outcome.Drop?
    ensures DroppedClone(r, Turn(st, r, a))
  {
    var b := Built(st, r, a.build);
    BuiltIsStep(st, r, a.build);
    NothingIsBuilt(st, r, b);
    DropIsNotSent(st, b, a);
  }

  predicate SendDropSend(xs: seq<Attempt>) {
    |xs| == 3 && (forall i :: 0 <= i < 3 ==> xs[i].online && xs[i].build.gotSkb)
    && xs[0].outcome.Ok? && xs[1].outcome.Drop? && xs[2].outcome.Ok?
  }

  lemma FirstIsSent(st: Settings, rs: seq<Run>, xs: seq<Attempt>, k: nat)
    requires IsRun(st, rs, xs) && SendDropSend(xs) && st.delay != NEVER && st.count == 0 && k < 3
    requires rs[k].tx.running && NeedsBuild(st, rs[k].tx) && k != 1
    ensures SentNew(rs[k], rs[k + 1])
  {
    TurnAt(st, rs, xs, k);
    SendsNew(st, rs[k], xs[k]);
  }

  lemma SecondIsDropped(st: Settings, rs: seq<Run>, xs: seq<Attempt>)
    requires IsRun(st, rs, xs) && SendDropSend(xs) && st.delay != NEVER && st.count == 0 && st.clone == 2
    requires SentNew(rs[0], rs[1])
    ensures DroppedClone(rs[1], rs[2])
  {
    TurnAt(st, rs, xs, 1);
    DropsClone(st, rs[1], xs[1]);
  }

  /** The condition matters: with two clones, a packet sent, one dropped and one sent, the
      second packet sent carries 2 and not 1, from any start. */
  lemma DropBreaksStep(st: Settings, rs: seq<Run>, xs: seq<Attempt>)
    requires IsRun(st, rs, xs) && SendDropSend(xs) && st.delay != NEVER && st.count == 0 && st.clone == 2
    ensures |rs[3].sent| == 2 && rs[3].sent[1].number == 2 && InStep(1, 2) == 1
  {
    FirstIsSent(st, rs, xs, 0);
    SecondIsDropped(st, rs, xs);
    FirstIsSent(st, rs, xs, 2);
  }
}
