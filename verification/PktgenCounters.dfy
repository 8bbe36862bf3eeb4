/** What a run counts, when it stops, and what a failed build leaves. */
module PktgenCounters {
  import opened ModArith
  import opened Basics
  import opened PktgenFrame
  import opened PktgenTransmit
  import opened PktgenSequence
  import opened PktgenOutcomes

  // ---- Errors and buffers ----

  /** Attempt k has a packet that comes to nothing: it is consumed without being sent, or
      the driver returns a value that it is not supposed to. A refusal is not an error. */
  predicate Fails(st: Settings, t: Tx, a: Attempt) {
    Reaches(st, t, a) && (Consumed(a.outcome) || a.outcome.Other?)
  }

  ghost function Failures(st: Settings, rs: seq<Run>, xs: seq<Attempt>, n: nat): nat
    requires n <= |xs| < |rs|
  {
    if n == 0 then 0 else Failures(st, rs, xs, n - 1) + if Fails(st, rs[n - 1].tx, xs[n - 1]) then 1 else 0
  }

  lemma RebuildCounts(t: Tx, a: BuildInput)
    requires Valid(t.builder)
    ensures var p := Rebuild(t, a);
            && p.errors == t.errors && p.sofar == t.sofar && p.running == t.running && p.nextTx == t.nextTx
            && p.skbsBuilt == (if a.gotSkb then (t.skbsBuilt + 1) % TWO_64 else t.skbsBuilt)
            && p.cloneCount == if a.gotSkb then 0 else (t.cloneCount - 1) % TWO_32
  {
  }

  lemma PrepareCounts(st: Settings, t: Tx, a: BuildInput)
    requires Valid(t.builder)
    ensures var p := Prepare(st, t, a);
            && p.errors == t.errors && p.sofar == t.sofar && p.running == t.running
            && (p.skb.Some? <==> NeedsBuild(st, t) ==> a.gotSkb)
            && p.skbsBuilt == if NeedsBuild(st, t) && a.gotSkb then (t.skbsBuilt + 1) % TWO_64 else t.skbsBuilt
  {
    if NeedsBuild(st, t) {
      RebuildCounts(Counted(t), a);
      assert Prepare(st, t, a) == Rebuild(Counted(t), a);
    } else {
      assert Prepare(st, t, a) == Counted(t);
    }
  }

  lemma DeliverCounts(st: Settings, p: Tx, o: Outcome)
    requires p.running
    ensures var n := Deliver(st, p, o);
            && n.skbsBuilt == p.skbsBuilt
            && n.errors == (if Consumed(o) || o.Other? then (p.errors + 1) % TWO_64 else p.errors)
            && (n.running <==> st.count == 0 || n.sofar < st.count) && (!n.running ==> n.skb.None?)
  {
  }

  lemma XmitCounts(st: Settings, t: Tx, a: Attempt)
    requires Valid(t.builder) && t.running
    ensures var n := Xmit(st, t, a);
            && n.errors == (if Fails(st, t, a) then (t.errors + 1) % TWO_64 else t.errors)
            && n.skbsBuilt == if NewBuffer(st, t, a) then (t.skbsBuilt + 1) % TWO_64 else t.skbsBuilt
  {
    if a.online && st.delay != NEVER {
      PrepareCounts(st, t, a.build);
      DeliverCounts(st, Prepare(st, t, a.build), a.outcome);
    }
  }

  lemma CountsAt(st: Settings, rs: seq<Run>, xs: seq<Attempt>, k: nat, before: Tx, after: Tx)
    requires IsRun(st, rs, xs) && k < |xs| && before == rs[k].tx && after == rs[k + 1].tx
    ensures after.errors == if Fails(st, before, xs[k]) then (before.errors + 1) % TWO_64 else before.errors
    ensures after.skbsBuilt
         == if NewBuffer(st, before, xs[k]) then (before.skbsBuilt + 1) % TWO_64 else before.skbsBuilt
  {
    TurnAt(st, rs, xs, k);
    TurnIsXmit(st, rs[k], xs[k]);
    if before.running {
      XmitCounts(st, before, xs[k]);
    }
  }

  /** The error counter is the number of failures of the run. */
  lemma {:induction false} ErrorsCounted(st: Settings, rs: seq<Run>, xs: seq<Attempt>, n: nat)
    requires IsRun(st, rs, xs) && n < |rs|
    ensures rs[n].tx.errors == Rem(Failures(st, rs, xs, n), TWO_64)
  {
    if n > 0 {
      ErrorsCounted(st, rs, xs, n - 1);
      CountsAt(st, rs, xs, n - 1, rs[n - 1].tx, rs[n].tx);
      RemNext(Failures(st, rs, xs, n - 1), TWO_64);
    }
  }

  /** The buffers of the run are added to those of the runs before it. */
  lemma {:induction false} BuffersCounted(st: Settings, rs: seq<Run>, xs: seq<Attempt>, n: nat)
    requires IsRun(st, rs, xs) && n < |rs|
    ensures rs[n].tx.skbsBuilt == Rem(rs[0].tx.skbsBuilt + BuffersBuilt(st, rs, xs, n), TWO_64)
  {
    if n > 0 {
      BuffersCounted(st, rs, xs, n - 1);
      CountsAt(st, rs, xs, n - 1, rs[n - 1].tx, rs[n].tx);
      RemNext(rs[0].tx.skbsBuilt + BuffersBuilt(st, rs, xs, n - 1), TWO_64);
    }
  }

  // ---- Stopping ----

  ghost predicate AllOnline(xs: seq<Attempt>, n: nat)
    requires n <= |xs|
  {
    forall k :: 0 <= k < n ==> xs[k].online
  }

  lemma XmitStops(st: Settings, t: Tx, a: Attempt)
    requires Valid(t.builder) && t.running && (st.count == 0 || t.sofar < st.count)
    ensures var n := Xmit(st, t, a);
            && (n.running <==> a.online && (st.count == 0 || n.sofar < st.count))
            && (!a.online ==> n.sofar == t.sofar) && (!n.running ==> n.skb.None?)
  {
    if a.online && st.delay != NEVER {
      PrepareCounts(st, t, a.build);
      DeliverCounts(st, Prepare(st, t, a.build), a.outcome);
    }
  }

  lemma StopsAt(st: Settings, rs: seq<Run>, xs: seq<Attempt>, k: nat, before: Tx, after: Tx)
    requires IsRun(st, rs, xs) && k < |xs| && before == rs[k].tx && after == rs[k + 1].tx
    ensures !before.running ==> after == before
    ensures before.running && (st.count == 0 || before.sofar < st.count) ==>
              && (after.running <==> xs[k].online && (st.count == 0 || after.sofar < st.count))
              && (!after.running ==> after.skb.None?)
  {
    TurnAt(st, rs, xs, k);
    TurnIsXmit(st, rs[k], xs[k]);
    if before.running && (st.count == 0 || before.sofar < st.count) {
      XmitStops(st, before, xs[k]);
    }
  }

  /** A device runs as long as its link has always been up and its count, if it has one, is not
      reached; and once it has stopped it holds no buffer. */
  lemma {:induction false} RunsUntil(st: Settings, rs: seq<Run>, xs: seq<Attempt>, n: nat)
    requires IsRun(st, rs, xs) && n < |rs|
    ensures rs[n].tx.running <==> AllOnline(xs, n) && (st.count == 0 || rs[n].tx.sofar < st.count)
    ensures !rs[n].tx.running ==> rs[n].tx.skb.None?
  {
    if n > 0 {
      RunsUntil(st, rs, xs, n - 1);
      StopsAt(st, rs, xs, n - 1, rs[n - 1].tx, rs[n].tx);
    }
  }

  // ---- The delay that means never ----

  /** Then nothing is built or sent, whatever happens. */
  lemma {:induction false} NeverSends(st: Settings, rs: seq<Run>, xs: seq<Attempt>, n: nat)
    requires IsRun(st, rs, xs) && n < |rs| && st.delay == NEVER
    ensures rs[n].buffers == [] && rs[n].sent == [] && rs[n].tx.skb.None?
    ensures rs[n].tx.builder == rs[0].tx.builder && rs[n].tx.errors == 0
  {
    if n > 0 {
      NeverSends(st, rs, xs, n - 1);
      TurnAt(st, rs, xs, n - 1);
    }
  }

  /** And the device is due again after the longest of delays. */
  lemma DueAfterNever(st: Settings, rs: seq<Run>, xs: seq<Attempt>, k: nat)
    requires IsRun(st, rs, xs) && k < |xs| && st.delay == NEVER && rs[k].tx.running && xs[k].online
    ensures rs[k + 1].tx.running && rs[k + 1].tx.nextTx == xs[k].clock.now + 0xffff_ffff_ffff_ffff
  {
    TurnAt(st, rs, xs, k);
  }

  // ---- Failed builds ----

  lemma BackedOut(count: u32)
    ensures ((count + 1) % TWO_32 - 1) % TWO_32 == count
    ensures (count - 1) % TWO_32 == if count == 0 then 0xffff_ffff else count - 1
  {
  }

  lemma XmitFails(st: Settings, t: Tx, a: Attempt)
    requires Valid(t.builder) && a.online && st.delay != NEVER && NeedsBuild(st, t) && !a.build.gotSkb
    ensures Xmit(st, t, a) == Rebuild(Counted(t), a.build)
  {
  }

  /** A failed build leaves no buffer, and the clone counter one lower than the attempt had
      moved it: as it was before if the last packet was sent, else one below. */
  lemma FailedBuild(st: Settings, t: Tx, a: Attempt)
    requires Valid(t.builder) && a.online && st.delay != NEVER && NeedsBuild(st, t) && !a.build.gotSkb
    ensures var n := Xmit(st, t, a);
            && n.skb.None? && n.running == t.running && n.sofar == t.sofar && n.nextTx == t.nextTx
            && n.cloneCount == if t.skb.Some? && t.lastOk then t.cloneCount
                               else if t.cloneCount == 0 then 0xffff_ffff else t.cloneCount - 1
  {
    XmitFails(st, t, a);
    RebuildCounts(Counted(t), a.build);
    BackedOut(t.cloneCount);
  }

  /** What the counter was does not matter any more once a build succeeds. */
  lemma BuildForgetsCount(st: Settings, t: Tx, a: BuildInput, count: u32)
    requires Valid(t.builder) && t.skb.None? && a.gotSkb
    ensures Prepare(st, t.(cloneCount := count), a) == Prepare(st, t, a) && Prepare(st, t, a).cloneCount == 0
  {
  }
}
