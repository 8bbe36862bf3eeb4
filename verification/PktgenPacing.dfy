/** When packets leave, and how many: pacing and the packet count over whole runs. */
module PktgenPacing {
  import opened PktgenFrame
  import opened PktgenTransmit
  import opened PktgenSequence

  // ---- The count ----

  /** With a count set, a running device is still below it and no device is above it. */
  predicate CountInv(st: Settings, t: Tx) {
    st.count != 0 ==> t.sofar <= st.count && (t.running ==> t.sofar < st.count)
  }

  /** Building touches neither counters nor times. */
  lemma PrepareKeeps(st: Settings, t: Tx, a: BuildInput)
    requires Valid(t.builder)
    ensures var p := Prepare(st, t, a);
            && p.sofar == t.sofar && p.running == t.running && p.lastOk == t.lastOk
            && p.nextTx == t.nextTx && p.startedAt == t.startedAt
  {
  }

  lemma DeliverKeepsCount(st: Settings, p: Tx, o: Outcome)
    requires p.running && CountInv(st, p)
    ensures CountInv(st, Deliver(st, p, o))
    ensures !Deliver(st, p, o).running ==> st.count != 0 && Deliver(st, p, o).sofar == st.count
  {
  }

  /** One attempt keeps the bound; a device that goes from running to stopped while online was
      stopped by its count, and has then sent exactly that many packets. */
  lemma XmitKeepsCount(st: Settings, t: Tx, a: Attempt)
    requires Valid(t.builder) && t.running && CountInv(st, t)
    ensures CountInv(st, Xmit(st, t, a))
    ensures a.online && !Xmit(st, t, a).running ==> st.count != 0 && Xmit(st, t, a).sofar == st.count
  {
    PrepareKeeps(st, t, a.build);
    DeliverKeepsCount(st, Prepare(st, t, a.build), a.outcome);
  }

  lemma TurnKeepsCount(st: Settings, r: Run, a: Attempt)
    requires Recorded(r) && CountInv(st, r.tx)
    ensures var n := Turn(st, r, a);
            && CountInv(st, n.tx)
            && (r.tx.running && !n.tx.running && a.online ==> st.count != 0 && n.tx.sofar == st.count)
  {
    TurnIsXmit(st, r, a);
    if r.tx.running {
      XmitKeepsCount(st, r.tx, a);
    }
  }

  lemma StepKeepsCount(st: Settings, rs: seq<Run>, xs: seq<Attempt>, k: nat)
    requires IsRun(st, rs, xs) && k < |xs| && CountInv(st, rs[k].tx)
    ensures CountInv(st, rs[k + 1].tx)
    ensures rs[k].tx.running && !rs[k + 1].tx.running && xs[k].online ==>
              st.count != 0 && rs[k + 1].tx.sofar == st.count
  {
    TurnAt(st, rs, xs, k);
    TurnKeepsCount(st, rs[k], xs[k]);
  }

  lemma {:induction false} NeverAboveCount(st: Settings, rs: seq<Run>, xs: seq<Attempt>, n: nat)
    requires IsRun(st, rs, xs) && n < |rs|
    ensures CountInv(st, rs[n].tx)
    ensures n > 0 && rs[n - 1].tx.running && !rs[n].tx.running && xs[n - 1].online ==>
              st.count != 0 && rs[n].tx.sofar == st.count
  {
    if n > 0 {
      NeverAboveCount(st, rs, xs, n - 1);
      StepKeepsCount(st, rs, xs, n - 1);
    }
  }

  // ---- Pacing ----

  /** A finite delay. */
  predicate Delayed(st: Settings) { 0 < st.delay < NEVER }

  /** A clock that does not run backwards: the driver is called after the wait has ended. And
      a wait that is not interrupted: the clock is read until it is time. */
  predicate Waits(t: Tx, c: Clock) {
    && c.now <= c.sent
    && (t.lastOk ==>
          && Woken(c, t.nextTx) <= c.sent
          && (c.now < t.nextTx ==> FirstNotBefore(c.readings, t.nextTx) < |c.readings|))
  }

  /** After such a wait it is time to send. */
  lemma SentWhenDue(t: Tx, c: Clock)
    requires Waits(t, c) && t.lastOk
    ensures Woken(c, t.nextTx) >= t.nextTx && c.sent >= t.nextTx
  {
  }

  ghost predicate WaitsAt(st: Settings, rs: seq<Run>, xs: seq<Attempt>, k: nat)
    requires k < |xs| < |rs|
  {
    && Waits(rs[k].tx, xs[k].clock)
    && (if k == 0 then rs[0].tx.startedAt else xs[k - 1].clock.sent) <= xs[k].clock.now
  }

  /** The departure time after n waits. */
  function Departure(st: Settings, t: Tx, n: int): int { t.startedAt + n * st.delay }

  lemma DepartureGrows(st: Settings, t: Tx, m: int, n: int)
    requires m <= n
    ensures Departure(st, t, m) <= Departure(st, t, n)
  {
    assert (n - m) * st.delay >= 0;
  }

  lemma NextDeparture(st: Settings, t: Tx, n: int)
    ensures Departure(st, t, n + 1) == Departure(st, t, n) + st.delay
  {
  }

  /** What one attempt changes, as far as times go. */
  ghost predicate PaceStep(st: Settings, r: Run, n: Run, c: Clock) {
    && n.tx.startedAt == r.tx.startedAt
    && (if n.spins == r.spins then n.tx.nextTx == r.tx.nextTx
        else n.spins == r.spins + 1 && n.tx.nextTx == r.tx.nextTx + st.delay && r.tx.lastOk)
    && (n.sent == r.sent ==> n.tx.lastOk ==> r.tx.lastOk)
    && (n.sent == r.sent && n.spins == r.spins && r.tx.lastOk ==> n.tx.lastOk)
    && (n.sent != r.sent ==>
          && |n.sent| == |r.sent| + 1 && n.sent[..|r.sent|] == r.sent && n.sent[|r.sent|].at == c.sent
          && n.tx.lastOk && (r.tx.lastOk ==> n.spins > r.spins))
  }

  lemma AttemptIsPaceStep(st: Settings, r: Run, a: Attempt)
    requires Recorded(r) && r.tx.skb.Some? && Delayed(st)
    ensures PaceStep(st, r, Attempted(st, r, a), a.clock)
  {
    var n := Attempted(st, r, a);
    if !a.outcome.Ok? {
      assert n.sent == r.sent;
    } else {
      assert |n.sent| == |r.sent| + 1;
    }
  }

  ghost predicate SameTimes(r: Run, b: Run) {
    && b.spins == r.spins && b.sent == r.sent && b.tx.lastOk == r.tx.lastOk
    && b.tx.nextTx == r.tx.nextTx && b.tx.startedAt == r.tx.startedAt
  }

  lemma PaceStepAfterBuild(st: Settings, r: Run, b: Run, n: Run, c: Clock)
    requires SameTimes(r, b) && (n == b || PaceStep(st, b, n, c))
    ensures PaceStep(st, r, n, c)
  {
  }

  lemma TurnIsPaceStep(st: Settings, r: Run, a: Attempt)
    requires Recorded(r) && Delayed(st)
    ensures PaceStep(st, r, Turn(st, r, a), a.clock)
  {
    var b := Built(st, r, a.build);
    PrepareKeeps(st, r.tx, a.build);
    if r.tx.running && a.online {
      if b.tx.skb.Some? {
        AttemptIsPaceStep(st, b, a);
      }
      PaceStepAfterBuild(st, r, b, Turn(st, r, a), a.clock);
    }
  }

  ghost predicate PaceInv(st: Settings, r: Run, now: int) {
    && r.tx.nextTx == Departure(st, r.tx, r.spins)
    && now >= r.tx.startedAt && (r.spins > 0 ==> now >= Departure(st, r.tx, r.spins - 1))
    && (if r.tx.lastOk then r.spins >= |r.sent| - 1 else |r.sent| > 0 ==> r.spins >= |r.sent|)
    && forall k :: 1 <= k < |r.sent| ==> r.sent[k].at >= Departure(st, r.tx, k - 1)
  }

  lemma PaceStepKeepsTimes(st: Settings, r: Run, n: Run, c: Clock, now: int)
    requires Delayed(st) && PaceStep(st, r, n, c) && PaceInv(st, r, now) && Waits(r.tx, c) && now <= c.now
    ensures n.tx.nextTx == Departure(st, n.tx, n.spins)
    ensures c.sent >= n.tx.startedAt && (n.spins > 0 ==> c.sent >= Departure(st, n.tx, n.spins - 1))
    ensures if n.tx.lastOk then n.spins >= |n.sent| - 1 else |n.sent| > 0 ==> n.spins >= |n.sent|
  {
    NextDeparture(st, r.tx, r.spins);
    if r.tx.lastOk {
      SentWhenDue(r.tx, c);
    }
  }

  lemma NewPacketPaced(st: Settings, r: Run, n: Run, c: Clock, now: int)
    requires Delayed(st) && PaceStep(st, r, n, c) && PaceInv(st, r, now) && Waits(r.tx, c) && now <= c.now
    requires n.sent != r.sent && |r.sent| >= 1
    ensures n.sent[|r.sent|].at >= Departure(st, n.tx, |r.sent| - 1)
  {
    PaceStepKeepsTimes(st, r, n, c, now);
    DepartureGrows(st, n.tx, |r.sent| - 1, n.spins - 1);
  }

  lemma PaceStepKeepsInv(st: Settings, r: Run, n: Run, c: Clock, now: int)
    requires Delayed(st) && PaceStep(st, r, n, c) && PaceInv(st, r, now) && Waits(r.tx, c) && now <= c.now
    ensures PaceInv(st, n, c.sent)
  {
    PaceStepKeepsTimes(st, r, n, c, now);
    forall k | 1 <= k < |n.sent|
      ensures n.sent[k].at >= Departure(st, n.tx, k - 1)
    {
      if k < |r.sent| {
        assert n.sent[k] == n.sent[..|r.sent|][k] == r.sent[k];
      } else {
        NewPacketPaced(st, r, n, c, now);
      }
    }
  }

  /** With a fixed delay and waits that are not interrupted, after any attempts the next
      departure is the start time plus one delay for each wait, and the k-th packet sent,
      from 0 and for k at least 1, left no earlier than k - 1 delays after the start. */
  lemma {:induction false} RunIsPaced(st: Settings, rs: seq<Run>, xs: seq<Attempt>, n: nat)
    requires IsRun(st, rs, xs) && n < |rs| && Delayed(st)
    requires forall k :: 0 <= k < n ==> WaitsAt(st, rs, xs, k)
    ensures rs[n].tx.startedAt == rs[0].tx.startedAt
    ensures PaceInv(st, rs[n], if n == 0 then rs[0].tx.startedAt else xs[n - 1].clock.sent)
  {
    if n > 0 {
      RunIsPaced(st, rs, xs, n - 1);
      assert WaitsAt(st, rs, xs, n - 1);
      var now := if n == 1 then rs[0].tx.startedAt else xs[n - 2].clock.sent;
      TurnIsPaceStep(st, rs[n - 1], xs[n - 1]);
      TurnAt(st, rs, xs, n - 1);
      PaceStepKeepsInv(st, rs[n - 1], rs[n], xs[n - 1].clock, now);
    }
  }
}
