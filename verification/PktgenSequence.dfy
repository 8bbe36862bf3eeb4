/** Which number each packet carries and how often each buffer is sent, over any run. */
module PktgenSequence {
  import opened ModArith
  import opened Basics
  import opened PktgenFrame
  import opened PktgenTransmit

  /** How often a buffer is used up: clone_skb times, but at least once. */
  function Uses(st: Settings): nat { if st.clone == 0 then 1 else st.clone }

  /** Buffers still in use: the last one, while the device runs with it. */
  function Finished(r: Run): nat {
    if |r.buffers| == 0 || (r.tx.running && r.tx.skb.None?) then |r.buffers| else |r.buffers| - 1
  }

  /** How many packets had been sent when buffer m was given up. */
  function End(r: Run, m: nat): nat
    requires m < |r.buffers|
  {
    if m + 1 < |r.buffers| then r.buffers[m + 1].first else |r.sent|
  }

  /** The buffers divide the packets sent between them. */
  ghost predicate ChainInv(r: Run) {
    && (if r.buffers == [] then r.sent == [] else r.buffers[0].first == 0)
    && forall m {:trigger End(r, m)} :: 0 <= m < |r.buffers| ==> r.buffers[m].first + r.buffers[m].uses == End(r, m)
  }

  ghost predicate From(r: Run, k: nat)
    requires k < |r.sent|
  {
    var s := r.sent[k];
    && s.buffer < |r.buffers| && k == r.buffers[s.buffer].first + s.rank
    && s.rank < r.buffers[s.buffer].uses && s.number == Rem(1 + r.buffers[s.buffer].first, TWO_32)
  }

  ghost predicate SentInv(r: Run) { forall k :: 0 <= k < |r.sent| ==> From(r, k) }

  function Bytes(sent: seq<Send>): int {
    if sent == [] then 0 else Bytes(sent[..|sent| - 1]) + sent[|sent| - 1].size
  }

  ghost predicate NumberInv(r: Run) {
    && r.tx.seqNum == Rem(1 + |r.sent|, TWO_32)
    && (r.tx.skb.Some? ==>
          |r.buffers| > 0 && r.tx.skb.value.seqNum == Rem(1 + r.buffers[|r.buffers| - 1].first, TWO_32))
  }

  ghost predicate CounterInv(r: Run) {
    && r.tx.sofar == Rem(|r.sent|, TWO_64) && r.tx.txBytes == Bytes(r.sent) % TWO_64
    && (r.tx.skb.Some? ==> r.tx.lastSize == r.tx.skb.value.len)
  }

  /** Each turn of the clone counter is a packet sent or a packet consumed. */
  ghost predicate UseInv(st: Settings, r: Run) {
    && (forall m :: 0 <= m < Finished(r) ==> r.buffers[m].uses + r.buffers[m].wasted == Uses(st))
    && (forall m :: 0 <= m < |r.buffers| ==> r.buffers[m].uses + r.buffers[m].wasted <= Uses(st))
    && (r.tx.running && r.tx.skb.Some? && |r.buffers| > 0 ==>
          var u := r.buffers[|r.buffers| - 1];
          r.tx.cloneCount < Uses(st) && u.uses + u.wasted == r.tx.cloneCount + if r.tx.lastOk then 1 else 0)
  }

  ghost predicate Inv(st: Settings, r: Run) {
    && Recorded(r)
    && ChainInv(r) && SentInv(r) && NumberInv(r) && CounterInv(r) && UseInv(st, r)
  }

  // ---- Building ----

  /** What building changes, as far as numbers and buffers go. */
  ghost predicate BuildStep(st: Settings, r: Run, b: Run) {
    && b.sent == r.sent && b.tx.running == r.tx.running && b.tx.lastOk == r.tx.lastOk
    && b.tx.seqNum == r.tx.seqNum && b.tx.sofar == r.tx.sofar && b.tx.txBytes == r.tx.txBytes
    && (b.tx.skb.Some? && b.buffers == r.buffers ==>
          && r.tx.skb == b.tx.skb && b.tx.lastSize == r.tx.lastSize
          && b.tx.cloneCount == (if r.tx.lastOk then (r.tx.cloneCount + 1) % TWO_32 else r.tx.cloneCount)
          && (r.tx.lastOk ==> b.tx.cloneCount < st.clone))
    && (b.tx.skb.None? || b.buffers != r.buffers ==>
          r.tx.skb.Some? ==> r.tx.lastOk && (r.tx.cloneCount + 1) % TWO_32 >= st.clone)
    && (b.tx.skb.None? ==> b.buffers == r.buffers)
    && (b.buffers != r.buffers ==>
          && b.buffers == r.buffers + [Use(|r.sent|, 0, 0)] && b.tx.cloneCount == 0 && b.tx.skb.Some?
          && b.tx.skb.value.seqNum == r.tx.seqNum && b.tx.lastSize == b.tx.skb.value.len)
  }

  lemma BuiltIsStep(st: Settings, r: Run, a: BuildInput)
    requires Recorded(r)
    ensures BuildStep(st, r, Built(st, r, a))
  {
    if NeedsBuild(st, r.tx) && a.gotSkb {
      assert |Built(st, r, a).buffers| > |r.buffers|;
    }
  }

  lemma BuildKeepsSent(st: Settings, r: Run, b: Run)
    requires BuildStep(st, r, b) && SentInv(r)
    ensures SentInv(b)
  {
    forall k | 0 <= k < |b.sent|
      ensures From(b, k)
    {
      assert From(r, k);
    }
  }

  lemma BuildKeepsChain(st: Settings, r: Run, b: Run)
    requires BuildStep(st, r, b) && ChainInv(r)
    ensures ChainInv(b)
  {
    forall m {:trigger End(b, m)} | 0 <= m < |b.buffers|
      ensures b.buffers[m].first + b.buffers[m].uses == End(b, m)
    {
      if m < |r.buffers| {
        assert r.buffers[m].first + r.buffers[m].uses == End(r, m);
      }
    }
  }

  lemma BuildKeepsCounters(st: Settings, r: Run, b: Run)
    requires BuildStep(st, r, b) && CounterInv(r) && NumberInv(r)
    ensures CounterInv(b) && NumberInv(b)
  {
  }

  /** After building, before sending: the counter equals what the current buffer has used. */
  ghost predicate ReadyToSend(st: Settings, r: Run) {
    && r.tx.running && r.tx.skb.Some? && |r.buffers| > 0
    && (forall m :: 0 <= m < |r.buffers| - 1 ==> r.buffers[m].uses + r.buffers[m].wasted == Uses(st))
    && var u := r.buffers[|r.buffers| - 1];
       r.tx.cloneCount < Uses(st) && u.uses + u.wasted == r.tx.cloneCount
  }

  lemma BuildKeepsUses(st: Settings, r: Run, b: Run)
    requires BuildStep(st, r, b) && UseInv(st, r) && r.tx.running && (r.tx.skb.Some? ==> |r.buffers| > 0)
    ensures if b.tx.skb.Some? then ReadyToSend(st, b) else UseInv(st, b)
  {
    if r.tx.skb.Some? && (b.tx.skb.None? || b.buffers != r.buffers) {
      assert r.buffers[|r.buffers| - 1].uses + r.buffers[|r.buffers| - 1].wasted == Uses(st);
    }
  }

  // ---- Sending ----

  /** What an attempt changes: the buffer is sent, or wasted, or neither; and the
      device may stop. */
  ghost predicate SendStep(r: Run, n: Run)
    requires r.tx.skb.Some? && |r.buffers| > 0
  {
    var m := |r.buffers| - 1;
    var u := r.buffers[m];
    && (n.tx.running ==> n.tx.skb == r.tx.skb)
    && (!n.tx.running ==> n.tx.skb.None?)
    && n.tx.cloneCount == r.tx.cloneCount && n.tx.lastSize == r.tx.lastSize
    && if n.sent != r.sent then
         && |n.sent| == |r.sent| + 1 && n.sent[..|r.sent|] == r.sent
         && n.buffers == r.buffers[m := u.(uses := u.uses + 1)] && n.tx.lastOk
         && var s := n.sent[|r.sent|];
            && s.buffer == m && s.rank == u.uses && s.number == r.tx.skb.value.seqNum && s.size == r.tx.skb.value.len
            && n.tx.seqNum == (r.tx.seqNum + 1) % TWO_32 && n.tx.sofar == (r.tx.sofar + 1) % TWO_64
            && n.tx.txBytes == (r.tx.txBytes + r.tx.lastSize) % TWO_64
       else
         && n.tx.seqNum == r.tx.seqNum && n.tx.sofar == r.tx.sofar && n.tx.txBytes == r.tx.txBytes
         && if n.buffers != r.buffers then n.buffers == r.buffers[m := u.(wasted := u.wasted + 1)] && n.tx.lastOk
            else !n.tx.lastOk
  }

  lemma AttemptIsStep(st: Settings, r: Run, a: Attempt)
    requires Recorded(r) && r.tx.skb.Some? && r.tx.running
    ensures SendStep(r, Attempted(st, r, a))
  {
    var n := Attempted(st, r, a);
    var m := |r.buffers| - 1;
    if a.outcome.Ok? {
      assert |n.sent| == |r.sent| + 1;
    } else if Consumed(a.outcome) && r.tx.lastOk {
      assert n.buffers[m] != r.buffers[m];
    }
  }

  lemma SendKeepsUses(st: Settings, r: Run, n: Run)
    requires ReadyToSend(st, r) && SendStep(r, n)
    ensures UseInv(st, n)
  {
  }

  lemma SendKeepsChain(st: Settings, r: Run, n: Run)
    requires ReadyToSend(st, r) && SendStep(r, n) && ChainInv(r)
    ensures ChainInv(n)
  {
    forall m {:trigger End(n, m)} | 0 <= m < |n.buffers|
      ensures n.buffers[m].first + n.buffers[m].uses == End(n, m)
    {
      assert r.buffers[m].first + r.buffers[m].uses == End(r, m);
    }
  }

  lemma SendKeepsFrom(r: Run, n: Run, k: nat)
    requires r.tx.skb.Some? && |r.buffers| > 0 && SendStep(r, n) && k < |r.sent| && From(r, k)
    ensures From(n, k)
  {
    assert n.sent[k] == n.sent[..|r.sent|][k];
  }

  lemma NewPacketFrom(r: Run, n: Run)
    requires r.tx.skb.Some? && |r.buffers| > 0 && SendStep(r, n) && NumberInv(r)
    requires r.buffers[|r.buffers| - 1].first + r.buffers[|r.buffers| - 1].uses == |r.sent| < |n.sent|
    ensures From(n, |r.sent|)
  {
  }

  lemma SendKeepsSent(st: Settings, r: Run, n: Run)
    requires ReadyToSend(st, r) && SendStep(r, n) && ChainInv(r) && SentInv(r) && NumberInv(r)
    ensures SentInv(n)
  {
    assert r.buffers[|r.buffers| - 1].first + r.buffers[|r.buffers| - 1].uses == End(r, |r.buffers| - 1);
    forall k | 0 <= k < |n.sent|
      ensures From(n, k)
    {
      if k < |r.sent| {
        SendKeepsFrom(r, n, k);
      } else {
        NewPacketFrom(r, n);
      }
    }
  }

  lemma SendKeepsNumber(st: Settings, r: Run, n: Run)
    requires ReadyToSend(st, r) && SendStep(r, n) && NumberInv(r)
    ensures NumberInv(n)
  {
    var count := 1 + |r.sent|;
    RemNext(count, TWO_32);
    if n.sent != r.sent {
      assert 1 + |n.sent| == count + 1;
    }
  }

  lemma SendKeepsCounters(st: Settings, r: Run, n: Run)
    requires ReadyToSend(st, r) && SendStep(r, n) && CounterInv(r)
    ensures CounterInv(n)
  {
    RemNext(|r.sent|, TWO_64);
    if n.sent != r.sent {
      assert n.sent[..|n.sent| - 1] == r.sent;
    }
  }

  /** A step that leaves buffers and packets alone. */
  lemma SameLog(r: Run, n: Run)
    requires n.buffers == r.buffers && n.sent == r.sent
    ensures ChainInv(r) ==> ChainInv(n)
    ensures SentInv(r) ==> SentInv(n)
  {
    if ChainInv(r) {
      forall m {:trigger End(n, m)} | 0 <= m < |n.buffers|
        ensures n.buffers[m].first + n.buffers[m].uses == End(n, m)
      {
        assert r.buffers[m].first + r.buffers[m].uses == End(r, m);
      }
    }
    if SentInv(r) {
      forall k | 0 <= k < |n.sent|
        ensures From(n, k)
      {
        assert From(r, k);
      }
    }
  }

  lemma WaitingKeepsInv(st: Settings, r: Run, next: int)
    requires Inv(st, r)
    ensures Inv(st, r.(tx := r.tx.(nextTx := next)))
  {
    SameLog(r, r.(tx := r.tx.(nextTx := next)));
  }

  lemma TurnKeepsInv(st: Settings, r: Run, a: Attempt)
    requires Inv(st, r)
    ensures Inv(st, Turn(st, r, a))
  {
    if r.tx.running && !a.online {
      StopKeepsInv(st, r);
    } else if r.tx.running && st.delay == NEVER {
      WaitingKeepsInv(st, r, a.clock.now + NEVER);
    } else if r.tx.running {
      BuildKeepsInv(st, r, a.build);
      var b := Built(st, r, a.build);
      if b.tx.skb.Some? {
        SendKeepsInv(st, b, a);
      }
    }
  }

  lemma BuildKeepsInv(st: Settings, r: Run, a: BuildInput)
    requires Inv(st, r) && r.tx.running
    ensures var b := Built(st, r, a);
            && Recorded(b) && ChainInv(b) && SentInv(b) && NumberInv(b) && CounterInv(b)
            && if b.tx.skb.Some? then ReadyToSend(st, b) else UseInv(st, b)
  {
    var b := Built(st, r, a);
    BuiltIsStep(st, r, a);
    BuildKeepsSent(st, r, b);
    BuildKeepsChain(st, r, b);
    BuildKeepsCounters(st, r, b);
    BuildKeepsUses(st, r, b);
  }

  lemma SendKeepsInv(st: Settings, b: Run, a: Attempt)
    requires Recorded(b) && ReadyToSend(st, b) && ChainInv(b) && SentInv(b) && NumberInv(b) && CounterInv(b)
    ensures Inv(st, Attempted(st, b, a))
  {
    var n := Attempted(st, b, a);
    AttemptIsStep(st, b, a);
    SendKeepsUses(st, b, n);
    SendKeepsChain(st, b, n);
    SendKeepsSent(st, b, n);
    SendKeepsNumber(st, b, n);
    SendKeepsCounters(st, b, n);
  }

  lemma StopKeepsInv(st: Settings, r: Run)
    requires Inv(st, r)
    ensures Inv(st, r.(tx := Stop(r.tx)))
  {
    SameLog(r, r.(tx := Stop(r.tx)));
  }

  lemma TurnAt(st: Settings, rs: seq<Run>, xs: seq<Attempt>, k: nat)
    requires IsRun(st, rs, xs) && k < |xs|
    ensures rs[k + 1] == Turn(st, rs[k], xs[k])
  {
    assert StepAt(st, rs, xs, k);
  }

  lemma {:induction false} InvAlways(st: Settings, rs: seq<Run>, xs: seq<Attempt>, n: nat)
    requires IsRun(st, rs, xs) && n < |rs|
    ensures Inv(st, rs[n])
  {
    if n > 0 {
      InvAlways(st, rs, xs, n - 1);
      TurnKeepsInv(st, rs[n - 1], xs[n - 1]);
      TurnAt(st, rs, xs, n - 1);
    } else {
      RemIsModulo(1, TWO_32);
      RemIsModulo(0, TWO_64);
    }
  }
}
