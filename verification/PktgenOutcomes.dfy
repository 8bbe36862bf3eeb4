/** The clone laws over the attempts themselves: which outcomes use up a clone. */
module PktgenOutcomes {
  import opened PktgenFrame
  import opened PktgenTransmit
  import opened PktgenSequence
  import opened PktgenSequenceLaws

  /** The attempt builds a new packet. */
  predicate NewBuffer(st: Settings, t: Tx, a: Attempt) {
    t.running && a.online && st.delay != NEVER && NeedsBuild(st, t) && a.build.gotSkb
  }

  /** The attempt has a packet to hand to the queue, so that its outcome counts. */
  predicate Reaches(st: Settings, t: Tx, a: Attempt) {
    t.running && a.online && st.delay != NEVER && (NeedsBuild(st, t) ==> a.build.gotSkb)
  }

  /** The last outcome that was not a consumption was OK; before the first one, what an
      earlier run has left counts. */
  ghost predicate LastWasOk(st: Settings, rs: seq<Run>, xs: seq<Attempt>, k: nat)
    requires k <= |xs| < |rs|
  {
    if k == 0 then rs[0].tx.lastOk
    else if Reaches(st, rs[k - 1].tx, xs[k - 1]) && !Consumed(xs[k - 1].outcome) then xs[k - 1].outcome.Ok?
    else LastWasOk(st, rs, xs, k - 1)
  }

  /** A packet that was sent. */
  ghost predicate Sends(st: Settings, rs: seq<Run>, xs: seq<Attempt>, k: nat)
    requires k < |xs| < |rs|
  {
    Reaches(st, rs[k].tx, xs[k]) && xs[k].outcome.Ok?
  }

  /** A packet that was wasted: one consumed that follows a packet sent, with nothing but
      consumptions in between. */
  ghost predicate Wastes(st: Settings, rs: seq<Run>, xs: seq<Attempt>, k: nat)
    requires k < |xs| < |rs|
  {
    Reaches(st, rs[k].tx, xs[k]) && Consumed(xs[k].outcome) && LastWasOk(st, rs, xs, k)
  }

  /** How many buffers the first n attempts have built. */
  ghost function BuffersBuilt(st: Settings, rs: seq<Run>, xs: seq<Attempt>, n: nat): nat
    requires n <= |xs| < |rs|
  {
    if n == 0 then 0
    else BuffersBuilt(st, rs, xs, n - 1) + if NewBuffer(st, rs[n - 1].tx, xs[n - 1]) then 1 else 0
  }

  /** The buffer that attempt k works with. */
  ghost function BufferOf(st: Settings, rs: seq<Run>, xs: seq<Attempt>, k: nat): int
    requires k < |xs| < |rs|
  {
    BuffersBuilt(st, rs, xs, k + 1) - 1
  }

  /** How often buffer m was sent, and wasted, among the first n attempts. */
  ghost function SentFrom(st: Settings, rs: seq<Run>, xs: seq<Attempt>, m: nat, n: nat): nat
    requires n <= |xs| < |rs|
  {
    if n == 0 then 0
    else SentFrom(st, rs, xs, m, n - 1)
         + if Sends(st, rs, xs, n - 1) && BufferOf(st, rs, xs, n - 1) == m then 1 else 0
  }

  ghost function WastedOn(st: Settings, rs: seq<Run>, xs: seq<Attempt>, m: nat, n: nat): nat
    requires n <= |xs| < |rs|
  {
    if n == 0 then 0
    else WastedOn(st, rs, xs, m, n - 1)
         + if Wastes(st, rs, xs, n - 1) && BufferOf(st, rs, xs, n - 1) == m then 1 else 0
  }

  // ---- One attempt ----

  /** The buffers and the flag after an attempt that has a packet. */
  function UsedBy(bufs: seq<Use>, o: Outcome, lastOk: bool): seq<Use>
    requires bufs != []
  {
    var m := |bufs| - 1;
    if o.Ok? then bufs[m := bufs[m].(uses := bufs[m].uses + 1)]
    else if Consumed(o) && lastOk then bufs[m := bufs[m].(wasted := bufs[m].wasted + 1)]
    else bufs
  }

  function OkAfter(o: Outcome, lastOk: bool): bool { if Consumed(o) then lastOk else o.Ok? }

  lemma AttemptedOn(st: Settings, b: Run, a: Attempt)
    requires Recorded(b) && b.tx.skb.Some?
    ensures Attempted(st, b, a).buffers == UsedBy(b.buffers, a.outcome, b.tx.lastOk)
    ensures Attempted(st, b, a).tx.lastOk == OkAfter(a.outcome, b.tx.lastOk)
  {
  }

  /** The buffers after one attempt. */
  function BuffersAfter(st: Settings, r: Run, a: Attempt): seq<Use> {
    var bufs := if NewBuffer(st, r.tx, a) then r.buffers + [Use(|r.sent|, 0, 0)] else r.buffers;
    if !Reaches(st, r.tx, a) || bufs == [] then bufs else UsedBy(bufs, a.outcome, r.tx.lastOk)
  }

  lemma BuiltOn(st: Settings, r: Run, a: BuildInput)
    requires Recorded(r)
    ensures var b := Built(st, r, a);
            && b.tx.lastOk == r.tx.lastOk && (b.tx.skb.Some? <==> NeedsBuild(st, r.tx) ==> a.gotSkb)
            && b.buffers == (if NeedsBuild(st, r.tx) && a.gotSkb then r.buffers + [Use(|r.sent|, 0, 0)] else r.buffers)
  {
  }

  lemma TurnWithoutPacket(st: Settings, r: Run, a: Attempt)
    requires Recorded(r) && !Reaches(st, r.tx, a)
    ensures Turn(st, r, a).buffers == r.buffers && Turn(st, r, a).tx.lastOk == r.tx.lastOk
  {
    BuiltOn(st, r, a.build);
  }

  lemma TurnWithPacket(st: Settings, r: Run, a: Attempt, b: Run)
    requires Recorded(r) && Reaches(st, r.tx, a) && b == Built(st, r, a.build)
    ensures b.tx.skb.Some? && Turn(st, r, a) == Attempted(st, b, a)
  {
    BuiltOn(st, r, a.build);
  }

  lemma TurnOn(st: Settings, r: Run, a: Attempt)
    requires Recorded(r)
    ensures Turn(st, r, a).buffers == BuffersAfter(st, r, a)
    ensures Turn(st, r, a).tx.lastOk == if Reaches(st, r.tx, a) then OkAfter(a.outcome, r.tx.lastOk) else r.tx.lastOk
    ensures Reaches(st, r.tx, a) && !NewBuffer(st, r.tx, a) ==> r.buffers != []
  {
    if Reaches(st, r.tx, a) {
      var b := Built(st, r, a.build);
      TurnWithPacket(st, r, a, b);
      BuiltOn(st, r, a.build);
      AttemptedOn(st, b, a);
    } else {
      TurnWithoutPacket(st, r, a);
    }
  }

  lemma StepOn(st: Settings, rs: seq<Run>, xs: seq<Attempt>, k: nat)
    requires IsRun(st, rs, xs) && k < |xs|
    ensures rs[k + 1].buffers == BuffersAfter(st, rs[k], xs[k])
    ensures rs[k + 1].tx.lastOk ==
            if Reaches(st, rs[k].tx, xs[k]) then OkAfter(xs[k].outcome, rs[k].tx.lastOk) else rs[k].tx.lastOk
    ensures Reaches(st, rs[k].tx, xs[k]) && !NewBuffer(st, rs[k].tx, xs[k]) ==> rs[k].buffers != []
  {
    TurnAt(st, rs, xs, k);
    TurnOn(st, rs[k], xs[k]);
  }

  lemma {:induction false} LastWasOkIs(st: Settings, rs: seq<Run>, xs: seq<Attempt>, k: nat)
    requires IsRun(st, rs, xs) && k < |rs|
    ensures LastWasOk(st, rs, xs, k) <==> rs[k].tx.lastOk
  {
    if k > 0 {
      LastWasOkIs(st, rs, xs, k - 1);
      StepOn(st, rs, xs, k - 1);
    }
  }

  /** A packet consumed after a refusal uses up nothing: neither a clone nor a number. */
  lemma ConsumedAfterRefusal(st: Settings, r: Run, a: Attempt)
    requires Recorded(r) && Reaches(st, r.tx, a) && Consumed(a.outcome) && !r.tx.lastOk && r.tx.skb.Some?
    ensures var n := Turn(st, r, a);
            && n.buffers == r.buffers && n.sent == r.sent
            && n.tx.cloneCount == r.tx.cloneCount && n.tx.seqNum == r.tx.seqNum
  {
  }

  // ---- Runs ----

  lemma {:induction false} NothingBeforeBuilt(st: Settings, rs: seq<Run>, xs: seq<Attempt>, m: nat, n: nat)
    requires n <= |xs| < |rs| && BuffersBuilt(st, rs, xs, n) <= m
    ensures SentFrom(st, rs, xs, m, n) == 0 && WastedOn(st, rs, xs, m, n) == 0
  {
    if n > 0 {
      NothingBeforeBuilt(st, rs, xs, m, n - 1);
    }
  }

  ghost predicate RecordMatches(st: Settings, rs: seq<Run>, xs: seq<Attempt>, n: nat)
    requires n <= |xs| < |rs|
  {
    && |rs[n].buffers| == BuffersBuilt(st, rs, xs, n)
    && forall m :: 0 <= m < |rs[n].buffers| ==>
         && rs[n].buffers[m].uses == SentFrom(st, rs, xs, m, n)
         && rs[n].buffers[m].wasted == WastedOn(st, rs, xs, m, n)
  }

  lemma MatchesAfter(st: Settings, rs: seq<Run>, xs: seq<Attempt>, n: nat)
    requires n < |xs| < |rs| && RecordMatches(st, rs, xs, n)
    requires rs[n + 1].buffers == BuffersAfter(st, rs[n], xs[n])
    requires LastWasOk(st, rs, xs, n) <==> rs[n].tx.lastOk
    requires Reaches(st, rs[n].tx, xs[n]) && !NewBuffer(st, rs[n].tx, xs[n]) ==> rs[n].buffers != []
    ensures RecordMatches(st, rs, xs, n + 1)
  {
    var now := rs[n + 1].buffers;
    forall m | 0 <= m < |now|
      ensures now[m].uses == SentFrom(st, rs, xs, m, n + 1) && now[m].wasted == WastedOn(st, rs, xs, m, n + 1)
    {
      if m >= BuffersBuilt(st, rs, xs, n) {
        NothingBeforeBuilt(st, rs, xs, m, n);
      }
    }
  }

  /** What the record says of each buffer is what the outcomes of the attempts say. */
  lemma {:induction false} RecordIsOutcomes(st: Settings, rs: seq<Run>, xs: seq<Attempt>, n: nat)
    requires IsRun(st, rs, xs) && n < |rs|
    ensures RecordMatches(st, rs, xs, n)
  {
    if n > 0 {
      RecordIsOutcomes(st, rs, xs, n - 1);
      LastWasOkIs(st, rs, xs, n - 1);
      OneMatches(st, rs, xs, n - 1);
    }
  }

  lemma OneMatches(st: Settings, rs: seq<Run>, xs: seq<Attempt>, n: nat)
    requires IsRun(st, rs, xs) && n < |xs| && RecordMatches(st, rs, xs, n)
    requires LastWasOk(st, rs, xs, n) <==> rs[n].tx.lastOk
    ensures RecordMatches(st, rs, xs, n + 1)
  {
    StepOn(st, rs, xs, n);
    MatchesAfter(st, rs, xs, n);
  }

  /** Every buffer but the last was sent or wasted max(clone_skb, 1) times together. */
  lemma ClonesUsedUp(st: Settings, rs: seq<Run>, xs: seq<Attempt>, m: nat, n: nat)
    requires IsRun(st, rs, xs) && n < |rs| && m + 1 < BuffersBuilt(st, rs, xs, n)
    ensures SentFrom(st, rs, xs, m, n) + WastedOn(st, rs, xs, m, n) == Uses(st)
  {
    RecordIsOutcomes(st, rs, xs, n);
    SequenceLaw(st, rs, xs, n);
  }

  /** Every buffer before the last was wasted never, or every time. */
  ghost predicate WastedWhole(st: Settings, rs: seq<Run>, xs: seq<Attempt>, n: nat)
    requires n <= |xs| < |rs|
  {
    forall m: nat :: m + 1 < BuffersBuilt(st, rs, xs, n) ==>
      WastedOn(st, rs, xs, m, n) == 0 || WastedOn(st, rs, xs, m, n) == Uses(st)
  }

  lemma WastedWholeIs(st: Settings, rs: seq<Run>, xs: seq<Attempt>, n: nat)
    requires n <= |xs| < |rs| && RecordMatches(st, rs, xs, n)
    ensures WastedWhole(st, rs, xs, n) <==> WholeBuffers(st, rs[n])
  {
    if WastedWhole(st, rs, xs, n) {
      forall m | 0 <= m < |rs[n].buffers| - 1
        ensures rs[n].buffers[m].wasted == 0 || rs[n].buffers[m].wasted == Uses(st)
      {
        assert rs[n].buffers[m].wasted == WastedOn(st, rs, xs, m, n);
      }
    }
    if WholeBuffers(st, rs[n]) {
      forall m: nat | m + 1 < BuffersBuilt(st, rs, xs, n)
        ensures WastedOn(st, rs, xs, m, n) == 0 || WastedOn(st, rs, xs, m, n) == Uses(st)
      {
        assert rs[n].buffers[m].wasted == WastedOn(st, rs, xs, m, n);
      }
    }
  }

  /** With c clones the k-th packet sent, from 0, carries 1 + c * (k / c) throughout exactly
      when the outcomes have wasted each earlier buffer either not at all or whole, as soon as
      the last buffer has been sent. */
  lemma InStepIffWastedWhole(st: Settings, rs: seq<Run>, xs: seq<Attempt>, n: nat)
    requires IsRun(st, rs, xs) && n < |rs|
    ensures WastedWhole(st, rs, xs, n) ==> AllInStep(st, rs[n])
    ensures var b := BuffersBuilt(st, rs, xs, n);
            b > 0 && SentFrom(st, rs, xs, b - 1, n) > 0 && AllInStep(st, rs[n]) ==> WastedWhole(st, rs, xs, n)
  {
    RecordIsOutcomes(st, rs, xs, n);
    WastedWholeIs(st, rs, xs, n);
    ClonesInStep(st, rs, xs, n);
  }
}
