/** What every run of the two-party system guarantees, whatever the interleaving, the
    refused posts and the failed completions. */
module RdmaSafety {
  import opened RdmaRing
  import opened RdmaClient
  import opened RdmaSystem

  /** What the two programs are started with. */
  datatype Setup = Setup(mode: Mode, budget: int, clientMr: seq<Mr>, serverMode: Mode, serverMr: seq<Mr>)

  function Begin(p: Setup): Net { Start(p.mode, p.budget, p.clientMr, p.serverMode, p.serverMr) }

  /** An active client and a passive server from their first state on. */
  ghost predicate Runs(p: Setup, ns: seq<Net>, steps: seq<Step>) {
    && p.mode.Active() && !p.serverMode.Active()
    && IsRun(true, ns, steps) && ns[0] == Begin(p)
  }

  lemma RunsInv(p: Setup, ns: seq<Net>, steps: seq<Step>, k: nat)
    requires Runs(p, ns, steps) && k < |ns|
    ensures Inv(ns[k])
    ensures ns[k].c.mode == p.mode && ns[k].c.budget == p.budget && ns[k].c.localMr == p.clientMr
    ensures ns[k].s.mode == p.serverMode && ns[k].s.localMr == p.serverMr
  {
    InvStart(p.mode, p.budget, p.clientMr, p.serverMode, p.serverMr);
    InvAlways(ns, steps, k);
    ConfigAlways(true, ns, steps, k);
  }

  /** The client posts DONE at most once, and only when its finite budget is used up and
      every request it ever posted has completed with success; either side disconnects only
      after that; no branch for a wrong state and no die() is ever reached. */
  lemma DoneOnlyWhenQuiet(p: Setup, ns: seq<Net>, steps: seq<Step>, k: nat)
    requires Runs(p, ns, steps) && k < |ns|
    ensures var n := ns[k];
            && n.dones <= 1
            && (n.dones == 1 ==> n.ops == [] && n.failed == [] && n.completed == n.posted)
            && (n.dones == 1 ==> p.budget != 0 && n.c.loop >= p.budget)
            && (n.s.state == Disconnecting || n.c.state == Disconnecting ==> n.dones == 1)
            && n.wrong == 0 && !n.died
  {
    RunsInv(p, ns, steps, k);
  }

  lemma NoPostAfterDone(n: Net, step: Step)
    requires MrInv(n) && DoneInv(n) && n.dones == 1
    ensures Next(true, n, step).posted == n.posted && Next(true, n, step).dones == 1
  {
  }

  /** After DONE has been posted nothing more is: no request and no second DONE. */
  lemma {:induction false} NothingAfterDone(p: Setup, ns: seq<Net>, steps: seq<Step>, j: nat, k: nat)
    requires Runs(p, ns, steps) && j <= k < |ns| && ns[j].dones == 1
    ensures ns[k].posted == ns[j].posted && ns[k].dones == 1
    decreases k
  {
    if j < k {
      NothingAfterDone(p, ns, steps, j, k - 1);
      RunsInv(p, ns, steps, k - 1);
      NoPostAfterDone(ns[k - 1], steps[k - 1]);
      NextAt(true, ns, steps, k - 1);
    }
  }

  // ---- What the regions decide ----

  /** What reaping the regions has done: nothing when there are too many of them, the end of the
      client when the rings differ, and the start of the work otherwise. */
  ghost predicate RegionsInv(n: Net) {
    var ours, theirs := |n.c.localMr|, |n.s.localMr|;
    && (n.exited <==> n.reaped == 1 && ours != theirs <= MAX_RING_SIZE)
    && (Started(n.c) <==> n.reaped == 1 && ours == theirs <= MAX_RING_SIZE)
  }

  lemma RegionsAfterRecv(n: Net, accept: nat)
    requires MrInv(n) && RegionsInv(n) && n.c.Shaped() && Enabled(true, n, ClientRecv(accept))
    ensures RegionsInv(Next(true, n, ClientRecv(accept)))
  {
  }

  lemma RegionsAfterOp(n: Net, k: nat, accept: nat)
    requires Inv(n) && RegionsInv(n) && Enabled(true, n, ClientOp(k, accept))
    ensures RegionsInv(Next(true, n, ClientOp(k, accept)))
  {
    assert OwnBuffers(n, n.ops[k]);
    OpStep(n, k, accept);
    OpCompletedFacts(n.c, n.ops[k].slot, accept);
  }

  lemma RegionsAfterOther(n: Net, step: Step)
    requires MrInv(n) && RegionsInv(n) && Enabled(true, n, step) && !step.ClientRecv? && !step.ClientOp?
    ensures RegionsInv(Next(true, n, step))
  {
  }

  lemma RegionsNext(n: Net, step: Step)
    requires Inv(n) && RegionsInv(n)
    ensures RegionsInv(Next(true, n, step))
  {
    if Enabled(true, n, step) {
      match step
      case ClientRecv(accept) => RegionsAfterRecv(n, accept);
      case ClientOp(k, accept) => RegionsAfterOp(n, k, accept);
      case _ => RegionsAfterOther(n, step);
    }
  }

  lemma {:induction false} RegionsAlways(p: Setup, ns: seq<Net>, steps: seq<Step>, k: nat)
    requires Runs(p, ns, steps) && k < |ns|
    ensures RegionsInv(ns[k])
  {
    if k > 0 {
      RegionsAlways(p, ns, steps, k - 1);
      RunsInv(p, ns, steps, k - 1);
      RegionsNext(ns[k - 1], steps[k - 1]);
      NextAt(true, ns, steps, k - 1);
    }
  }

  /** Exactly these three things can follow from reaping the peer's regions. With rings of one
      size within the limit the client starts; with rings of different size within the limit
      the process ends; and with more regions than the limit the client stays connected, alive
      and idle. Without them none of this happens, and only a client that has started posts. */
  lemma RegionsDecide(p: Setup, ns: seq<Net>, steps: seq<Step>, k: nat)
    requires Runs(p, ns, steps) && k < |ns|
    ensures var n := ns[k];
            && n.reaped <= 1
            && (Started(n.c) <==> n.reaped == 1 && |p.clientMr| == |p.serverMr| <= MAX_RING_SIZE)
            && (n.exited <==> n.reaped == 1 && |p.clientMr| != |p.serverMr| <= MAX_RING_SIZE)
            && (n.reaped == 1 && |p.serverMr| > MAX_RING_SIZE ==> n.c.state == Connected && Alive(n))
            && (!Started(n.c) ==> n.posted == 0 && n.dones == 0)
  {
    RunsInv(p, ns, steps, k);
    RegionsAlways(p, ns, steps, k);
  }

  /** Requests are posted only between rings of the same size, at most MAX_RING_SIZE. */
  lemma PostsOnlyToMatchingRing(p: Setup, ns: seq<Net>, steps: seq<Step>, k: nat)
    requires Runs(p, ns, steps) && k < |ns|
    ensures ns[k].exited ==> ns[k].posted == 0
    ensures ns[k].posted > 0 ==> |p.clientMr| == |p.serverMr| <= MAX_RING_SIZE
  {
    RunsInv(p, ns, steps, k);
  }

  /** The redundant counter is the number of free slots, and a slot is taken exactly when
      one request for it, and no more than one, is unreaped or has failed. */
  lemma RingAccounting(p: Setup, ns: seq<Net>, steps: seq<Step>, k: nat, i: nat)
    requires Runs(p, ns, steps) && k < |ns| && i < |p.clientMr|
    ensures var n := ns[k];
            && |n.c.free| == |p.clientMr|
            && n.c.freeCount == FreeSlots(n.c.free) == |p.clientMr| - |n.ops| - |n.failed|
            && (!n.c.free[i] <==> Holders(n.ops, i) + Holders(n.failed, i) == 1)
            && (n.c.free[i] <==> Holders(n.ops, i) + Holders(n.failed, i) == 0)
  {
    RunsInv(p, ns, steps, k);
  }

  // ---- How much work a budget allows ----

  /** What the loop counter and the budget say about the requests posted and completed. */
  ghost predicate BudgetInv(n: Net) {
    && (Started(n.c) ==>
          && 1 <= n.c.loop <= n.c.budget && n.completed >= n.c.loop - 1
          && (n.c.loop < n.c.budget ==> n.completed == n.c.loop - 1)
          && n.posted <= n.c.RingSize() + n.c.loop - 1)
    && (!Started(n.c) ==> n.c.loop == 0)
    && (n.dones == 1 ==> n.completed >= n.c.budget)
  }

  lemma BudgetAfterRecv(n: Net, accept: nat)
    requires Inv(n) && BudgetInv(n) && n.c.budget >= 1 && Enabled(true, n, ClientRecv(accept))
    ensures BudgetInv(Next(true, n, ClientRecv(accept)))
  {
    PostFromTakesLowestFree(n.c.free, 0, accept);
    PostAllCount(n.c.free, accept);
  }

  lemma BudgetAfterOp(n: Net, k: nat, accept: nat)
    requires Inv(n) && BudgetInv(n) && n.c.budget >= 1 && Enabled(true, n, ClientOp(k, accept))
    ensures BudgetInv(Next(true, n, ClientOp(k, accept)))
  {
    assert OwnBuffers(n, n.ops[k]);
    OpStep(n, k, accept);
    OpCompletedFacts(n.c, n.ops[k].slot, accept);
    OpCompletedKeepsRing(n.c, n.ops, n.failed, k, accept);
  }

  lemma BudgetAfterOther(n: Net, step: Step)
    requires MrInv(n) && DoneInv(n) && BudgetInv(n) && n.c.budget >= 1
    requires Enabled(true, n, step) && !step.ClientRecv? && !step.ClientOp?
    ensures BudgetInv(Next(true, n, step))
  {
    if !step.ClientOpFails? {
      QuietStepKeepsRing(n, step);
    }
  }

  lemma BudgetNext(n: Net, step: Step)
    requires Inv(n) && BudgetInv(n) && n.c.budget >= 1
    ensures BudgetInv(Next(true, n, step))
  {
    if Enabled(true, n, step) {
      match step
      case ClientRecv(accept) => BudgetAfterRecv(n, accept);
      case ClientOp(k, accept) => BudgetAfterOp(n, k, accept);
      case _ => BudgetAfterOther(n, step);
    }
  }

  lemma BudgetAt(p: Setup, ns: seq<Net>, steps: seq<Step>, k: nat)
    requires Runs(p, ns, steps) && k < |steps| && p.budget >= 1 && BudgetInv(ns[k])
    ensures BudgetInv(ns[k + 1])
  {
    RunsInv(p, ns, steps, k);
    BudgetNext(ns[k], steps[k]);
    NextAt(true, ns, steps, k);
  }

  lemma {:induction false} BudgetAlways(p: Setup, ns: seq<Net>, steps: seq<Step>, k: nat)
    requires Runs(p, ns, steps) && k < |ns| && p.budget >= 1
    ensures BudgetInv(ns[k])
  {
    if k > 0 {
      BudgetAlways(p, ns, steps, k - 1);
      BudgetAt(p, ns, steps, k - 1);
    }
  }

  /** Whatever is refused or fails: a client with R slots and budget L never posts more than
      R + L - 1 requests, and sends DONE only after at least L have completed. */
  lemma WorkIsBounded(p: Setup, ns: seq<Net>, steps: seq<Step>, k: nat)
    requires Runs(p, ns, steps) && k < |ns| && p.budget >= 1
    ensures ns[k].posted <= |p.clientMr| + p.budget - 1
    ensures ns[k].dones == 1 ==> p.budget <= ns[k].completed == ns[k].posted
  {
    RunsInv(p, ns, steps, k);
    BudgetAlways(p, ns, steps, k);
  }

  ghost predicate Distinct(mrs: seq<Mr>) {
    forall a, b :: 0 <= a < b < |mrs| ==> mrs[a] != mrs[b]
  }

  /** An outstanding request for slot i names local region i and the region the peer
      registered as its i-th, so two outstanding requests share no buffer on either side. */
  lemma BuffersNeverShared(p: Setup, ns: seq<Net>, steps: seq<Step>, k: nat, a: nat, b: nat)
    requires Runs(p, ns, steps) && k < |ns| && Distinct(p.clientMr) && Distinct(p.serverMr)
    requires a < b < |ns[k].ops|
    ensures var ops := ns[k].ops;
            && ops[a].slot < |p.clientMr| && ops[a].slot < |p.serverMr|
            && ops[a] == Op(p.mode.Kind(), ops[a].slot, p.clientMr[ops[a].slot], p.serverMr[ops[a].slot])
            && ops[a].slot != ops[b].slot
            && ops[a].local != ops[b].local && ops[a].remote != ops[b].remote
  {
    RunsInv(p, ns, steps, k);
    var n := ns[k];
    assert OwnBuffers(n, n.ops[a]) && OwnBuffers(n, n.ops[b]);
    if n.ops[a].slot == n.ops[b].slot {
      HoldersOfTwo(n.ops, a, b);
      assert false;
    }
  }

  // ---- Runs in any order of establishment ----

  /** The client reaps the regions before its handler for ESTABLISHED has run. */
  predicate Early(n: Net, step: Step) {
    step.ClientRecv? && Enabled(false, n, step) && n.c.state == Init
  }

  ghost predicate EarlyAt(ns: seq<Net>, steps: seq<Step>, k: nat)
    requires k < |steps| < |ns|
  {
    Early(ns[k], steps[k])
  }

  /** None of the first n steps reaps the regions too early. */
  ghost predicate InTime(ns: seq<Net>, steps: seq<Step>, n: nat)
    requires n <= |steps| < |ns|
  {
    forall k :: 0 <= k < n ==> !EarlyAt(ns, steps, k)
  }

  /** The regions are gone: no receive is posted for another message and none is on its way. */
  ghost predicate Lost(n: Net) {
    && n.c.mode.Active() && !n.s.mode.Active()
    && (n.c.state == Init || n.c.state == Connected) && (n.s.state == Connected || n.s.state == MrSent)
    && n.cRecvs + n.cRecvCq + n.sSends == 0 && n.cSends + n.cAcked + n.sRecvCq == 0
    && (n.sAcked > 0 ==> n.sAcked == 1 && n.s.state == Connected)
    && n.ops == [] && n.failed == [] && n.posted == 0 && n.completed == 0 && n.dones == 0
    && n.reaped == 1 && n.wrong == 1 && !n.exited && !n.died
  }

  lemma EarlyLoses(n: Net, step: Step)
    requires Inv(n) && Early(n, step)
    ensures Lost(Next(false, n, step))
  {
  }

  lemma LostStays(n: Net, step: Step)
    requires Lost(n)
    ensures Lost(Next(false, n, step))
  {
  }

  lemma InTimeIsOrdered(n: Net, step: Step)
    requires !Early(n, step)
    ensures Next(false, n, step) == Next(true, n, step)
  {
  }

  /** What every state is like, in whatever order the two sides are established. */
  ghost predicate InvOrLost(n: Net) { Inv(n) || Lost(n) }

  lemma InvOrLostNext(n: Net, step: Step)
    ensures Inv(n) ==> if Early(n, step) then Lost(Next(false, n, step)) else Inv(Next(false, n, step))
    ensures Lost(n) ==> Lost(Next(false, n, step))
  {
    if Lost(n) {
      LostStays(n, step);
    }
    if Inv(n) {
      if Early(n, step) {
        EarlyLoses(n, step);
      } else {
        InTimeIsOrdered(n, step);
        InvNext(n, step);
      }
    }
  }

  lemma InvOrLostAt(ns: seq<Net>, steps: seq<Step>, k: nat)
    requires IsRun(false, ns, steps) && k < |steps|
    ensures Inv(ns[k]) ==> if EarlyAt(ns, steps, k) then Lost(ns[k + 1]) else Inv(ns[k + 1])
    ensures Lost(ns[k]) ==> Lost(ns[k + 1])
  {
    InvOrLostNext(ns[k], steps[k]);
    NextAt(false, ns, steps, k);
  }

  /** Reaping the regions too early loses them for good; without it the invariant holds. */
  lemma {:induction false} InvOrLostAlways(ns: seq<Net>, steps: seq<Step>, n: nat)
    requires IsRun(false, ns, steps) && Inv(ns[0]) && n < |ns|
    ensures if InTime(ns, steps, n) then Inv(ns[n]) else Lost(ns[n])
  {
    if n > 0 {
      InvOrLostAlways(ns, steps, n - 1);
      InvOrLostAt(ns, steps, n - 1);
    }
  }

  /** The client needs its handler for ESTABLISHED to run before it reaps the regions, and
      nothing else about the order of establishment: exactly then the run never reaches a
      branch for a wrong state and keeps the invariant. Otherwise the regions are lost, and
      the client never posts anything. */
  lemma LostIffReapedEarly(p: Setup, ns: seq<Net>, steps: seq<Step>, n: nat)
    requires p.mode.Active() && !p.serverMode.Active() && IsRun(false, ns, steps) && ns[0] == Begin(p) && n < |ns|
    ensures ns[n].wrong == 0 <==> InTime(ns, steps, n)
    ensures Inv(ns[n]) <==> InTime(ns, steps, n)
    ensures Lost(ns[n]) <==> !InTime(ns, steps, n)
  {
    InvStart(p.mode, p.budget, p.clientMr, p.serverMode, p.serverMr);
    InvOrLostAlways(ns, steps, n);
  }

  /** A run in which the regions are reaped in time is one that all the other laws are about. */
  lemma InTimeRuns(p: Setup, ns: seq<Net>, steps: seq<Step>)
    requires p.mode.Active() && !p.serverMode.Active() && IsRun(false, ns, steps) && ns[0] == Begin(p)
    requires InTime(ns, steps, |steps|)
    ensures Runs(p, ns, steps)
  {
    forall k | 0 <= k < |steps|
      ensures StepAt(true, ns, steps, k)
    {
      assert !EarlyAt(ns, steps, k);
      NextAt(false, ns, steps, k);
      InTimeIsOrdered(ns[k], steps[k]);
    }
  }

  /** The regions can be lost, whatever the setup: the server is established first and its
      message overtakes the client's own event. */
  lemma EarlyServerIsWrongState(p: Setup, ns: seq<Net>)
    requires p.mode.Active() && !p.serverMode.Active()
    requires IsRun(false, ns, [ServerEstablished, ToClient, ClientRecv(0), ClientEstablished])
    requires ns[0] == Begin(p)
    ensures Lost(ns[4]) && ns[4].c.state == Connected
  {
    var steps := [ServerEstablished, ToClient, ClientRecv(0), ClientEstablished];
    NextAt(false, ns, steps, 0);
    NextAt(false, ns, steps, 1);
    NextAt(false, ns, steps, 2);
    NextAt(false, ns, steps, 3);
  }

  /** The same order does no harm when the client's own event is handled before the message. */
  lemma EarlyServerMayBeInTime(p: Setup, ns: seq<Net>, accept: nat)
    requires p.mode.Active() && !p.serverMode.Active() && |p.clientMr| == |p.serverMr| <= MAX_RING_SIZE
    requires IsRun(false, ns, [ServerEstablished, ToClient, ClientEstablished, ClientRecv(accept)])
    requires ns[0] == Begin(p)
    ensures ns[4].wrong == 0 && Started(ns[4].c)
  {
    var steps := [ServerEstablished, ToClient, ClientEstablished, ClientRecv(accept)];
    NextAt(false, ns, steps, 0);
    NextAt(false, ns, steps, 1);
    NextAt(false, ns, steps, 2);
    NextAt(false, ns, steps, 3);
  }
}
