/** Exact work: when a post succeeds exactly while fewer than `cap` requests are outstanding
    and nothing fails, every run of a pair with equal rings and a finite budget ends, with
    both sides disconnected, after one fixed number of completed requests. */
module RdmaProgress {
  import opened Basics
  import opened RdmaRing
  import opened RdmaClient
  import opened RdmaSystem
  import opened RdmaSafety

  /** The step is enabled, does not fail, and the device accepts posts up to cap. */
  predicate Good(n: Net, cap: nat, step: Step) {
    && Enabled(true, n, step)
    && match step
       case ClientRecv(accept) => accept == cap
       case ClientOp(_, accept) => accept + |n.ops| == cap + 1
       case ClientOpFails(_) => false
       case ClientRecvFails => false
       case ClientSendFails(_) => false
       case ServerRecvFails => false
       case ServerSendFails(_) => false
       case _ => true
  }

  ghost predicate GoodAt(ns: seq<Net>, cap: nat, steps: seq<Step>, k: nat)
    requires k < |steps| < |ns|
  {
    Good(ns[k], cap, steps[k])
  }

  ghost predicate GoodRun(ns: seq<Net>, cap: nat, steps: seq<Step>) {
    IsRun(true, ns, steps) && forall k :: 0 <= k < |steps| ==> GoodAt(ns, cap, steps, k)
  }

  /** A pair that can run: rings of one size, at least one slot, and a finite budget. */
  predicate Paired(n: Net) {
    && 1 <= n.c.RingSize() <= MAX_RING_SIZE && |n.c.localMr| == |n.s.localMr|
    && n.c.budget >= 1
  }

  /** The requests kept outstanding while budget remains. */
  function Window(n: Net, cap: nat): int { Min(n.c.RingSize(), cap) }

  /** The total number of requests of a complete run. */
  function Work(n: Net, cap: nat): int { Window(n, cap) + n.c.budget - 1 }

  /** No message is lost: each is in exactly one place on its way. */
  ghost predicate NothingLost(n: Net) {
    && n.failed == [] && !n.exited
    && (if n.s.state == Init then 1 else 0) + n.sSends + n.cRecvCq + (if Started(n.c) then 1 else 0) == 1
    && n.cRecvs + n.cRecvCq + (if Started(n.c) then 1 else 0) == 1
    && (n.s.state == Connected <==> n.sSends + n.sAcked == 1)
    && (n.s.state == MrSent <==> n.sRecvs + n.sRecvCq == 1)
    && n.cSends + n.sRecvCq + (if n.s.state == Disconnecting then 1 else 0) == n.dones
    && n.cSends + n.cAcked + (if n.c.state == Disconnecting then 1 else 0) == n.dones
  }

  /** The closed form of the work done after `completed` requests, in any order. */
  ghost predicate WorkDone(n: Net, cap: nat) {
    && n.completed <= Work(n, cap)
    && (!Started(n.c) ==> n.completed == 0 && n.c.loop == 0 && n.ops == [] && n.dones == 0)
    && (Started(n.c) ==>
          && n.c.loop == Min(n.c.budget, 1 + n.completed)
          && |n.ops| == Window(n, cap) - (if n.completed < n.c.budget then 0 else n.completed - (n.c.budget - 1))
          && (n.dones == 1 <==> n.completed == Work(n, cap)))
  }

  ghost predicate ProgressInv(n: Net, cap: nat) {
    Inv(n) && cap >= 1 && Paired(n) && NothingLost(n) && WorkDone(n, cap)
  }

  lemma ProgressStart(mode: Mode, budget: int, clientMr: seq<Mr>, serverMode: Mode, serverMr: seq<Mr>, cap: nat)
    requires mode.Active() && !serverMode.Active() && budget >= 1 && cap >= 1
    requires 1 <= |clientMr| == |serverMr| <= MAX_RING_SIZE
    ensures ProgressInv(Start(mode, budget, clientMr, serverMode, serverMr), cap)
  {
    InvStart(mode, budget, clientMr, serverMode, serverMr);
  }

  /** On receiving the regions the client fills the window. */
  lemma ProgressRecv(n: Net, cap: nat)
    requires ProgressInv(n, cap) && Good(n, cap, ClientRecv(cap))
    ensures var m := Next(true, n, ClientRecv(cap));
            NothingLost(m) && WorkDone(m, cap) && Paired(m)
  {
    PostAllCount(n.c.free, cap);
    PostFromTakesLowestFree(n.c.free, 0, cap);
    ConfigKept(true, n, ClientRecv(cap));
  }

  /** How many requests a completion posts: one while budget remains, and then none. */
  lemma OpReposts(n: Net, cap: nat, k: nat, accept: nat)
    requires ProgressInv(n, cap) && Good(n, cap, ClientOp(k, accept))
    ensures var e := OpCompleted(n.c, n.ops[k].slot, accept);
            && (n.c.loop >= n.c.budget ==> e.posted == [] && e.conn.loop == n.c.loop)
            && (n.c.loop < n.c.budget ==>
                  e.conn.loop == n.c.loop + 1 && |e.posted| == Min(n.c.RingSize() - |n.ops| + 1, cap + 1 - |n.ops|))
            && (e.sends == 1 <==> n.c.loop >= n.c.budget && |n.ops| == 1) && e.sends <= 1
            && e.conn.RingSize() == n.c.RingSize()
  {
    OpCompletedKeepsRing(n.c, n.ops, n.failed, k, accept);
    OpCompletedFacts(n.c, n.ops[k].slot, accept);
    FreeKeepsRing(n.c, n.ops, n.failed, k);
    PostAllCount(n.c.free[n.ops[k].slot := true], accept);
  }

  lemma OpLosesNothing(n: Net, cap: nat, k: nat, accept: nat)
    requires ProgressInv(n, cap) && Good(n, cap, ClientOp(k, accept))
    ensures var m := Next(true, n, ClientOp(k, accept)); NothingLost(m) && Paired(m)
  {
    assert OwnBuffers(n, n.ops[k]);
    OpStep(n, k, accept);
    OpCompletedFacts(n.c, n.ops[k].slot, accept);
    OpReposts(n, cap, k, accept);
  }

  /** A completion reposts one request while budget remains, and then none. */
  lemma ProgressOp(n: Net, cap: nat, k: nat, accept: nat)
    requires ProgressInv(n, cap) && Good(n, cap, ClientOp(k, accept))
    ensures var m := Next(true, n, ClientOp(k, accept));
            && NothingLost(m) && WorkDone(m, cap) && Paired(m)
            && m.completed == n.completed + 1
            && (n.c.budget - m.c.loop < n.c.budget - n.c.loop
                || (m.c.loop == n.c.loop && |m.ops| < |n.ops|))
            && (m.dones == 0 ==> |m.ops| >= 1)
  {
    assert OwnBuffers(n, n.ops[k]);
    OpLosesNothing(n, cap, k, accept);
    OpReposts(n, cap, k, accept);
    OpStep(n, k, accept);
    OpCompletedFacts(n.c, n.ops[k].slot, accept);
  }

  lemma ProgressQuiet(n: Net, cap: nat, step: Step)
    requires ProgressInv(n, cap) && Good(n, cap, step) && !TouchesRing(step)
    ensures var m := Next(true, n, step);
            NothingLost(m) && WorkDone(m, cap) && Paired(m)
  {
    QuietStepKeepsRing(n, step);
    ConfigKept(true, n, step);
  }

  lemma ProgressNext(n: Net, cap: nat, step: Step)
    requires ProgressInv(n, cap) && Good(n, cap, step)
    ensures ProgressInv(Next(true, n, step), cap)
  {
    InvNext(n, step);
    match step
    case ClientRecv(accept) => ProgressRecv(n, cap);
    case ClientOp(k, accept) => ProgressOp(n, cap, k, accept);
    case _ => ProgressQuiet(n, cap, step);
  }

  /** How many steps of its one possible length a run has taken. */
  function Ticks(n: Net): int {
    (if n.c.state == Init then 0 else 1) + (if n.s.state == Init then 0 else 1)
    + (1 - n.cRecvs) + (if Started(n.c) then 1 else 0)
    + (if n.s.state == MrSent || n.s.state == Disconnecting then 1 else 0)
    + n.completed
    + n.sRecvCq + (if n.s.state == Disconnecting then 2 else 0)
    + (if n.c.state == Disconnecting then 1 else 0)
  }

  lemma OneTickPerStep(n: Net, cap: nat, step: Step)
    requires ProgressInv(n, cap) && Good(n, cap, step)
    ensures Ticks(Next(true, n, step)) == Ticks(n) + 1
  {
    match step
    case ClientOp(k, accept) =>
      assert OwnBuffers(n, n.ops[k]);
      OpStep(n, k, accept);
      OpCompletedFacts(n.c, n.ops[k].slot, accept);
    case _ =>
  }

  /** A step that can be taken while the run is not over. */
  function Pending(n: Net, cap: nat): Step {
    if n.c.state == Init then ClientEstablished
    else if n.s.state == Init then ServerEstablished
    else if n.sSends > 0 then ToClient
    else if n.cRecvCq > 0 then ClientRecv(cap)
    else if n.sAcked > 0 then ServerSend
    else if n.ops != [] && |n.ops| <= cap then ClientOp(0, cap + 1 - |n.ops|)
    else if n.cSends > 0 then ToServer
    else if n.sRecvCq > 0 then ServerRecv
    else ClientSend
  }

  /** No run is stuck: while anything is left to do, some step is enabled. */
  lemma NeverStuck(n: Net, cap: nat)
    requires ProgressInv(n, cap)
    ensures Ticks(n) <= Work(n, cap) + 8
    ensures Ticks(n) < Work(n, cap) + 8 ==> Good(n, cap, Pending(n, cap))
    ensures Ticks(n) == Work(n, cap) + 8 ==>
              n.c.state == Disconnecting && n.s.state == Disconnecting && n.completed == Work(n, cap)
  {
  }

  lemma GoodStepAt(ns: seq<Net>, cap: nat, steps: seq<Step>, k: nat)
    requires GoodRun(ns, cap, steps) && k < |steps| && ProgressInv(ns[k], cap)
    ensures ProgressInv(ns[k + 1], cap) && Ticks(ns[k + 1]) == Ticks(ns[k]) + 1
  {
    assert GoodAt(ns, cap, steps, k);
    NextAt(true, ns, steps, k);
    ProgressNext(ns[k], cap, steps[k]);
    OneTickPerStep(ns[k], cap, steps[k]);
  }

  lemma {:induction false} ProgressAlways(ns: seq<Net>, cap: nat, steps: seq<Step>, k: nat)
    requires GoodRun(ns, cap, steps) && ProgressInv(ns[0], cap) && k < |ns|
    ensures ProgressInv(ns[k], cap) && Ticks(ns[k]) == Ticks(ns[0]) + k
  {
    if k > 0 {
      ProgressAlways(ns, cap, steps, k - 1);
      GoodStepAt(ns, cap, steps, k - 1);
    }
  }

  /** Exact work. Let W be the smaller of the ring size and the device's capacity, and L the
      budget. Every order of completions reaches DONE after exactly W + L - 1 completed
      requests and never before; a run that can go no further has taken W + L + 7 steps and
      leaves both sides disconnected; any shorter run can go on. */
  lemma ExactWork(p: Setup, cap: nat, ns: seq<Net>, steps: seq<Step>)
    requires Runs(p, ns, steps) && GoodRun(ns, cap, steps) && p.budget >= 1 && cap >= 1
    requires 1 <= |p.clientMr| == |p.serverMr| <= MAX_RING_SIZE
    ensures var n := ns[|steps|];
            var work := Min(|p.clientMr|, cap) + p.budget - 1;
            && n.completed <= work && (n.dones == 1 <==> n.completed == work)
            && |steps| <= work + 8
            && (|steps| < work + 8 ==> Good(n, cap, Pending(n, cap)))
            && (|steps| == work + 8 ==>
                  && n.dones == 1 && n.completed == work && n.posted == work
                  && n.c.state == Disconnecting && n.s.state == Disconnecting)
  {
    ProgressStart(p.mode, p.budget, p.clientMr, p.serverMode, p.serverMr, cap);
    ProgressAlways(ns, cap, steps, |steps|);
    RunsInv(p, ns, steps, |steps|);
    NeverStuck(ns[|steps|], cap);
    DoneOnlyWhenQuiet(p, ns, steps, |steps|);
  }
}
