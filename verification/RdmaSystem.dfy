/** The two-party system: one active client and one passive server joined by a reliable
    connection, every interleaving of their events, refused posts and failed completions. */
module RdmaSystem {
  import opened RdmaRing
  import opened RdmaClient
  import opened RdmaServer

  /** Both connections, what their queue pairs hold, and a history.
      Per side: receives posted, sends posted and not yet transmitted, sends delivered and
      not yet reaped, messages received and not yet reaped. */
  datatype Net = Net(
    c: Client, s: Server,
    cRecvs: nat, cSends: nat, cAcked: nat, cRecvCq: nat,
    sRecvs: nat, sSends: nat, sAcked: nat, sRecvCq: nat,
    ops: seq<Op>,      // posted RDMA requests whose completion has not been reaped
    failed: seq<Op>,   // RDMA requests reaped with a failure status
    posted: nat, completed: nat, reaped: nat, // requests, and received messages reaped with success
    dones: nat, wrong: nat,
    exited: bool, died: bool)

  function Start(mode: Mode, budget: int, clientMr: seq<Mr>, serverMode: Mode, serverMr: seq<Mr>): Net {
    Net(NewClient(mode, budget, clientMr), NewServer(serverMode, serverMr),
        1, 0, 0, 0, 0, 0, 0, 0, [], [], 0, 0, 0, 0, 0, false, false)
  }

  datatype Step =
    | ClientEstablished
    | ServerEstablished
    | ToClient                    // the network delivers the server's send
    | ToServer                    // the network delivers the client's send
    | ClientRecv(accept: nat)     // the client reaps a received message
    | ClientOp(k: nat, accept: nat) // the client reaps ops[k], completed with success
    | ClientSend                  // the client reaps a delivered send
    | ServerRecv
    | ServerSend
    | ClientOpFails(k: nat)
    | ClientRecvFails
    | ClientSendFails(delivered: bool)
    | ServerRecvFails
    | ServerSendFails(delivered: bool)

  predicate Alive(n: Net) { !n.exited && !n.died }

  /** `ordered` says that the client reaps the regions only after its own handler for the
      ESTABLISHED event has run. */
  predicate Enabled(ordered: bool, n: Net, step: Step) {
    && n.c.Shaped() && !n.s.mode.Active()
    && match step
       case ClientEstablished => n.c.state == Init
       case ServerEstablished => n.s.state == Init
       case ToClient => n.sSends > 0 && n.cRecvs > 0
       case ToServer => n.cSends > 0 && n.sRecvs > 0
       case ClientRecv(_) => Alive(n) && n.cRecvCq > 0 && (ordered ==> n.c.state != Init)
       case ClientOp(k, _) => Alive(n) && k < |n.ops| && n.ops[k].slot < n.c.RingSize()
       case ClientSend => Alive(n) && n.cAcked > 0
       case ServerRecv => n.sRecvCq > 0
       case ServerSend => n.sAcked > 0
       case ClientOpFails(k) => Alive(n) && k < |n.ops|
       case ClientRecvFails => Alive(n) && n.cRecvs > 0
       case ClientSendFails(delivered) => Alive(n) && (if delivered then n.cAcked else n.cSends) > 0
       case ServerRecvFails => n.sRecvs > 0
       case ServerSendFails(delivered) => (if delivered then n.sAcked else n.sSends) > 0
  }

  function OpCompletion(op: Op): Completion {
    if op.kind == ReadOp then ReadDone(op.slot) else WriteDone(op.slot)
  }

  /** The client's handler runs on wc. */
  function ClientHandles(n: Net, wc: Completion, accept: nat): Net
    requires n.c.Shaped() && KnownSlot(n.c, wc)
  {
    var e := Handle(n.c, wc, accept);
    n.(c := e.conn, ops := n.ops + e.posted, posted := n.posted + |e.posted|,
       cSends := n.cSends + e.sends, dones := n.dones + e.sends, cRecvs := n.cRecvs + e.recvs,
       wrong := n.wrong + (if e.outcome == WrongState then 1 else 0),
       exited := n.exited || e.outcome == RingSizeMismatch,
       died := n.died || e.outcome == RingOverflow)
  }

  function ServerHandles(n: Net, wc: Completion): Net
    requires !n.s.mode.Active()
  {
    var e := ServerHandle(n.s, wc);
    n.(s := e.conn, sSends := n.sSends + e.sends, sRecvs := n.sRecvs + e.recvs,
       wrong := n.wrong + (if e.outcome == WrongState then 1 else 0))
  }

  /** A message carries what the sender's single send buffer holds when it is transmitted,
      and lands in the receiver's single receive buffer. */
  function Next(ordered: bool, n: Net, step: Step): Net {
    if !Enabled(ordered, n, step) then n
    else
      match step
      case ClientEstablished =>
        var e := Established(n.c);
        n.(c := e.conn, cSends := n.cSends + e.sends)
      case ServerEstablished =>
        var e := ServerUp(n.s);
        n.(s := e.conn, sSends := n.sSends + e.sends)
      case ToClient =>
        n.(c := n.c.(recvMsg := n.s.sendMsg), cRecvs := n.cRecvs - 1, cRecvCq := n.cRecvCq + 1,
           sSends := n.sSends - 1, sAcked := n.sAcked + 1)
      case ToServer =>
        n.(s := n.s.(recvMsg := n.c.sendMsg), sRecvs := n.sRecvs - 1, sRecvCq := n.sRecvCq + 1,
           cSends := n.cSends - 1, cAcked := n.cAcked + 1)
      case ClientRecv(accept) =>
        ClientHandles(n.(cRecvCq := n.cRecvCq - 1, reaped := n.reaped + 1), RecvDone, accept)
      case ClientOp(k, accept) =>
        ClientHandles(n.(ops := Without(n.ops, k), completed := n.completed + 1), OpCompletion(n.ops[k]), accept)
      case ClientSend => ClientHandles(n.(cAcked := n.cAcked - 1), SendDone, 0)
      case ServerRecv => ServerHandles(n.(sRecvCq := n.sRecvCq - 1), RecvDone)
      case ServerSend => ServerHandles(n.(sAcked := n.sAcked - 1), SendDone)
      case ClientOpFails(k) =>
        ClientHandles(n.(ops := Without(n.ops, k), failed := n.failed + [n.ops[k]]), Failed, 0)
      case ClientRecvFails => ClientHandles(n.(cRecvs := n.cRecvs - 1), Failed, 0)
      case ClientSendFails(delivered) =>
        ClientHandles(if delivered then n.(cAcked := n.cAcked - 1) else n.(cSends := n.cSends - 1), Failed, 0)
      case ServerRecvFails => ServerHandles(n.(sRecvs := n.sRecvs - 1), Failed)
      case ServerSendFails(delivered) =>
        ServerHandles(if delivered then n.(sAcked := n.sAcked - 1) else n.(sSends := n.sSends - 1), Failed)
  }

  ghost predicate StepAt(ordered: bool, ns: seq<Net>, steps: seq<Step>, k: nat)
    requires k < |steps| < |ns|
  {
    ns[k + 1] == Next(ordered, ns[k], steps[k])
  }

  /** ns is a run: step k takes ns[k] to ns[k + 1]; a step that is not enabled leaves the
      system as it is. */
  ghost predicate IsRun(ordered: bool, ns: seq<Net>, steps: seq<Step>) {
    |ns| == |steps| + 1 && forall k :: 0 <= k < |steps| ==> StepAt(ordered, ns, steps, k)
  }

  lemma NextAt(ordered: bool, ns: seq<Net>, steps: seq<Step>, k: nat)
    requires IsRun(ordered, ns, steps) && k < |steps|
    ensures ns[k + 1] == Next(ordered, ns[k], steps[k])
  {
    assert StepAt(ordered, ns, steps, k);
  }

  // ---- The ring: flags, counter and outstanding requests agree ----

  /** Slot i is busy exactly when one request for it is unreaped or failed, and the counter
      is the number of free slots. */
  ghost predicate RingInv(c: Client, ops: seq<Op>, failed: seq<Op>) {
    && c.Shaped()
    && c.freeCount == FreeSlots(c.free)
    && |ops| + |failed| + c.freeCount == c.RingSize()
    && (forall k :: 0 <= k < |ops| ==> ops[k].slot < c.RingSize())
    && (forall k :: 0 <= k < |failed| ==> failed[k].slot < c.RingSize())
    && (forall i :: 0 <= i < c.RingSize() ==>
          Holders(ops, i) + Holders(failed, i) == if c.free[i] then 0 else 1)
  }

  lemma PostKeepsRing(c: Client, ops: seq<Op>, failed: seq<Op>, accept: nat)
    requires RingInv(c, ops, failed)
    ensures RingInv(Post(c, accept).conn, ops + Post(c, accept).posted, failed)
  {
    PostFromTakesLowestFree(c.free, 0, accept);
    var (free, taken) := PostFrom(c.free, 0, accept);
    assert forall k :: 0 <= k < |taken| ==> taken[k] in taken;
    forall i: nat | i < c.RingSize()
      ensures Holders(ops + Post(c, accept).posted, i) == Holders(ops, i) + if i in taken then 1 else 0
    {
      HoldersConcat(ops, Post(c, accept).posted, i);
      HoldersOfRequests(c.mode.Kind(), taken, c.localMr, c.peerMr, i);
    }
  }

  /** Freeing the slot of a reaped request restores the ring without it. */
  lemma FreeKeepsRing(c: Client, ops: seq<Op>, failed: seq<Op>, k: nat)
    requires RingInv(c, ops, failed) && k < |ops|
    ensures !c.free[ops[k].slot]
    ensures RingInv(c.(free := c.free[ops[k].slot := true], freeCount := c.freeCount + 1), Without(ops, k), failed)
  {
    var slot, rest := ops[k].slot, Without(ops, k);
    HoldersWithout(ops, k, slot);
    FreeSlotsUpdate(c.free, slot, true);
    forall i: nat | i < c.RingSize()
      ensures Holders(rest, i) + Holders(failed, i) == if c.free[slot := true][i] then 0 else 1
    {
      HoldersWithout(ops, k, i);
    }
  }

  /** A completion keeps the ring: the counter cannot pass the ring size, and DONE is sent
      exactly when the budget is used up and this was the last request, none having failed. */
  lemma OpCompletedKeepsRing(c: Client, ops: seq<Op>, failed: seq<Op>, k: nat, accept: nat)
    requires RingInv(c, ops, failed) && k < |ops|
    ensures var e := OpCompleted(c, ops[k].slot, accept);
            && e.outcome == Handled
            && RingInv(e.conn, Without(ops, k) + e.posted, failed)
            && (e.sends > 0 <==> c.budget != 0 && c.loop >= c.budget && |ops| == 1 && failed == [])
  {
    var rest := Without(ops, k);
    FreeKeepsRing(c, ops, failed, k);
    var freed := c.(free := c.free[ops[k].slot := true], freeCount := c.freeCount + 1, state := OpsCompleted);
    assert rest + [] == rest;
    if !(c.budget != 0 && c.loop >= c.budget) {
      PostKeepsRing(freed.(loop := c.loop + 1), rest, failed, accept);
    }
  }

  lemma FailKeepsRing(c: Client, ops: seq<Op>, failed: seq<Op>, k: nat)
    requires RingInv(c, ops, failed) && k < |ops|
    ensures RingInv(c, Without(ops, k), failed + [ops[k]])
  {
    forall i: nat | i < c.RingSize()
      ensures Holders(Without(ops, k), i) + Holders(failed + [ops[k]], i) == Holders(ops, i) + Holders(failed, i)
    {
      HoldersWithout(ops, k, i);
      HoldersConcat(failed, [ops[k]], i);
    }
  }

  // ---- The handshake: where the one MR message and the one DONE message are ----

  /** The client has handled the MR message. */
  predicate Started(c: Client) { Running(c.state) || c.state == Disconnecting }

  ghost predicate MrInv(n: Net) {
    && n.c.mode.Active() && !n.s.mode.Active()
    && (n.c.state == Init || n.c.state == Connected || Started(n.c))
    && (n.s.state == Init || n.s.state == Connected || n.s.state == MrSent || n.s.state == Disconnecting)
    && n.reaped + n.cRecvs + n.cRecvCq <= 1 && n.sSends + n.sAcked <= 1 && (n.reaped == 1 ==> n.c.state != Init)
    && (n.s.state == Init ==> n.sSends + n.sAcked + n.cRecvCq == 0 && !Started(n.c))
    && (n.s.state != Init ==> n.s.sendMsg == MrMsg(n.s.localMr))
    && (n.sSends == 1 ==> n.s.state == Connected && n.cRecvCq == 0 && !Started(n.c))
    && (n.sAcked == 1 ==> n.s.state == Connected)
    && (n.cRecvCq == 1 ==> !Started(n.c) && n.c.recvMsg == MrMsg(n.s.localMr) && n.s.state != Init)
    && (Started(n.c) ==> n.cRecvs + n.cRecvCq == 0 && n.c.peerMr == n.s.localMr && !n.exited)
    && (Started(n.c) ==> |n.s.localMr| <= MAX_RING_SIZE)
    && (!Started(n.c) ==> n.posted == 0 && n.completed == 0)
  }

  /** All work is done: what holds from the moment DONE is posted. */
  ghost predicate Finished(n: Net) {
    && Started(n.c) && n.c.state != MrReceived && n.c.sendMsg == DoneMsg
    && n.ops == [] && n.failed == []
    && n.c.budget != 0 && n.c.loop >= n.c.budget
  }

  ghost predicate DoneInv(n: Net) {
    && n.dones <= 1 && n.cSends + n.cAcked <= n.dones && n.sRecvs + n.sRecvCq <= 1
    && (n.s.state == Init || n.s.state == Connected ==> n.sRecvs + n.sRecvCq == 0)
    && (n.sRecvs + n.sRecvCq > 0 ==> n.s.state == MrSent)
    && (n.sRecvCq == 1 ==> n.dones == 1 && n.cSends == 0 && n.s.recvMsg == DoneMsg)
    && (n.s.state == Disconnecting ==> n.dones == 1)
    && (n.cSends + n.cAcked == 1 ==> n.c.state == OpsCompleted)
    && (n.c.state == Disconnecting ==> n.dones == 1 && n.cSends + n.cAcked == 0)
    && (n.dones == 1 ==> Finished(n))
  }

  /** Every outstanding or failed request names its own slot's two buffers. */
  ghost predicate BufferInv(n: Net) {
    && (forall k :: 0 <= k < |n.ops| ==> OwnBuffers(n, n.ops[k]))
    && (forall k :: 0 <= k < |n.failed| ==> OwnBuffers(n, n.failed[k]))
  }

  ghost predicate OwnBuffers(n: Net, op: Op) {
    && op.slot < |n.c.localMr| && op.slot < |n.s.localMr|
    && op == Op(n.c.mode.Kind(), op.slot, n.c.localMr[op.slot], n.s.localMr[op.slot])
  }

  ghost predicate Inv(n: Net) {
    && RingInv(n.c, n.ops, n.failed)
    && MrInv(n) && DoneInv(n) && BufferInv(n)
    && n.posted == n.completed + |n.ops| + |n.failed|
    && n.wrong == 0 && !n.died
  }

  lemma HandleKeepsConfig(c: Client, wc: Completion, accept: nat)
    requires c.Shaped() && KnownSlot(c, wc)
    ensures var d := Handle(c, wc, accept).conn;
            d.mode == c.mode && d.budget == c.budget && d.localMr == c.localMr
  {
  }

  /** No step changes a connection's configuration. */
  lemma ConfigKept(ordered: bool, n: Net, step: Step)
    ensures var m := Next(ordered, n, step);
            && m.c.mode == n.c.mode && m.c.budget == n.c.budget && m.c.localMr == n.c.localMr
            && m.s.mode == n.s.mode && m.s.localMr == n.s.localMr
  {
    if Enabled(ordered, n, step) {
      match step
      case ClientRecv(accept) => HandleKeepsConfig(n.c, RecvDone, accept);
      case ClientOp(k, accept) => HandleKeepsConfig(n.c, OpCompletion(n.ops[k]), accept);
      case ClientSend => HandleKeepsConfig(n.c, SendDone, 0);
      case _ =>
    }
  }

  lemma {:induction false} ConfigAlways(ordered: bool, ns: seq<Net>, steps: seq<Step>, k: nat)
    requires IsRun(ordered, ns, steps) && k < |ns|
    ensures ns[k].c.mode == ns[0].c.mode && ns[k].c.budget == ns[0].c.budget && ns[k].c.localMr == ns[0].c.localMr
    ensures ns[k].s.mode == ns[0].s.mode && ns[k].s.localMr == ns[0].s.localMr
  {
    if k > 0 {
      ConfigAlways(ordered, ns, steps, k - 1);
      ConfigKept(ordered, ns[k - 1], steps[k - 1]);
      NextAt(ordered, ns, steps, k - 1);
    }
  }

  lemma InvStart(mode: Mode, budget: int, clientMr: seq<Mr>, serverMode: Mode, serverMr: seq<Mr>)
    requires mode.Active() && !serverMode.Active()
    ensures Inv(Start(mode, budget, clientMr, serverMode, serverMr))
  {
    var c := NewClient(mode, budget, clientMr);
    FreeSlotsBound(c.free);
  }

  lemma InvClientRecv(n: Net, accept: nat)
    requires Inv(n) && Enabled(true, n, ClientRecv(accept))
    ensures Inv(Next(true, n, ClientRecv(accept)))
  {
    if |n.s.localMr| <= MAX_RING_SIZE && |n.s.localMr| == n.c.RingSize() {
      var c := n.c.(peerMr := n.s.localMr, state := MrReceived, loop := n.c.loop + 1);
      assert RingInv(c, n.ops, n.failed);
      PostKeepsRing(c, n.ops, n.failed, accept);
    } else {
      assert n.ops + [] == n.ops;
    }
  }

  /** Requests posted after a completion name the buffers of their own slots. */
  lemma OpCompletedNames(c: Client, slot: nat, accept: nat)
    requires c.Shaped() && slot < c.RingSize()
    ensures var e := OpCompleted(c, slot, accept);
            forall j :: 0 <= j < |e.posted| ==>
              var op := e.posted[j];
              op.slot < c.RingSize() && op == Op(c.mode.Kind(), op.slot, c.localMr[op.slot], c.peerMr[op.slot])
  {
    var free := c.free[slot := true];
    PostFromTakesLowestFree(free, 0, accept);
    var taken := PostFrom(free, 0, accept).1;
    assert forall k :: 0 <= k < |taken| ==> taken[k] in taken;
  }

  lemma BuffersJoin(n: Net, m: Net, k: nat, posted: seq<Op>)
    requires BufferInv(n) && k < |n.ops| && m.ops == Without(n.ops, k) + posted && m.failed == n.failed
    requires m.c.mode == n.c.mode && m.c.localMr == n.c.localMr && m.s.localMr == n.s.localMr
    requires forall j :: 0 <= j < |posted| ==> OwnBuffers(m, posted[j])
    ensures BufferInv(m)
  {
    forall j | 0 <= j < |m.ops|
      ensures OwnBuffers(m, m.ops[j])
    {
      if j < |n.ops| - 1 {
        assert m.ops[j] == n.ops[if j < k then j else j + 1];
      } else {
        assert m.ops[j] == posted[j - (|n.ops| - 1)];
      }
    }
    forall j | 0 <= j < |m.failed|
      ensures OwnBuffers(m, m.failed[j])
    {
      assert OwnBuffers(n, n.failed[j]);
    }
  }

  lemma BuffersAfterOp(n: Net, k: nat, accept: nat)
    requires n.c.Shaped() && MrInv(n) && BufferInv(n) && Enabled(true, n, ClientOp(k, accept))
    requires Running(n.c.state) && n.ops[k].kind == n.c.mode.Kind()
    ensures BufferInv(Next(true, n, ClientOp(k, accept)))
  {
    var m := Next(true, n, ClientOp(k, accept));
    var e := OpCompleted(n.c, n.ops[k].slot, accept);
    OpCompletedNames(n.c, n.ops[k].slot, accept);
    ConfigKept(true, n, ClientOp(k, accept));
    BuffersJoin(n, m, k, e.posted);
  }

  lemma OpCompletedFacts(c: Client, slot: nat, accept: nat)
    requires c.Shaped() && slot < c.RingSize() && c.freeCount < c.RingSize()
    ensures var e := OpCompleted(c, slot, accept);
            && e.outcome == Handled && e.recvs == 0 && e.sends <= 1
            && e.conn.state == OpsCompleted && e.conn.loop >= c.loop
            && e.conn.mode == c.mode && e.conn.budget == c.budget && e.conn.localMr == c.localMr
            && e.conn.peerMr == c.peerMr && e.conn.recvMsg == c.recvMsg
            && (e.sends == 1 ==> e.posted == [] && e.conn.sendMsg == DoneMsg && e.conn.loop == c.loop)
  {
  }

  /** The client's handler for a successful request, as one step of the system. */
  lemma OpStep(n: Net, k: nat, accept: nat)
    requires n.c.Shaped() && n.c.freeCount < n.c.RingSize() && Enabled(true, n, ClientOp(k, accept))
    requires n.ops[k].kind == n.c.mode.Kind() && n.c.mode.Active() && Running(n.c.state)
    ensures var e := OpCompleted(n.c, n.ops[k].slot, accept);
            Next(true, n, ClientOp(k, accept)) ==
            n.(ops := Without(n.ops, k) + e.posted, completed := n.completed + 1, c := e.conn,
               posted := n.posted + |e.posted|, cSends := n.cSends + e.sends, dones := n.dones + e.sends)
  {
    OpCompletedFacts(n.c, n.ops[k].slot, accept);
  }

  lemma OpKeepsHandshake(n: Net, k: nat, accept: nat)
    requires RingInv(n.c, n.ops, n.failed) && MrInv(n) && DoneInv(n) && Enabled(true, n, ClientOp(k, accept))
    requires n.ops[k].kind == n.c.mode.Kind() && Started(n.c)
    requires n.posted == n.completed + |n.ops| + |n.failed|
    ensures var m := Next(true, n, ClientOp(k, accept));
            && MrInv(m) && DoneInv(m) && RingInv(m.c, m.ops, m.failed)
            && m.wrong == n.wrong && m.died == n.died
            && m.posted == m.completed + |m.ops| + |m.failed|
  {
    OpCompletedKeepsRing(n.c, n.ops, n.failed, k, accept);
    OpCompletedFacts(n.c, n.ops[k].slot, accept);
    OpStep(n, k, accept);
  }

  lemma InvClientOp(n: Net, k: nat, accept: nat)
    requires Inv(n) && Enabled(true, n, ClientOp(k, accept))
    ensures Inv(Next(true, n, ClientOp(k, accept)))
  {
    assert OwnBuffers(n, n.ops[k]);
    OpKeepsHandshake(n, k, accept);
    BuffersAfterOp(n, k, accept);
  }

  lemma InvClientOpFails(n: Net, k: nat)
    requires Inv(n) && Enabled(true, n, ClientOpFails(k))
    ensures Inv(Next(true, n, ClientOpFails(k)))
  {
    FailKeepsRing(n.c, n.ops, n.failed, k);
    var m := Next(true, n, ClientOpFails(k));
    assert m.ops == Without(n.ops, k);
    forall j | 0 <= j < |m.ops|
      ensures OwnBuffers(m, m.ops[j])
    {
      assert OwnBuffers(n, n.ops[if j < k then j else j + 1]);
    }
  }

  predicate TouchesRing(step: Step) { step.ClientRecv? || step.ClientOp? || step.ClientOpFails? }

  predicate ServerStep(step: Step) {
    step.ServerEstablished? || step.ServerRecv? || step.ServerSend? || step.ServerRecvFails? || step.ServerSendFails?
  }

  lemma ServerStepKeepsHandshake(n: Net, step: Step)
    requires MrInv(n) && DoneInv(n) && Enabled(true, n, step) && ServerStep(step)
    ensures var m := Next(true, n, step); MrInv(m) && DoneInv(m) && m.wrong == n.wrong && m.died == n.died
  {
  }

  lemma DeliveryKeepsHandshake(n: Net, step: Step)
    requires MrInv(n) && DoneInv(n) && Enabled(true, n, step) && (step.ToClient? || step.ToServer?)
    ensures var m := Next(true, n, step); MrInv(m) && DoneInv(m) && m.wrong == n.wrong && m.died == n.died
  {
  }

  lemma ClientStepKeepsHandshake(n: Net, step: Step)
    requires MrInv(n) && DoneInv(n) && Enabled(true, n, step)
    requires step.ClientEstablished? || step.ClientSend? || step.ClientRecvFails? || step.ClientSendFails?
    ensures var m := Next(true, n, step); MrInv(m) && DoneInv(m) && m.wrong == n.wrong && m.died == n.died
  {
    assert n.ops + [] == n.ops;
  }

  lemma QuietStepKeepsRing(n: Net, step: Step)
    requires Enabled(true, n, step) && !TouchesRing(step)
    ensures var m := Next(true, n, step);
            && m.ops == n.ops && m.failed == n.failed && m.posted == n.posted && m.completed == n.completed
            && m.c.free == n.c.free && m.c.freeCount == n.c.freeCount && m.c.peerMr == n.c.peerMr
  {
    assert n.ops + [] == n.ops;
  }

  lemma InvQuietStep(n: Net, step: Step)
    requires Inv(n) && Enabled(true, n, step) && !TouchesRing(step)
    ensures Inv(Next(true, n, step))
  {
    if ServerStep(step) {
      ServerStepKeepsHandshake(n, step);
    } else if step.ToClient? || step.ToServer? {
      DeliveryKeepsHandshake(n, step);
    } else {
      ClientStepKeepsHandshake(n, step);
    }
    QuietStepKeepsRing(n, step);
    ConfigKept(true, n, step);
  }

  lemma InvNext(n: Net, step: Step)
    requires Inv(n)
    ensures Inv(Next(true, n, step))
  {
    if Enabled(true, n, step) {
      match step
      case ClientRecv(accept) => InvClientRecv(n, accept);
      case ClientOp(k, accept) => InvClientOp(n, k, accept);
      case ClientOpFails(k) => InvClientOpFails(n, k);
      case _ => InvQuietStep(n, step);
    }
  }

  lemma {:induction false} InvAlways(ns: seq<Net>, steps: seq<Step>, k: nat)
    requires IsRun(true, ns, steps) && Inv(ns[0]) && k < |ns|
    ensures Inv(ns[k])
  {
    if k > 0 {
      InvAlways(ns, steps, k - 1);
      InvNext(ns[k - 1], steps[k - 1]);
      NextAt(true, ns, steps, k - 1);
    }
  }
}
