/** One worker drives many connections and counts what happens for all of them in one set of
    counters; so does the worker on the other side. */
module RdmaWorker {
  import opened RdmaRing
  import opened RdmaClient
  import opened RdmaServer
  import opened RdmaSystem
  import opened RdmaSafety

  datatype World = World(conns: seq<Net>, stats: Stats, serverStats: Stats)

  /** The completion the client's handler is given in this step, if it runs at all. */
  function Reaped(n: Net, step: Step): (wc: Completion)
    requires Enabled(false, n, step)
  {
    match step
    case ClientRecv(_) => RecvDone
    case ClientOp(k, _) => OpCompletion(n.ops[k])
    case ClientSend => SendDone
    case _ => Failed
  }

  /** The completion the server's handler is given in this step, if it runs at all. */
  function ServerReaped(step: Step): (wc: Completion) {
    match step
    case ServerRecv => RecvDone
    case ServerSend => SendDone
    case _ => Failed
  }

  function AcceptOf(step: Step): nat {
    if step.ClientRecv? || step.ClientOp? then step.accept else 0
  }

  /** Connection i takes a step and the handlers update the shared counters. */
  function WorldNext(w: World, i: nat, step: Step): World {
    if i >= |w.conns| || !Enabled(false, w.conns[i], step) then w
    else World(w.conns[i := Next(false, w.conns[i], step)],
               Counted(w.stats, w.conns[i].c, Reaped(w.conns[i], step), AcceptOf(step)),
               ServerCounted(w.serverStats, w.conns[i].s, ServerReaped(step)))
  }

  function WorldAfter(w: World, steps: seq<(nat, Step)>): World {
    if steps == [] then w
    else WorldNext(WorldAfter(w, steps[..|steps| - 1]), steps[|steps| - 1].0, steps[|steps| - 1].1)
  }

  // ---- What the connections should have counted ----

  function Total(values: seq<int>): int {
    if |values| == 0 then 0 else Total(values[..|values| - 1]) + values[|values| - 1]
  }

  lemma {:induction false} TotalUpdate(values: seq<int>, i: nat, x: int)
    requires i < |values|
    ensures Total(values[i := x]) == Total(values) - values[i] + x
  {
    var n := |values| - 1;
    if i == n {
      assert values[i := x][..n] == values[..n];
    } else {
      TotalUpdate(values[..n], i, x);
      assert values[i := x][..n] == values[..n][i := x];
    }
  }

  /** Requests posted, and completed, by one connection: reads and writes apart. */
  function PostedReads(n: Net): int { if n.c.mode == ActiveRead then n.posted else 0 }
  function PostedWrites(n: Net): int { if n.c.mode == ActiveWrite then n.posted else 0 }
  function CompletedReads(n: Net): int { if n.c.mode == ActiveRead then n.completed else 0 }
  function CompletedWrites(n: Net): int { if n.c.mode == ActiveWrite then n.completed else 0 }

  function RegionsReaped(n: Net): int { n.reaped }

  /** Whether DONE has been sent, the regions have been sent, and DONE has arrived. */
  function DoneSent(n: Net): int { if n.c.state == Disconnecting then 1 else 0 }
  function RegionsSent(n: Net): int { if n.s.state == MrSent || n.s.state == Disconnecting then 1 else 0 }
  function DoneArrived(n: Net): int { if n.s.state == Disconnecting then 1 else 0 }

  function Each(conns: seq<Net>, f: Net -> int): (values: seq<int>)
    ensures |values| == |conns| && forall i :: 0 <= i < |values| ==> values[i] == f(conns[i])
  {
    seq(|conns|, i requires 0 <= i < |conns| => f(conns[i]))
  }

  function Sum(conns: seq<Net>, f: Net -> int): int { Total(Each(conns, f)) }

  /** When the sum moves with one connection. */
  lemma SumMoves(conns: seq<Net>, i: nat, m: Net, f: Net -> int, before: int, after: int)
    requires i < |conns| && before == Sum(conns, f) && after - before == f(m) - f(conns[i])
    ensures after == Sum(conns[i := m], f)
  {
    TotalUpdate(Each(conns, f), i, f(m));
    assert Each(conns[i := m], f) == Each(conns, f)[i := f(m)];
  }

  // ---- One step ----

  /** The client's counters move as the connection does. */
  ghost predicate Follows(n: Net, m: Net, st: Stats, after: Stats) {
    && after.mrTx == st.mrTx && after.doneRx == st.doneRx
    && after.mrRx - st.mrRx == m.reaped - n.reaped && after.doneTx - st.doneTx == DoneSent(m) - DoneSent(n)
    && after.readAttempt - st.readAttempt == PostedReads(m) - PostedReads(n)
    && after.readSuccess - st.readSuccess == CompletedReads(m) - CompletedReads(n)
    && after.writeAttempt - st.writeAttempt == PostedWrites(m) - PostedWrites(n)
    && after.writeSuccess - st.writeSuccess == CompletedWrites(m) - CompletedWrites(n)
  }

  /** The server's counters move as the connection does. */
  ghost predicate ServerFollows(n: Net, m: Net, st: Stats, after: Stats) {
    && after.mrTx - st.mrTx == RegionsSent(m) - RegionsSent(n)
    && after.doneRx - st.doneRx == DoneArrived(m) - DoneArrived(n)
    && after == st.(mrTx := after.mrTx, doneRx := after.doneRx)
  }

  lemma OpIsCounted(n: Net, st: Stats, k: nat, accept: nat)
    requires Inv(n) && Enabled(true, n, ClientOp(k, accept))
    ensures Follows(n, Next(true, n, ClientOp(k, accept)), st, Counted(st, n.c, OpCompletion(n.ops[k]), accept))
  {
    assert OwnBuffers(n, n.ops[k]);
    OpStep(n, k, accept);
    OpCompletedFacts(n.c, n.ops[k].slot, accept);
  }

  lemma RecvIsCounted(n: Net, st: Stats, accept: nat)
    requires Inv(n) && Enabled(true, n, ClientRecv(accept))
    ensures Follows(n, Next(true, n, ClientRecv(accept)), st, Counted(st, n.c, RecvDone, accept))
  {
  }

  lemma SendIsCounted(n: Net, st: Stats)
    requires MrInv(n) && DoneInv(n) && Enabled(true, n, ClientSend)
    ensures Follows(n, Next(true, n, ClientSend), st, Counted(st, n.c, SendDone, 0))
  {
  }

  /** The other steps finish nothing: they are not counted. */
  lemma OtherIsCounted(n: Net, st: Stats, step: Step)
    requires MrInv(n) && Enabled(true, n, step)
    requires !step.ClientRecv? && !step.ClientOp? && !step.ClientSend?
    ensures Counted(st, n.c, Reaped(n, step), AcceptOf(step)) == st
    ensures var m := Next(true, n, step);
            && m.reaped == n.reaped && m.posted == n.posted && m.completed == n.completed && m.c.mode == n.c.mode
            && DoneSent(m) == DoneSent(n)
  {
  }

  lemma CountedWhenLost(n: Net, st: Stats, step: Step)
    requires Enabled(false, n, step) && (Lost(n) || (Inv(n) && Early(n, step)))
    ensures Follows(n, Next(false, n, step), st, Counted(st, n.c, Reaped(n, step), AcceptOf(step)))
  {
  }

  lemma ClientIsCounted(n: Net, st: Stats, step: Step)
    requires InvOrLost(n) && Enabled(false, n, step)
    ensures Follows(n, Next(false, n, step), st, Counted(st, n.c, Reaped(n, step), AcceptOf(step)))
  {
    if Lost(n) || Early(n, step) {
      CountedWhenLost(n, st, step);
    } else {
      InTimeIsOrdered(n, step);
      match step
      case ClientOp(k, accept) => OpIsCounted(n, st, k, accept);
      case ClientRecv(accept) => RecvIsCounted(n, st, accept);
      case ClientSend => SendIsCounted(n, st);
      case _ => OtherIsCounted(n, st, step);
    }
  }

  /** What both sides' counting needs to know of the server. */
  ghost predicate ServerSound(n: Net) {
    && !n.s.mode.Active()
    && (n.sAcked > 0 ==> n.s.state == Connected)
    && (n.sRecvCq > 0 ==> n.s.state == MrSent && n.s.recvMsg == DoneMsg)
  }

  lemma SoundServer(n: Net)
    requires InvOrLost(n)
    ensures ServerSound(n)
  {
  }

  lemma ServerIsCounted(n: Net, st: Stats, step: Step)
    requires ServerSound(n) && Enabled(false, n, step)
    ensures ServerFollows(n, Next(false, n, step), st, ServerCounted(st, n.s, ServerReaped(step)))
  {
    if step.ServerRecv? || step.ServerSend? {
    } else {
      assert ServerCounted(st, n.s, ServerReaped(step)) == st;
    }
  }

  // ---- Runs ----

  ghost predicate AllInv(conns: seq<Net>) {
    forall i {:trigger InvOrLost(conns[i])} :: 0 <= i < |conns| ==> InvOrLost(conns[i])
  }

  /** Each counter of the client's worker is the sum of what it stands for. */
  ghost predicate Exact(conns: seq<Net>, st: Stats) {
    && st.mrTx == 0 && st.doneRx == 0
    && st.mrRx == Sum(conns, RegionsReaped) && st.doneTx == Sum(conns, DoneSent)
    && st.readAttempt == Sum(conns, PostedReads)
    && st.readSuccess == Sum(conns, CompletedReads)
    && st.writeAttempt == Sum(conns, PostedWrites)
    && st.writeSuccess == Sum(conns, CompletedWrites)
  }

  ghost predicate ServerExact(conns: seq<Net>, st: Stats) {
    && st.mrTx == Sum(conns, RegionsSent) && st.doneRx == Sum(conns, DoneArrived)
    && st == NO_STATS.(mrTx := st.mrTx, doneRx := st.doneRx)
  }

  lemma ExactStep(conns: seq<Net>, i: nat, m: Net, st: Stats, after: Stats)
    requires i < |conns| && Exact(conns, st) && Follows(conns[i], m, st, after)
    ensures Exact(conns[i := m], after)
  {
    SumMoves(conns, i, m, RegionsReaped, st.mrRx, after.mrRx);
    SumMoves(conns, i, m, DoneSent, st.doneTx, after.doneTx);
    SumMoves(conns, i, m, PostedReads, st.readAttempt, after.readAttempt);
    SumMoves(conns, i, m, CompletedReads, st.readSuccess, after.readSuccess);
    SumMoves(conns, i, m, PostedWrites, st.writeAttempt, after.writeAttempt);
    SumMoves(conns, i, m, CompletedWrites, st.writeSuccess, after.writeSuccess);
  }

  lemma ServerExactStep(conns: seq<Net>, i: nat, m: Net, st: Stats, after: Stats)
    requires i < |conns| && ServerExact(conns, st) && ServerFollows(conns[i], m, st, after)
    ensures ServerExact(conns[i := m], after)
  {
    SumMoves(conns, i, m, RegionsSent, st.mrTx, after.mrTx);
    SumMoves(conns, i, m, DoneArrived, st.doneRx, after.doneRx);
  }

  ghost predicate WorldInv(w: World) {
    AllInv(w.conns) && Exact(w.conns, w.stats) && ServerExact(w.conns, w.serverStats)
  }

  lemma AllInvUpdate(conns: seq<Net>, i: nat, m: Net)
    requires AllInv(conns) && i < |conns| && InvOrLost(m)
    ensures AllInv(conns[i := m])
  {
    forall j {:trigger InvOrLost(conns[i := m][j])} | 0 <= j < |conns|
      ensures InvOrLost(conns[i := m][j])
    {
      assert j == i || InvOrLost(conns[j]);
    }
  }

  lemma WorldStep(w: World, i: nat, step: Step)
    requires WorldInv(w) && i < |w.conns| && Enabled(false, w.conns[i], step)
    ensures WorldInv(WorldNext(w, i, step))
  {
    var n := w.conns[i];
    var m := Next(false, n, step);
    var v := WorldNext(w, i, step);
    assert InvOrLost(n);
    InvOrLostNext(n, step);
    assert InvOrLost(m);
    AllInvUpdate(w.conns, i, m);
    SoundServer(n);
    ClientIsCounted(n, w.stats, step);
    ServerIsCounted(n, w.serverStats, step);
    ExactStep(w.conns, i, m, w.stats, v.stats);
    ServerExactStep(w.conns, i, m, w.serverStats, v.serverStats);
  }

  lemma {:induction false} WorldInvAlways(w: World, steps: seq<(nat, Step)>)
    requires WorldInv(w)
    ensures WorldInv(WorldAfter(w, steps))
    decreases |steps|
  {
    if steps != [] {
      var before := WorldAfter(w, steps[..|steps| - 1]);
      var (i, step) := steps[|steps| - 1];
      WorldInvAlways(w, steps[..|steps| - 1]);
      if i < |before.conns| && Enabled(false, before.conns[i], step) {
        WorldStep(before, i, step);
      }
    }
  }

  /** A pair of workers that have just set up one connection for each of the setups. */
  function FreshWorkers(ps: seq<Setup>): World {
    World(seq(|ps|, i requires 0 <= i < |ps| => Begin(ps[i])), NO_STATS, NO_STATS)
  }

  predicate AllPaired(ps: seq<Setup>) {
    forall i :: 0 <= i < |ps| ==> ps[i].mode.Active() && !ps[i].serverMode.Active()
  }

  lemma {:induction false} TotalOfZeros(values: seq<int>)
    requires forall i :: 0 <= i < |values| ==> values[i] == 0
    ensures Total(values) == 0
  {
    if |values| > 0 {
      TotalOfZeros(values[..|values| - 1]);
    }
  }

  lemma SumOfZeros(conns: seq<Net>, f: Net -> int)
    requires forall i :: 0 <= i < |conns| ==> f(conns[i]) == 0
    ensures Sum(conns, f) == 0
  {
    TotalOfZeros(Each(conns, f));
  }

  /** Nothing has happened on this connection. */
  ghost predicate Untouched(n: Net) {
    n.reaped == 0 && n.posted == 0 && n.completed == 0 && n.c.state == Init && n.s.state == Init
  }

  lemma NothingCounted(conns: seq<Net>)
    requires forall i :: 0 <= i < |conns| ==> Untouched(conns[i])
    ensures Exact(conns, NO_STATS) && ServerExact(conns, NO_STATS)
  {
    SumOfZeros(conns, RegionsReaped);
    SumOfZeros(conns, DoneSent);
    SumOfZeros(conns, PostedReads);
    SumOfZeros(conns, CompletedReads);
    SumOfZeros(conns, PostedWrites);
    SumOfZeros(conns, CompletedWrites);
    SumOfZeros(conns, RegionsSent);
    SumOfZeros(conns, DoneArrived);
  }

  lemma FreshIsInv(ps: seq<Setup>, w: World)
    requires AllPaired(ps) && w == FreshWorkers(ps)
    ensures WorldInv(w)
  {
    forall i | 0 <= i < |w.conns|
      ensures InvOrLost(w.conns[i]) && Untouched(w.conns[i])
    {
      InvStart(ps[i].mode, ps[i].budget, ps[i].clientMr, ps[i].serverMode, ps[i].serverMr);
    }
    NothingCounted(w.conns);
  }

  /** In every run of a pair of workers over any number of connections, each counter is the sum
      of what it stands for: on the client's side regions received, DONE sent, and requests
      posted and completed, reads and writes apart; on the server's, regions sent and DONE
      received; and the other counters stay 0. */
  lemma CountersAreExact(ps: seq<Setup>, steps: seq<(nat, Step)>)
    requires AllPaired(ps)
    ensures var w := WorldAfter(FreshWorkers(ps), steps);
            Exact(w.conns, w.stats) && ServerExact(w.conns, w.serverStats)
  {
    FreshIsInv(ps, FreshWorkers(ps));
    WorldInvAlways(FreshWorkers(ps), steps);
  }

  function Attempts(st: Stats): int { st.readAttempt + st.writeAttempt }
  function Successes(st: Stats): int { st.readSuccess + st.writeSuccess }

  /** The unreaped and failed requests of one connection. */
  function Outstanding(n: Net): int { |n.ops| + |n.failed| }

  /** Two sums less two others, term by term. */
  lemma {:induction false} TotalsAdd(a: seq<int>, b: seq<int>, c: seq<int>, d: seq<int>, e: seq<int>)
    requires |a| == |b| == |c| == |d| == |e|
    requires forall i :: 0 <= i < |a| ==> a[i] + b[i] - c[i] - d[i] == e[i]
    ensures Total(a) + Total(b) - Total(c) - Total(d) == Total(e)
    decreases |a|
  {
    if |a| > 0 {
      var n := |a| - 1;
      TotalsAdd(a[..n], b[..n], c[..n], d[..n], e[..n]);
    }
  }

  lemma OutstandingIs(n: Net)
    requires InvOrLost(n)
    ensures PostedReads(n) + PostedWrites(n) - CompletedReads(n) - CompletedWrites(n)
         == Outstanding(n)
  {
  }

  /** Attempts minus successes is the number of requests that are unreaped or failed, over all
      connections of a worker. */
  lemma AttemptsMinusSuccesses(ps: seq<Setup>, steps: seq<(nat, Step)>)
    requires AllPaired(ps)
    ensures var w := WorldAfter(FreshWorkers(ps), steps);
            Attempts(w.stats) - Successes(w.stats) == Sum(w.conns, Outstanding)
  {
    var conns := WorldAfter(FreshWorkers(ps), steps).conns;
    FreshIsInv(ps, FreshWorkers(ps));
    WorldInvAlways(FreshWorkers(ps), steps);
    var a, b := Each(conns, PostedReads), Each(conns, PostedWrites);
    var c, d := Each(conns, CompletedReads), Each(conns, CompletedWrites);
    forall i | 0 <= i < |conns|
      ensures a[i] + b[i] - c[i] - d[i] == Outstanding(conns[i])
    {
      assert InvOrLost(conns[i]);
      OutstandingIs(conns[i]);
    }
    TotalsAdd(a, b, c, d, Each(conns, Outstanding));
  }
}
