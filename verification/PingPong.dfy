/** The ping-pong loop: two peers that send in turn, each keeping account of what it waits
    for. */
module PingPong {
  const RECV_WRID: bv2 := 1
  const SEND_WRID: bv2 := 2
  const BOTH: bv2 := 3

  /** A work completion: whether it succeeded, and the id of its request. */
  datatype Wc = Wc(ok: bool, wr: bv2)

  predicate Known(wc: Wc) { wc.ok && (wc.wr == SEND_WRID || wc.wr == RECV_WRID) }

  datatype Config = Config(iters: nat, rxDepth: nat)

  /** A peer and its queues. `posts` are the sends it has posted, `rq` the receives that wait
      for a message, `recvCq` and `sendCq` the completions that wait to be reaped, `sendOut`
      the sends not yet complete; `failed` says that a post was refused and the peer gave up. */
  datatype Peer = Peer(pending: bv2, scnt: nat, rcnt: nat, routs: int, posts: nat,
                       rq: nat, recvCq: nat, sendOut: nat, sendCq: nat, failed: bool)

  // ---- One peer ----

  /** Receives are accepted up to the depth of the queue; those whose completion is not yet
      reaped still take up room. */
  function PostRecv(c: Config, p: Peer, n: int): (r: (Peer, nat))
    ensures p.rq + p.recvCq <= c.rxDepth ==> 0 <= r.1 && r.0.rq + r.0.recvCq <= c.rxDepth
    decreases n
  {
    if n <= 0 || p.rq + p.recvCq >= c.rxDepth then (p, 0)
    else
      var (q, k) := PostRecv(c, p.(rq := p.rq + 1), n - 1);
      (q, k + 1)
  }

  /** The send queue has room for one send until its completion is reaped. */
  function PostSend(p: Peer): Peer {
    if p.sendOut + p.sendCq >= 1 then p.(failed := true)
    else p.(sendOut := 1, posts := p.posts + 1, pending := BOTH)
  }

  /** Counts a completion; a receive is replaced when few are left. An unknown id ends the
      process. */
  function Count(c: Config, p: Peer, wr: bv2): Peer {
    if wr == SEND_WRID then p.(scnt := p.scnt + 1)
    else if wr != RECV_WRID then p.(failed := true)
    else
      var q := p.(routs := p.routs - 1);
      if q.routs <= 1 then
        var (r, k) := PostRecv(c, q, c.rxDepth - q.routs);
        var t := r.(routs := q.routs + k);
        if t.routs < c.rxDepth then t.(failed := true) else t.(rcnt := p.rcnt + 1)
      else q.(rcnt := p.rcnt + 1)
  }

  /** The body of the completion loop; a failed completion ends the process. */
  function Handle(c: Config, p: Peer, wc: Wc): Peer {
    var q := if wc.ok then Count(c, p, wc.wr) else p.(failed := true);
    if q.failed then q
    else
      var r := q.(pending := q.pending & !wc.wr);
      if r.scnt < c.iters && r.pending == 0 then PostSend(r) else r
  }

  /** The condition of the outer loop. */
  predicate Going(c: Config, p: Peer) { !p.failed && (p.rcnt < c.iters || p.scnt < c.iters) }

  /** A peer about to enter the loop: the client has posted its first send. */
  function Start(c: Config, client: bool): Peer {
    var p := Peer(RECV_WRID, 0, 0, c.rxDepth, 0, c.rxDepth, 0, 0, 0, false);
    if client then PostSend(p) else p
  }

  // ---- Two peers ----

  /** Messages on their way to each peer, and messages that found no receive. */
  datatype Net = Net(client: Peer, server: Peer, toServer: nat, toClient: nat, lost: nat)

  datatype Step =
    | Deliver(client: bool)
    | Complete(client: bool)
    | Reap(client: bool, wc: Wc)

  predicate PeerEnabled(c: Config, p: Peer, wire: nat, s: Step) {
    match s
    case Deliver(_) => wire > 0
    case Complete(_) => p.sendOut > 0
    case Reap(_, wc) => Going(c, p) && Known(wc) && (if wc.wr == SEND_WRID then p.sendCq else p.recvCq) > 0
  }

  predicate Enabled(c: Config, n: Net, s: Step) {
    if s.client then PeerEnabled(c, n.client, n.toClient, s) else PeerEnabled(c, n.server, n.toServer, s)
  }

  /** A message takes a receive, or is lost. */
  function Arrive(p: Peer): Peer {
    if p.rq > 0 then p.(rq := p.rq - 1, recvCq := p.recvCq + 1) else p
  }

  /** Takes a completion off the queue, if it is there, and handles it. */
  function ReapOne(c: Config, p: Peer, wc: Wc): Peer {
    if wc.wr == SEND_WRID then (if p.sendCq > 0 then Handle(c, p.(sendCq := p.sendCq - 1), wc) else p)
    else if wc.wr == RECV_WRID then (if p.recvCq > 0 then Handle(c, p.(recvCq := p.recvCq - 1), wc) else p)
    else Handle(c, p, wc)
  }

  function PeerStep(c: Config, p: Peer, s: Step): Peer {
    match s
    case Deliver(_) => Arrive(p)
    case Complete(_) => if p.sendOut > 0 then p.(sendOut := p.sendOut - 1, sendCq := p.sendCq + 1) else p
    case Reap(_, wc) => ReapOne(c, p, wc)
  }

  /** Each send posted puts one message on the wire; delivery takes one off. */
  function Next(c: Config, n: Net, s: Step): Net {
    var delivered := if s.Deliver? then 1 else 0;
    if s.client then
      var p := PeerStep(c, n.client, s);
      n.(client := p, toServer := n.toServer + Sent(n.client, p), toClient := Less(n.toClient, delivered),
         lost := n.lost + if s.Deliver? && n.client.rq == 0 then 1 else 0)
    else
      var p := PeerStep(c, n.server, s);
      n.(server := p, toClient := n.toClient + Sent(n.server, p), toServer := Less(n.toServer, delivered),
         lost := n.lost + if s.Deliver? && n.server.rq == 0 then 1 else 0)
  }

  function Sent(before: Peer, after: Peer): nat { Less(after.posts, before.posts) }

  function Less(a: nat, b: nat): nat { if a >= b then a - b else 0 }

  function Begin(c: Config): Net { Net(Start(c, true), Start(c, false), 1, 0, 0) }

  /** ns is a run: step k is enabled in ns[k] and takes it to ns[k + 1]. */
  ghost predicate IsRun(c: Config, ns: seq<Net>, steps: seq<Step>) {
    && |ns| == |steps| + 1 && ns[0] == Begin(c)
    && forall k {:trigger steps[k]} :: 0 <= k < |steps| ==>
         Enabled(c, ns[k], steps[k]) && ns[k + 1] == Next(c, ns[k], steps[k])
  }

  // ---- The invariant ----

  /** A peer that has received between `low` and low + 1 messages: `pending` holds exactly the
      events still owed, at most one send is unfinished, and the receives are accounted for. */
  ghost predicate PeerInv(c: Config, p: Peer, low: int) {
    && !p.failed && p.posts <= c.iters
    && p.scnt + p.sendOut + p.sendCq == p.posts <= p.scnt + 1
    && low <= p.rcnt <= low + 1 && p.rcnt <= c.iters
    && (p.pending & RECV_WRID != 0 <==> p.rcnt == low)
    && (p.pending & SEND_WRID != 0 <==> p.scnt < p.posts)
    && (p.pending == 0 ==> p.scnt >= c.iters)
    && p.routs == p.rq + p.recvCq && 1 <= p.routs <= c.rxDepth
  }

  /** The client sends first, so it waits for one message per post; the server is one ahead. */
  ghost predicate Inv(c: Config, n: Net) {
    && 1 <= n.client.posts && PeerInv(c, n.client, n.client.posts - 1) && PeerInv(c, n.server, n.server.posts)
    && n.client.posts == n.server.rcnt + n.server.recvCq + n.toServer
    && n.server.posts == n.client.rcnt + n.client.recvCq + n.toClient
    && n.lost == 0
  }

  /** How much a peer has got done: each send completes and is reaped, each message arrives
      and is reaped. */
  function PeerWork(p: Peer): nat { 2 * p.scnt + p.sendCq + 2 * p.rcnt + p.recvCq }

  function Work(n: Net): nat { PeerWork(n.client) + PeerWork(n.server) }

  lemma {:induction false} PostRecvFills(c: Config, p: Peer, n: nat)
    requires p.rq + p.recvCq + n <= c.rxDepth
    ensures PostRecv(c, p, n) == (p.(rq := p.rq + n), n)
    decreases n
  {
    if n > 0 {
      PostRecvFills(c, p.(rq := p.rq + 1), n - 1);
    }
  }

  /** Of n receives as many are posted as there is room for. */
  lemma {:induction false} PostRecvIs(c: Config, p: Peer, n: int)
    requires p.rq + p.recvCq <= c.rxDepth
    ensures var k := if n <= 0 then 0 else if n <= c.rxDepth - p.rq - p.recvCq then n else c.rxDepth - p.rq - p.recvCq;
            PostRecv(c, p, n) == (p.(rq := p.rq + k), k)
    decreases n
  {
    if n > 0 && p.rq + p.recvCq < c.rxDepth {
      PostRecvIs(c, p.(rq := p.rq + 1), n - 1);
    }
  }

  /** Receives that are replaced fill the queue, or else the process ends: exactly when there
      is no room for those that it thinks are missing. */
  lemma RefillFails(c: Config, p: Peer)
    requires !p.failed && p.routs <= 2 && p.routs <= c.rxDepth && p.rq + p.recvCq <= c.rxDepth
    ensures Count(c, p, RECV_WRID).failed <==> p.rq + p.recvCq > p.routs - 1
    ensures !Count(c, p, RECV_WRID).failed ==> Count(c, p, RECV_WRID).routs == c.rxDepth
  {
    PostRecvIs(c, p.(routs := p.routs - 1), c.rxDepth - (p.routs - 1));
  }

  /** Counting one completion of a peer in good order. */
  lemma CountIs(c: Config, p: Peer, wr: bv2)
    requires (wr == SEND_WRID || wr == RECV_WRID) && !p.failed
    requires wr == RECV_WRID ==> p.routs == p.rq + p.recvCq + 1 && 1 <= p.routs <= c.rxDepth
    ensures var q := Count(c, p, wr);
            if wr == SEND_WRID then q == p.(scnt := p.scnt + 1)
            else
              && q == p.(rcnt := p.rcnt + 1, routs := q.routs, rq := q.rq)
              && q.routs == q.rq + q.recvCq && 1 <= q.routs <= c.rxDepth && (p.routs > 2 ==> q.routs >= 2)
  {
    if wr == RECV_WRID && p.routs - 1 <= 1 {
      PostRecvFills(c, p.(routs := p.routs - 1), c.rxDepth - (p.routs - 1));
    }
  }

  /** Reaping keeps a peer in order if the completion was owed. */
  lemma HandleKeepsInv(c: Config, p: Peer, low: int, wc: Wc)
    requires PeerInv(c, p, low) && (low == p.posts || low == p.posts - 1) && wc.ok
    requires (wc.wr == SEND_WRID && p.sendCq > 0) || (wc.wr == RECV_WRID && p.recvCq > 0 && p.rcnt == low < c.iters)
    requires low == p.posts ==> p.rcnt <= c.iters
    ensures var q := ReapOne(c, p, wc);
            && PeerInv(c, q, low + q.posts - p.posts) && q.posts >= p.posts
            && q.rcnt == p.rcnt + (if wc.wr == RECV_WRID then 1 else 0)
            && q.recvCq == p.recvCq - (if wc.wr == RECV_WRID then 1 else 0)
            && q.scnt == p.scnt + (if wc.wr == SEND_WRID then 1 else 0)
            && q.sendCq == p.sendCq - (if wc.wr == SEND_WRID then 1 else 0)
  {
    CountIs(c, if wc.wr == SEND_WRID then p.(sendCq := p.sendCq - 1) else p.(recvCq := p.recvCq - 1), wc.wr);
  }

  lemma ClientReaps(c: Config, n: Net, wc: Wc)
    requires Inv(c, n) && Enabled(c, n, Reap(true, wc))
    ensures Inv(c, Next(c, n, Reap(true, wc))) && Work(Next(c, n, Reap(true, wc))) == Work(n) + 1
  {
    HandleKeepsInv(c, n.client, n.client.posts - 1, wc);
  }

  lemma ServerReaps(c: Config, n: Net, wc: Wc)
    requires Inv(c, n) && Enabled(c, n, Reap(false, wc))
    ensures Inv(c, Next(c, n, Reap(false, wc))) && Work(Next(c, n, Reap(false, wc))) == Work(n) + 1
  {
    HandleKeepsInv(c, n.server, n.server.posts, wc);
  }

  lemma QueueStep(c: Config, n: Net, s: Step)
    requires Inv(c, n) && Enabled(c, n, s) && !s.Reap?
    ensures Inv(c, Next(c, n, s)) && Work(Next(c, n, s)) == Work(n) + 1
  {
  }

  lemma NextKeepsInv(c: Config, n: Net, s: Step)
    requires Inv(c, n) && Enabled(c, n, s)
    ensures Inv(c, Next(c, n, s)) && Work(Next(c, n, s)) == Work(n) + 1
  {
    match s
    case Reap(true, wc) => ClientReaps(c, n, wc);
    case Reap(false, wc) => ServerReaps(c, n, wc);
    case _ => QueueStep(c, n, s);
  }

  lemma {:induction false} InvAlways(c: Config, ns: seq<Net>, steps: seq<Step>, k: nat)
    requires IsRun(c, ns, steps) && k < |ns| && 1 <= c.iters && 1 <= c.rxDepth
    ensures Inv(c, ns[k])
  {
    if k > 0 {
      InvAlways(c, ns, steps, k - 1);
      assert Enabled(c, ns[k - 1], steps[k - 1]) && ns[k - 1 + 1] == Next(c, ns[k - 1], steps[k - 1]);
      NextKeepsInv(c, ns[k - 1], steps[k - 1]);
    }
  }

  // ---- What follows ----

  /** In every interleaving the client is ahead by none or one, at most one send of each peer
      is unfinished, and nothing is lost or refused. */
  lemma InTurn(c: Config, ns: seq<Net>, steps: seq<Step>, k: nat)
    requires IsRun(c, ns, steps) && k < |ns| && 1 <= c.iters && 1 <= c.rxDepth
    ensures var n := ns[k];
            && n.server.posts <= n.client.posts <= n.server.posts + 1
            && n.client.sendOut + n.client.sendCq <= 1 && n.server.sendOut + n.server.sendCq <= 1
            && n.lost == 0 && !n.client.failed && !n.server.failed
  {
    InvAlways(c, ns, steps, k);
  }

  /** `pending` is exactly the set of events still owed: the send that is unfinished, and the
      answer that has not been counted. */
  lemma PendingIsOwed(c: Config, ns: seq<Net>, steps: seq<Step>, k: nat)
    requires IsRun(c, ns, steps) && k < |ns| && 1 <= c.iters && 1 <= c.rxDepth
    ensures var p := ns[k].client;
            (p.pending & SEND_WRID != 0 <==> p.scnt < p.posts) && (p.pending & RECV_WRID != 0 <==> p.rcnt < p.posts)
    ensures var p := ns[k].server;
            (p.pending & SEND_WRID != 0 <==> p.scnt < p.posts) && (p.pending & RECV_WRID != 0 <==> p.rcnt <= p.posts)
  {
    InvAlways(c, ns, steps, k);
  }

  /** A receive is posted whenever a message is on its way, all receives are accounted for,
      and the completion queue of rx_depth + 1 entries cannot overflow. */
  lemma QueueBounds(c: Config, ns: seq<Net>, steps: seq<Step>, k: nat)
    requires IsRun(c, ns, steps) && k < |ns| && 1 <= c.iters && 1 <= c.rxDepth
    ensures var n := ns[k];
            && 1 <= n.client.routs == n.client.rq + n.client.recvCq <= c.rxDepth
            && 1 <= n.server.routs == n.server.rq + n.server.recvCq <= c.rxDepth
            && (n.toClient > 0 ==> n.client.rq > 0) && (n.toServer > 0 ==> n.server.rq > 0)
            && n.client.recvCq + n.client.sendCq <= 2 <= c.rxDepth + 1
            && n.server.recvCq + n.server.sendCq <= 2 <= c.rxDepth + 1
  {
    InvAlways(c, ns, steps, k);
  }

  predicate Done(c: Config, n: Net) { !Going(c, n.client) && !Going(c, n.server) }

  /** A peer that has finished has no completion waiting, so it makes no difference that the
      loop condition is looked at only between polls and not between completions. */
  lemma FinishedHasReapedAll(c: Config, ns: seq<Net>, steps: seq<Step>, k: nat)
    requires IsRun(c, ns, steps) && k < |ns| && 1 <= c.iters && 1 <= c.rxDepth
    ensures !Going(c, ns[k].client) ==> ns[k].client.recvCq == 0 && ns[k].client.sendCq == 0
    ensures !Going(c, ns[k].server) ==> ns[k].server.recvCq == 0 && ns[k].server.sendCq == 0
  {
    InvAlways(c, ns, steps, k);
  }

  /** A step that is possible in an unfinished state. */
  function Possible(n: Net): Step {
    if n.client.sendOut > 0 then Complete(true)
    else if n.client.sendCq > 0 then Reap(true, Wc(true, SEND_WRID))
    else if n.client.recvCq > 0 then Reap(true, Wc(true, RECV_WRID))
    else if n.toClient > 0 then Deliver(true)
    else if n.server.sendOut > 0 then Complete(false)
    else if n.server.sendCq > 0 then Reap(false, Wc(true, SEND_WRID))
    else if n.server.recvCq > 0 then Reap(false, Wc(true, RECV_WRID))
    else Deliver(false)
  }

  /** No unfinished state is stuck, and in a finished one both peers have sent and received
      iters messages and nothing is left to do. */
  lemma NeverStuck(c: Config, n: Net)
    requires Inv(c, n) && 1 <= c.iters
    ensures !Done(c, n) ==> Enabled(c, n, Possible(n))
    ensures Done(c, n) ==>
              && n.client.scnt == n.client.rcnt == n.server.scnt == n.server.rcnt == c.iters
              && Work(n) == 8 * c.iters && forall s: Step :: !Enabled(c, n, s)
  {
  }

  lemma {:induction false} WorkDone(c: Config, ns: seq<Net>, steps: seq<Step>, k: nat)
    requires IsRun(c, ns, steps) && k < |ns| && 1 <= c.iters && 1 <= c.rxDepth
    ensures Inv(c, ns[k]) && Work(ns[k]) == k
  {
    if k > 0 {
      WorkDone(c, ns, steps, k - 1);
      assert Enabled(c, ns[k - 1], steps[k - 1]) && ns[k - 1 + 1] == Next(c, ns[k - 1], steps[k - 1]);
      NextKeepsInv(c, ns[k - 1], steps[k - 1]);
    }
  }

  lemma WorkBound(c: Config, n: Net)
    requires Inv(c, n)
    ensures Work(n) <= 8 * c.iters
  {
  }

  /** Agreement: every run ends after exactly 8 * iters steps, in whatever order they come;
      until then something can always happen, and then both peers have scnt = rcnt = iters. */
  lemma Agreement(c: Config, ns: seq<Net>, steps: seq<Step>)
    requires IsRun(c, ns, steps) && 1 <= c.iters && 1 <= c.rxDepth
    ensures |steps| <= 8 * c.iters
    ensures var n := ns[|steps|];
            && (Done(c, n) <==> |steps| == 8 * c.iters)
            && (!Done(c, n) ==> Enabled(c, n, Possible(n)))
            && (Done(c, n) ==> n.client.scnt == n.client.rcnt == n.server.scnt == n.server.rcnt == c.iters)
  {
    WorkDone(c, ns, steps, |steps|);
    NeverStuck(c, ns[|steps|]);
    WorkBound(c, ns[|steps|]);
    if !Done(c, ns[|steps|]) {
      NextKeepsInv(c, ns[|steps|], Possible(ns[|steps|]));
      WorkBound(c, Next(c, ns[|steps|], Possible(ns[|steps|])));
    }
  }
}
