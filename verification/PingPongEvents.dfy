/** Event mode: a process sleeps until its completion queue reports an event, asks for the
    next one, and then polls once. No wake-up is lost. */
module PingPongEvents {
  import opened PingPong
  import opened PingPongLoop

  /** Where a process is in a turn of its outer loop. */
  datatype Phase = Sleeping | Asking | Polling | Handling | Over

  /** The completion channel of a process: whether a notification is asked for, the events
      that wait on it, how many have been taken, and the completions of the last poll that are
      still to be handled. */
  datatype Channel = Channel(phase: Phase, armed: bool, waiting: nat, taken: nat, batch: nat)

  /** The notification is asked for before anything is sent. */
  const NEW_CHANNEL := Channel(Sleeping, true, 0, 0, 0)

  /** One poll takes at most two completions. */
  const POLL_SIZE: nat := 2

  datatype System = System(net: Net, client: Channel, server: Channel)

  datatype Move =
    | Of(step: Step)      // a step of the two peers, their queues and the wire
    | Turn(client: bool)  // a process goes on to the next phase

  function ChannelOf(x: System, client: bool): Channel { if client then x.client else x.server }

  function Waiting(p: Peer): nat { p.recvCq + p.sendCq }

  /** A completion reaches the queue: an event if one was asked for, and then no other. */
  function Notify(e: Channel): Channel {
    if e.armed then e.(armed := false, waiting := e.waiting + 1) else e
  }

  function GoOn(c: Config, p: Peer, e: Channel): Channel {
    match e.phase
    case Sleeping => if e.waiting > 0 then e.(waiting := e.waiting - 1, taken := e.taken + 1, phase := Asking) else e
    case Asking => e.(armed := true, phase := Polling)
    case Polling => e.(batch := if Waiting(p) < POLL_SIZE then Waiting(p) else POLL_SIZE, phase := Handling)
    case Handling => if e.batch == 0 then e.(phase := if Going(c, p) then Sleeping else Over) else e
    case Over => e
  }

  predicate CanGoOn(e: Channel) {
    match e.phase
    case Sleeping => e.waiting > 0
    case Handling => e.batch == 0
    case Over => false
    case _ => true
  }

  predicate MoveEnabled(c: Config, x: System, v: Move) {
    match v
    case Of(s) => Enabled(c, x.net, s) && (s.Reap? ==> ChannelOf(x, s.client).batch > 0)
    case Turn(client) => CanGoOn(ChannelOf(x, client))
  }

  /** What a step of a peer does to its channel. */
  function Report(p: Peer, e: Channel, s: Step): Channel {
    match s
    case Deliver(_) => if p.rq > 0 then Notify(e) else e
    case Complete(_) => if p.sendOut > 0 then Notify(e) else e
    case Reap(_, _) => if e.batch > 0 then e.(batch := e.batch - 1) else e
  }

  /** The system after step s has taken the peers to n. */
  function Reported(x: System, s: Step, n: Net): System {
    var e := Report(PeerOf(x.net, s.client), ChannelOf(x, s.client), s);
    if s.client then System(n, e, x.server) else System(n, x.client, e)
  }

  function NextMove(c: Config, x: System, v: Move): System {
    match v
    case Of(s) => Reported(x, s, Next(c, x.net, s))
    case Turn(client) =>
      var e := GoOn(c, PeerOf(x.net, client), ChannelOf(x, client));
      if client then x.(client := e) else x.(server := e)
  }

  ghost predicate MoveAt(c: Config, xs: seq<System>, vs: seq<Move>, k: nat)
    requires k < |vs| < |xs|
  {
    MoveEnabled(c, xs[k], vs[k]) && xs[k + 1] == NextMove(c, xs[k], vs[k])
  }

  /** xs is a run of two processes in event mode. */
  ghost predicate IsEventRun(c: Config, xs: seq<System>, vs: seq<Move>) {
    && |xs| == |vs| + 1 && xs[0] == System(Begin(c), NEW_CHANNEL, NEW_CHANNEL)
    && forall k :: 0 <= k < |vs| ==> MoveAt(c, xs, vs, k)
  }

  // ---- The invariant ----

  /** The completions a peer has had. */
  function Arrived(p: Peer): nat { p.scnt + p.sendCq + p.rcnt + p.recvCq }

  /** A notification is asked for, or has come and waits, or is about to be asked for again;
      while it is asked for and not yet polled for, nothing waits but what is being handled. */
  ghost predicate ChannelInv(c: Config, p: Peer, e: Channel) {
    && (if e.armed then 1 else 0) + e.waiting == (if e.phase == Asking then 0 else 1)
    && e.batch <= Waiting(p) && (e.phase != Handling ==> e.batch == 0)
    && (e.armed && e.phase != Polling ==> Waiting(p) == e.batch)
    && e.taken + e.waiting <= Arrived(p)
    && (e.phase == Over ==> !Going(c, p)) && (e.phase != Over && e.phase != Handling ==> Going(c, p))
  }

  ghost predicate SystemInv(c: Config, x: System) {
    Inv(c, x.net) && ChannelInv(c, x.net.client, x.client) && ChannelInv(c, x.net.server, x.server)
  }

  /** At most two completions ever wait, so one poll takes them all. */
  lemma OnePollTakesAll(c: Config, n: Net, client: bool)
    requires Inv(c, n)
    ensures Waiting(PeerOf(n, client)) <= POLL_SIZE
    ensures !Going(c, PeerOf(n, client)) ==> Waiting(PeerOf(n, client)) == 0
    ensures Arrived(PeerOf(n, client)) <= 2 * c.iters
  {
  }

  lemma GoOnKeepsChannel(c: Config, p: Peer, e: Channel)
    requires ChannelInv(c, p, e) && CanGoOn(e) && Waiting(p) <= POLL_SIZE
    ensures ChannelInv(c, p, GoOn(c, p, e))
  {
  }

  /** A message that arrives, or a send that completes, reaches the queue. */
  lemma ArrivalReports(c: Config, p: Peer, e: Channel, s: Step)
    requires ChannelInv(c, p, e) && (s.Complete? || s.Deliver?) && (if s.Complete? then p.sendOut else p.rq) > 0
    ensures ChannelInv(c, PeerStep(c, p, s), Report(p, e, s))
  {
  }

  lemma ReapReports(c: Config, p: Peer, low: int, e: Channel, s: Step)
    requires ChannelInv(c, p, e) && s.Reap? && e.batch > 0
    requires PeerInv(c, p, low) && (low == p.posts || low == p.posts - 1) && Known(s.wc)
    requires if s.wc.wr == SEND_WRID then p.sendCq > 0 else p.recvCq > 0 && p.rcnt == low < c.iters
    ensures ChannelInv(c, PeerStep(c, p, s), Report(p, e, s))
  {
    HandleKeepsInv(c, p, low, s.wc);
  }

  lemma StepKeepsChannel(c: Config, x: System, s: Step)
    requires SystemInv(c, x) && MoveEnabled(c, x, Of(s))
    ensures var p := PeerOf(x.net, s.client);
            ChannelInv(c, PeerStep(c, p, s), Report(p, ChannelOf(x, s.client), s))
  {
    var p, e := PeerOf(x.net, s.client), ChannelOf(x, s.client);
    if s.Reap? {
      ReapReports(c, p, if s.client then p.posts - 1 else p.posts, e, s);
    } else {
      ArrivalReports(c, p, e, s);
    }
  }

  lemma MoveKeepsInv(c: Config, x: System, v: Move)
    requires SystemInv(c, x) && MoveEnabled(c, x, v)
    ensures SystemInv(c, NextMove(c, x, v))
  {
    match v
    case Of(s) =>
      NextKeepsInv(c, x.net, s);
      StepKeepsChannel(c, x, s);
      StepOf(c, x.net, s);
    case Turn(client) =>
      OnePollTakesAll(c, x.net, client);
      GoOnKeepsChannel(c, PeerOf(x.net, client), ChannelOf(x, client));
  }

  // ---- How long a run is ----

  /** How many of its own moves a process has made. */
  function TurnsTaken(e: Channel): int {
    4 * e.taken - (match e.phase
                   case Asking => 3
                   case Polling => 2
                   case Handling => 1
                   case _ => 0)
  }

  function Moves(x: System): int { Work(x.net) + TurnsTaken(x.client) + TurnsTaken(x.server) }

  lemma ReportedMoves(x: System, s: Step, n: Net)
    requires Work(n) == Work(x.net) + 1
    ensures Moves(Reported(x, s, n)) == Moves(x) + 1
  {
  }

  lemma TurnMoves(c: Config, x: System, client: bool)
    requires SystemInv(c, x) && CanGoOn(ChannelOf(x, client))
    ensures Moves(NextMove(c, x, Turn(client))) == Moves(x) + 1
  {
  }

  lemma OneMove(c: Config, x: System, v: Move)
    requires SystemInv(c, x) && MoveEnabled(c, x, v)
    ensures Moves(NextMove(c, x, v)) == Moves(x) + 1
  {
    match v
    case Of(s) =>
      NextKeepsInv(c, x.net, s);
      ReportedMoves(x, s, Next(c, x.net, s));
    case Turn(client) => TurnMoves(c, x, client);
  }

  lemma TurnsBound(c: Config, p: Peer, e: Channel)
    requires ChannelInv(c, p, e) && Arrived(p) <= 2 * c.iters
    ensures TurnsTaken(e) <= 8 * c.iters
  {
  }

  lemma MovesBound(c: Config, x: System)
    requires SystemInv(c, x)
    ensures Moves(x) <= 24 * c.iters
  {
    WorkBound(c, x.net);
    OnePollTakesAll(c, x.net, true);
    OnePollTakesAll(c, x.net, false);
    TurnsBound(c, x.net.client, x.client);
    TurnsBound(c, x.net.server, x.server);
  }

  lemma MoveStep(c: Config, xs: seq<System>, vs: seq<Move>, k: nat)
    requires IsEventRun(c, xs, vs) && k < |vs| && SystemInv(c, xs[k])
    ensures SystemInv(c, xs[k + 1]) && Moves(xs[k + 1]) == Moves(xs[k]) + 1
  {
    assert MoveAt(c, xs, vs, k);
    MoveKeepsInv(c, xs[k], vs[k]);
    OneMove(c, xs[k], vs[k]);
  }

  lemma FirstIsInv(c: Config, x: System)
    requires x == System(Begin(c), NEW_CHANNEL, NEW_CHANNEL) && 1 <= c.iters && 1 <= c.rxDepth
    ensures SystemInv(c, x) && Moves(x) == 0
  {
  }

  lemma {:induction false} EventsAlways(c: Config, xs: seq<System>, vs: seq<Move>, k: nat)
    requires IsEventRun(c, xs, vs) && k < |xs| && 1 <= c.iters && 1 <= c.rxDepth
    ensures SystemInv(c, xs[k]) && Moves(xs[k]) == k
  {
    if k > 0 {
      EventsAlways(c, xs, vs, k - 1);
      MoveStep(c, xs, vs, k - 1);
    } else {
      FirstIsInv(c, xs[0]);
    }
  }

  // ---- What follows ----

  /** No wake-up is lost: a process that sleeps without an event has nothing on its queue, and
      the next completion will wake it. And no more events are taken than completions came. */
  lemma NoLostWakeUp(c: Config, xs: seq<System>, vs: seq<Move>, k: nat, client: bool)
    requires IsEventRun(c, xs, vs) && k < |xs| && 1 <= c.iters && 1 <= c.rxDepth
    ensures var p, e := PeerOf(xs[k].net, client), ChannelOf(xs[k], client);
            && (e.phase == Sleeping && e.waiting == 0 ==> e.armed && Waiting(p) == 0)
            && e.waiting <= 1 && e.taken <= Arrived(p) <= 2 * c.iters
  {
    EventsAlways(c, xs, vs, k);
    OnePollTakesAll(c, xs[k].net, client);
  }

  predicate BothOver(x: System) { x.client.phase == Over && x.server.phase == Over }

  /** What a process can do by itself: go on, or handle a completion of its last poll. */
  function Own(x: System, client: bool): Move {
    var p, e := PeerOf(x.net, client), ChannelOf(x, client);
    if e.phase == Handling && e.batch > 0 then
      Of(Reap(client, Wc(true, if p.sendCq > 0 then SEND_WRID else RECV_WRID)))
    else Turn(client)
  }

  /** A process that is neither asleep nor over can go on. */
  predicate Awake(e: Channel) { e.phase != Over && (e.phase == Sleeping ==> e.waiting > 0) }

  function PossibleMove(x: System): Move {
    if Awake(x.client) then Own(x, true) else if Awake(x.server) then Own(x, false) else Of(Possible(x.net))
  }

  lemma AwakeGoesOn(c: Config, x: System, client: bool)
    requires SystemInv(c, x) && Awake(ChannelOf(x, client))
    ensures MoveEnabled(c, x, Own(x, client))
  {
    OnePollTakesAll(c, x.net, client);
  }

  lemma NeverAsleepForEver(c: Config, x: System)
    requires SystemInv(c, x) && 1 <= c.iters && !BothOver(x)
    ensures MoveEnabled(c, x, PossibleMove(x))
  {
    if Awake(x.client) {
      AwakeGoesOn(c, x, true);
    } else if Awake(x.server) {
      AwakeGoesOn(c, x, false);
    } else {
      OnePollTakesAll(c, x.net, true);
      OnePollTakesAll(c, x.net, false);
      NeverStuck(c, x.net);
    }
  }

  lemma OverMeansDone(c: Config, x: System)
    requires SystemInv(c, x) && BothOver(x) && 1 <= c.iters
    ensures var n := x.net; n.client.scnt == n.client.rcnt == n.server.scnt == n.server.rcnt == c.iters
  {
    NeverStuck(c, x.net);
  }

  /** Every run in event mode ends, after at most 24 * iters moves; until both processes are
      over something can always happen, and then both have sent and received iters messages. */
  lemma EventsAgree(c: Config, xs: seq<System>, vs: seq<Move>)
    requires IsEventRun(c, xs, vs) && 1 <= c.iters && 1 <= c.rxDepth
    ensures |vs| <= 24 * c.iters
    ensures var x := xs[|vs|];
            if BothOver(x) then
              var n := x.net; n.client.scnt == n.client.rcnt == n.server.scnt == n.server.rcnt == c.iters
            else MoveEnabled(c, x, PossibleMove(x))
  {
    var x := xs[|vs|];
    EventsAlways(c, xs, vs, |vs|);
    MovesBound(c, x);
    if BothOver(x) {
      OverMeansDone(c, x);
    } else {
      NeverAsleepForEver(c, x);
    }
  }
}
