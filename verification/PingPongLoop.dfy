/** The completion loop of one process, and what it does inside the system of two. */
module PingPongLoop {
  import opened PingPong

  /** The completions of one poll, handled one after the other; a peer that gives up stops. */
  function ReapAll(c: Config, p: Peer, wcs: seq<Wc>): Peer
    decreases |wcs|
  {
    if wcs == [] || p.failed then p else ReapAll(c, ReapOne(c, p, wcs[0]), wcs[1..])
  }

  /** What happens to a peer's queues between two polls: messages arrive, sends complete. */
  function Outside(c: Config, p: Peer, client: bool, env: seq<Step>): Peer
    decreases |env|
  {
    if env == [] then p
    else
      var q := if env[0].client == client && !env[0].Reap? then PeerStep(c, p, env[0]) else p;
      Outside(c, q, client, env[1..])
  }

  /** One turn of the outer loop: what has happened since the last poll, and what it returns. */
  datatype Round = Round(env: seq<Step>, wcs: seq<Wc>)

  /** The outer loop, whose condition is looked at only between polls. */
  function Loop(c: Config, p: Peer, client: bool, rounds: seq<Round>): Peer
    decreases |rounds|
  {
    if rounds == [] || !Going(c, p) then p
    else Loop(c, ReapAll(c, Outside(c, p, client, rounds[0].env), rounds[0].wcs), client, rounds[1..])
  }

  /** The completion is there to be taken; one of an unknown id always is. */
  predicate OnQueue(p: Peer, wc: Wc) {
    (wc.wr == SEND_WRID ==> p.sendCq > 0) && (wc.wr == RECV_WRID ==> p.recvCq > 0)
  }

  /** A failed status or an unknown id ends the process there and then: nothing is counted,
      struck off or sent for it, and nothing that comes after it is handled. */
  lemma BadCompletionEnds(c: Config, p: Peer, wc: Wc, later: seq<Wc>, client: bool, rounds: seq<Round>)
    requires !p.failed && OnQueue(p, wc) && !Known(wc)
    ensures var q := ReapAll(c, p, [wc] + later);
            && q.failed && q.scnt == p.scnt && q.rcnt == p.rcnt && q.routs == p.routs && q.rq == p.rq
            && q.posts == p.posts && q.sendOut == p.sendOut && q.pending == p.pending
            && Loop(c, q, client, rounds) == q
  {
    assert ([wc] + later)[1..] == later;
  }

  // ---- The same rounds in the system ----

  function PeerOf(n: Net, client: bool): Peer { if client then n.client else n.server }

  /** The system after some steps. */
  function After(c: Config, n: Net, steps: seq<Step>): Net
    decreases |steps|
  {
    if steps == [] then n else After(c, Next(c, n, steps[0]), steps[1..])
  }

  ghost predicate AllEnabled(c: Config, n: Net, steps: seq<Step>)
    decreases |steps|
  {
    steps == [] || (Enabled(c, n, steps[0]) && AllEnabled(c, Next(c, n, steps[0]), steps[1..]))
  }

  function Reaps(client: bool, wcs: seq<Wc>): (steps: seq<Step>)
    ensures |steps| == |wcs|
  {
    if wcs == [] then [] else [Reap(client, wcs[0])] + Reaps(client, wcs[1..])
  }

  function CountOf(wcs: seq<Wc>, wr: bv2): nat {
    if wcs == [] then 0 else (if wcs[0].wr == wr then 1 else 0) + CountOf(wcs[1..], wr)
  }

  /** The completions are on the peer's queue. */
  ghost predicate Queued(p: Peer, wcs: seq<Wc>) {
    && (forall k :: 0 <= k < |wcs| ==> Known(wcs[k]))
    && CountOf(wcs, SEND_WRID) <= p.sendCq && CountOf(wcs, RECV_WRID) <= p.recvCq
  }

  /** A peer with a completion waiting has not finished. */
  lemma WaitingIsGoing(c: Config, n: Net, client: bool)
    requires Inv(c, n) && PeerOf(n, client).sendCq + PeerOf(n, client).recvCq > 0
    ensures Going(c, PeerOf(n, client))
  {
  }

  lemma QueuedIsEnabled(c: Config, n: Net, client: bool, wcs: seq<Wc>)
    requires Inv(c, n) && wcs != [] && Queued(PeerOf(n, client), wcs)
    ensures Enabled(c, n, Reap(client, wcs[0]))
  {
    assert Known(wcs[0]);
    WaitingIsGoing(c, n, client);
  }

  /** A step changes its own peer by its peer step, and the other not at all. */
  lemma StepOf(c: Config, n: Net, s: Step)
    ensures PeerOf(Next(c, n, s), s.client) == PeerStep(c, PeerOf(n, s.client), s)
    ensures PeerOf(Next(c, n, s), !s.client) == PeerOf(n, !s.client)
  {
  }

  /** One completion fewer is queued, and the others still are. */
  lemma RestIsQueued(c: Config, p: Peer, low: int, wcs: seq<Wc>)
    requires PeerInv(c, p, low) && (low == p.posts || low == p.posts - 1) && wcs != [] && Queued(p, wcs)
    requires wcs[0].wr == RECV_WRID ==> p.rcnt == low < c.iters
    ensures Queued(ReapOne(c, p, wcs[0]), wcs[1..])
  {
    assert Known(wcs[0]);
    HandleKeepsInv(c, p, low, wcs[0]);
  }

  /** The first completion of a poll can be reaped. */
  lemma FirstIsReaped(c: Config, n: Net, client: bool, wcs: seq<Wc>)
    requires Inv(c, n) && wcs != [] && Queued(PeerOf(n, client), wcs)
    ensures var s := Reap(client, wcs[0]);
            Enabled(c, n, s) && Inv(c, Next(c, n, s)) && Work(Next(c, n, s)) == Work(n) + 1
  {
    QueuedIsEnabled(c, n, client, wcs);
    NextKeepsInv(c, n, Reap(client, wcs[0]));
  }

  lemma PeersAfterFirst(c: Config, n: Net, client: bool, wcs: seq<Wc>, q: Peer)
    requires Inv(c, n) && wcs != [] && Queued(PeerOf(n, client), wcs) && q == ReapOne(c, PeerOf(n, client), wcs[0])
    ensures Queued(q, wcs[1..]) && ReapAll(c, PeerOf(n, client), wcs) == ReapAll(c, q, wcs[1..])
  {
    assert Known(wcs[0]);
    RestIsQueued(c, PeerOf(n, client), if client then n.client.posts - 1 else n.server.posts, wcs);
  }

  /** The system after the first completion of a poll. */
  lemma AfterFirst(c: Config, n: Net, client: bool, wcs: seq<Wc>) returns (m: Net)
    requires Inv(c, n) && wcs != [] && Queued(PeerOf(n, client), wcs)
    ensures Inv(c, m) && Work(m) == Work(n) + 1 && PeerOf(m, !client) == PeerOf(n, !client)
    ensures Queued(PeerOf(m, client), wcs[1..])
    ensures ReapAll(c, PeerOf(n, client), wcs) == ReapAll(c, PeerOf(m, client), wcs[1..])
    ensures After(c, n, Reaps(client, wcs)) == After(c, m, Reaps(client, wcs[1..]))
    ensures AllEnabled(c, m, Reaps(client, wcs[1..])) ==> AllEnabled(c, n, Reaps(client, wcs))
  {
    m := Next(c, n, Reap(client, wcs[0]));
    FirstIsReaped(c, n, client, wcs);
    StepOf(c, n, Reap(client, wcs[0]));
    PeersAfterFirst(c, n, client, wcs, PeerOf(m, client));
    assert Reaps(client, wcs)[1..] == Reaps(client, wcs[1..]);
  }

  /** The loop over one poll's completions is that many steps of the system, each of them
      possible, and it leaves the other peer alone. */
  lemma {:induction false} BatchIsReaps(c: Config, n: Net, client: bool, wcs: seq<Wc>)
    requires Inv(c, n) && Queued(PeerOf(n, client), wcs)
    ensures AllEnabled(c, n, Reaps(client, wcs))
    ensures var m := After(c, n, Reaps(client, wcs));
            && Inv(c, m) && Work(m) == Work(n) + |wcs|
            && PeerOf(m, client) == ReapAll(c, PeerOf(n, client), wcs) && PeerOf(m, !client) == PeerOf(n, !client)
    decreases |wcs|
  {
    if wcs != [] {
      var m := AfterFirst(c, n, client, wcs);
      BatchIsReaps(c, m, client, wcs[1..]);
    }
  }

  /** Steps between two polls of a peer: anything but its own reaping. */
  ghost predicate NotOwn(client: bool, env: seq<Step>) {
    forall k :: 0 <= k < |env| ==> !(env[k].Reap? && env[k].client == client)
  }

  lemma OneIsOutside(c: Config, n: Net, client: bool, env: seq<Step>, m: Net)
    requires env != [] && m == Next(c, n, env[0]) && NotOwn(client, env)
    ensures Outside(c, PeerOf(n, client), client, env) == Outside(c, PeerOf(m, client), client, env[1..])
  {
    StepOf(c, n, env[0]);
  }

  lemma NextIsOutside(c: Config, n: Net, client: bool, env: seq<Step>) returns (m: Net)
    requires env != [] && Inv(c, n) && AllEnabled(c, n, env) && NotOwn(client, env)
    ensures Inv(c, m) && Work(m) == Work(n) + 1 && AllEnabled(c, m, env[1..]) && NotOwn(client, env[1..])
    ensures After(c, n, env) == After(c, m, env[1..])
    ensures Outside(c, PeerOf(n, client), client, env) == Outside(c, PeerOf(m, client), client, env[1..])
  {
    m := Next(c, n, env[0]);
    NextKeepsInv(c, n, env[0]);
    OneIsOutside(c, n, client, env, m);
  }

  /** Whatever else happens in the system changes a peer only by what happens to its queues. */
  lemma {:induction false} OthersAreOutside(c: Config, n: Net, client: bool, env: seq<Step>)
    requires Inv(c, n) && AllEnabled(c, n, env) && NotOwn(client, env)
    ensures Inv(c, After(c, n, env)) && Work(After(c, n, env)) == Work(n) + |env|
    ensures PeerOf(After(c, n, env), client) == Outside(c, PeerOf(n, client), client, env)
    decreases |env|
  {
    if env != [] {
      var m := NextIsOutside(c, n, client, env);
      OthersAreOutside(c, m, client, env[1..]);
    }
  }

  function AfterRound(c: Config, n: Net, client: bool, r: Round): Net {
    After(c, After(c, n, r.env), Reaps(client, r.wcs))
  }

  ghost predicate RoundFits(c: Config, n: Net, client: bool, r: Round) {
    AllEnabled(c, n, r.env) && NotOwn(client, r.env) && Queued(PeerOf(After(c, n, r.env), client), r.wcs)
  }

  lemma RoundIsSteps(c: Config, n: Net, client: bool, r: Round)
    requires Inv(c, n) && RoundFits(c, n, client, r)
    ensures var m := AfterRound(c, n, client, r);
            && Inv(c, m) && Work(m) == Work(n) + |r.env| + |r.wcs|
            && PeerOf(m, client) == ReapAll(c, Outside(c, PeerOf(n, client), client, r.env), r.wcs)
  {
    OthersAreOutside(c, n, client, r.env);
    BatchIsReaps(c, After(c, n, r.env), client, r.wcs);
  }

  /** The rounds fit the system: each poll returns completions that are queued by then. */
  ghost predicate RoundsFit(c: Config, n: Net, client: bool, rounds: seq<Round>)
    decreases |rounds|
  {
    rounds == [] || !Going(c, PeerOf(n, client))
    || (RoundFits(c, n, client, rounds[0])
        && RoundsFit(c, AfterRound(c, n, client, rounds[0]), client, rounds[1..]))
  }

  /** All steps that the rounds take, until the loop ends. */
  function LoopSteps(c: Config, n: Net, client: bool, rounds: seq<Round>): seq<Step>
    decreases |rounds|
  {
    if rounds == [] || !Going(c, PeerOf(n, client)) then []
    else rounds[0].env + (Reaps(client, rounds[0].wcs)
                          + LoopSteps(c, AfterRound(c, n, client, rounds[0]), client, rounds[1..]))
  }

  lemma {:induction false} AfterConcat(c: Config, n: Net, a: seq<Step>, b: seq<Step>)
    ensures After(c, n, a + b) == After(c, After(c, n, a), b)
    ensures AllEnabled(c, n, a) && AllEnabled(c, After(c, n, a), b) ==> AllEnabled(c, n, a + b)
    decreases |a|
  {
    if a == [] {
      assert a + b == b;
    } else {
      AfterConcat(c, Next(c, n, a[0]), a[1..], b);
      assert (a + b)[1..] == a[1..] + b;
    }
  }

  /** One round, followed by the steps of the others. */
  lemma RoundThenRest(c: Config, n: Net, client: bool, r: Round, rest: seq<Step>)
    requires Inv(c, n) && RoundFits(c, n, client, r)
    ensures var all := r.env + (Reaps(client, r.wcs) + rest);
            && After(c, n, all) == After(c, AfterRound(c, n, client, r), rest)
            && (AllEnabled(c, AfterRound(c, n, client, r), rest) ==> AllEnabled(c, n, all))
  {
    var m := After(c, n, r.env);
    OthersAreOutside(c, n, client, r.env);
    BatchIsReaps(c, m, client, r.wcs);
    AfterConcat(c, m, Reaps(client, r.wcs), rest);
    AfterConcat(c, n, r.env, Reaps(client, r.wcs) + rest);
  }

  /** The system after the first round of a loop. */
  lemma AfterFirstRound(c: Config, n: Net, client: bool, rounds: seq<Round>) returns (m: Net)
    requires Inv(c, n) && RoundsFit(c, n, client, rounds) && rounds != [] && Going(c, PeerOf(n, client))
    ensures Inv(c, m) && RoundsFit(c, m, client, rounds[1..])
    ensures Loop(c, PeerOf(n, client), client, rounds) == Loop(c, PeerOf(m, client), client, rounds[1..])
    ensures var all, rest := LoopSteps(c, n, client, rounds), LoopSteps(c, m, client, rounds[1..]);
            && Work(m) - Work(n) == |all| - |rest| && After(c, n, all) == After(c, m, rest)
            && (AllEnabled(c, m, rest) ==> AllEnabled(c, n, all))
  {
    m := AfterRound(c, n, client, rounds[0]);
    RoundIsSteps(c, n, client, rounds[0]);
    RoundThenRest(c, n, client, rounds[0], LoopSteps(c, m, client, rounds[1..]));
  }

  /** The process's whole loop, with whatever happens in the system between its polls, is a
      run of the system, each step of which is possible: so all that holds of those runs holds
      of the loop. When it ends, the peer has sent and received iters messages. */
  lemma {:induction false} LoopIsRun(c: Config, n: Net, client: bool, rounds: seq<Round>)
    requires Inv(c, n) && RoundsFit(c, n, client, rounds)
    ensures var steps := LoopSteps(c, n, client, rounds);
            var m := After(c, n, steps);
            var p := Loop(c, PeerOf(n, client), client, rounds);
            && AllEnabled(c, n, steps) && Inv(c, m) && Work(m) == Work(n) + |steps|
            && PeerOf(m, client) == p && !p.failed && (!Going(c, p) ==> p.scnt == p.rcnt == c.iters)
    decreases |rounds|
  {
    if rounds != [] && Going(c, PeerOf(n, client)) {
      var m := AfterFirstRound(c, n, client, rounds);
      LoopIsRun(c, m, client, rounds[1..]);
    }
  }
}
