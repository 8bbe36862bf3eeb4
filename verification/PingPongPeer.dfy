/** The state of one ping-pong process, updated in place by its completion loop. */
module PingPongPeer {
  import opened PingPong
  import opened PingPongLoop

  class PingPongPeer {
    const cfg: Config
    const client: bool
    var pending: bv2
    var scnt: nat
    var rcnt: nat
    var routs: int
    var posts: nat
    var rq: nat
    var recvCq: nat
    var sendOut: nat
    var sendCq: nat
    var failed: bool

    function View(): Peer
      reads this
    {
      Peer(pending, scnt, rcnt, routs, posts, rq, recvCq, sendOut, sendCq, failed)
    }

    /** The state at the head of the loop; the client has posted its first send. */
    constructor (cfg: Config, client: bool)
      ensures this.cfg == cfg && this.client == client && View() == Start(cfg, client)
    {
      this.cfg, this.client := cfg, client;
      pending, scnt, rcnt, routs, posts := RECV_WRID, 0, 0, cfg.rxDepth, 0;
      rq, recvCq, sendOut, sendCq, failed := cfg.rxDepth, 0, 0, 0, false;
      new;
      if client { PostSend(); }
    }

    /** pp_post_recv: posts up to n receives and says how many were accepted. */
    method PostRecv(n: int) returns (posted: nat)
      modifies this`rq
      ensures (View(), posted) == PingPong.PostRecv(cfg, old(View()), n)
    {
      posted := 0;
      ghost var all := PingPong.PostRecv(cfg, View(), n);
      while posted < n && rq + recvCq < cfg.rxDepth
        invariant View() == old(View()).(rq := rq)
        invariant var (q, k) := PingPong.PostRecv(cfg, View(), n - posted); all == (q, posted + k)
      {
        rq := rq + 1;
        posted := posted + 1;
      }
    }

    method PostSend()
      modifies this`failed, this`sendOut, this`posts, this`pending
      ensures View() == PingPong.PostSend(old(View()))
    {
      if sendOut + sendCq >= 1 {
        failed := true;
        return;
      }
      sendOut, posts := 1, posts + 1;
      pending := RECV_WRID | SEND_WRID;
    }

    /** The switch over the kind of completion. */
    method CountCompletion(wr: bv2)
      requires !failed
      modifies this`scnt, this`rcnt, this`routs, this`rq, this`failed
      ensures View() == Count(cfg, old(View()), wr)
    {
      if wr == SEND_WRID {
        scnt := scnt + 1;
      } else if wr == RECV_WRID {
        CountReceive();
      } else {
        failed := true;
      }
    }

    method CountReceive()
      requires !failed
      modifies this`rcnt, this`routs, this`rq, this`failed
      ensures View() == Count(cfg, old(View()), RECV_WRID)
    {
      routs := routs - 1;
      if routs <= 1 {
        var posted := PostRecv(cfg.rxDepth - routs);
        routs := routs + posted;
        if routs < cfg.rxDepth {
          failed := true;
          return;
        }
      }
      rcnt := rcnt + 1;
    }

    /** One completion: count it, strike it off, and answer when nothing is owed any more. */
    method HandleCompletion(wc: Wc)
      requires !failed
      modifies this`pending, this`scnt, this`rcnt, this`routs, this`rq, this`failed, this`sendOut, this`posts
      ensures View() == Handle(cfg, old(View()), wc)
    {
      if !wc.ok {
        failed := true;
        return;
      }
      CountCompletion(wc.wr);
      if failed { return; }
      pending := pending & !wc.wr;
      if scnt < cfg.iters && pending == 0 {
        PostSend();
      }
    }

    /** Takes one completion off the queue, if it is there, and handles it. */
    method ReapOne(wc: Wc)
      requires !failed
      modifies this
      ensures View() == PingPong.ReapOne(cfg, old(View()), wc)
    {
      if wc.wr == SEND_WRID {
        if sendCq == 0 { return; }
        sendCq := sendCq - 1;
      } else if wc.wr == RECV_WRID {
        if recvCq == 0 { return; }
        recvCq := recvCq - 1;
      }
      HandleCompletion(wc);
    }

    /** The loop over the completions that one poll returned. */
    method ReapBatch(wcs: seq<Wc>)
      modifies this
      ensures View() == ReapAll(cfg, old(View()), wcs)
    {
      var i := 0;
      while i < |wcs| && !failed
        invariant 0 <= i <= |wcs|
        invariant ReapAll(cfg, old(View()), wcs) == ReapAll(cfg, View(), wcs[i..])
      {
        assert wcs[i..][1..] == wcs[i + 1..];
        ReapOne(wcs[i]);
        i := i + 1;
      }
    }

    /** The adapter's part: a message arrives or a send completes. */
    method Happens(s: Step)
      modifies this`rq, this`recvCq, this`sendOut, this`sendCq
      ensures View() == if s.client == client && !s.Reap? then PeerStep(cfg, old(View()), s) else old(View())
    {
      if s.client == client {
        if s.Deliver? && rq > 0 {
          rq, recvCq := rq - 1, recvCq + 1;
        } else if s.Complete? && sendOut > 0 {
          sendOut, sendCq := sendOut - 1, sendCq + 1;
        }
      }
    }

    method AllHappen(env: seq<Step>)
      modifies this`rq, this`recvCq, this`sendOut, this`sendCq
      ensures View() == Outside(cfg, old(View()), client, env)
    {
      var i := 0;
      while i < |env|
        invariant 0 <= i <= |env|
        invariant Outside(cfg, old(View()), client, env) == Outside(cfg, View(), client, env[i..])
      {
        assert env[i..][1..] == env[i + 1..];
        Happens(env[i]);
        i := i + 1;
      }
    }

    /** The main loop, over what happens and what is polled in successive rounds. */
    method CompletionLoop(rounds: seq<Round>)
      modifies this
      ensures View() == Loop(cfg, old(View()), client, rounds)
    {
      var k := 0;
      while k < |rounds| && !failed && (rcnt < cfg.iters || scnt < cfg.iters)
        invariant 0 <= k <= |rounds|
        invariant Loop(cfg, old(View()), client, rounds) == Loop(cfg, View(), client, rounds[k..])
      {
        assert rounds[k..][1..] == rounds[k + 1..];
        AllHappen(rounds[k].env);
        ReapBatch(rounds[k].wcs);
        k := k + 1;
      }
    }
  }
}
