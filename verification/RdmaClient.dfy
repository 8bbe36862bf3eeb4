/** One client connection: the completion handler of client/rdma.c, first as functions on
    a value, then as the class that updates its fields in place. */
module RdmaClient {
  import opened RdmaRing

  const MAX_RING_SIZE: nat := 64

  datatype Mode = PassiveRead | PassiveWrite | ActiveRead | ActiveWrite {
    predicate Active() { ActiveRead? || ActiveWrite? }
    function Kind(): OpKind { if ActiveRead? then ReadOp else WriteOp }
  }

  datatype ConnState = Init | Connected | MrReceived | MrSent | OpsCompleted | Disconnecting

  /** The contents of a message buffer; a fresh buffer holds no message. */
  datatype Message = Blank | MrMsg(regions: seq<Mr>) | DoneMsg

  /** One polled work completion. */
  datatype Completion = Failed | RecvDone | ReadDone(slot: nat) | WriteDone(slot: nat) | SendDone

  datatype Outcome =
    | Handled          // the branch for this event ran
    | StatusError      // wc.status was not success: logged and skipped
    | WrongState       // logged as received in the wrong state
    | TooManyRegions   // mr_num above MAX_RING_SIZE: logged and skipped
    | RingSizeMismatch // the process exits
    | RingOverflow     // die(): more free slots than the ring has

  datatype Client = Client(mode: Mode, budget: int, state: ConnState, loop: int,
                           free: seq<bool>, freeCount: int,
                           localMr: seq<Mr>, peerMr: seq<Mr>,
                           sendMsg: Message, recvMsg: Message)
  {
    function RingSize(): nat { |free| }
    predicate Shaped() { |free| == |localMr| == |peerMr| }
  }

  /** A connection after address resolution. */
  function NewClient(mode: Mode, budget: int, localMr: seq<Mr>): (c: Client)
    ensures c.Shaped()
  {
    Client(mode, budget, Init, 0, seq(|localMr|, _ => true), |localMr|, localMr,
           seq(|localMr|, _ => Mr(0, 0)), Blank, Blank)
  }

  /** What handling one event does: the new connection, the RDMA requests, sends and
      receives posted. */
  datatype Effect = Effect(conn: Client, outcome: Outcome, posted: seq<Op>, sends: nat, recvs: nat)

  function Established(c: Client): Effect {
    var up := c.(state := Connected);
    if c.mode.Active() then Effect(up, Handled, [], 0, 0)
    else Effect(up.(sendMsg := MrMsg(c.localMr)), Handled, [], 1, 0)
  }

  function Post(c: Client, accept: nat): Effect
    requires c.Shaped()
  {
    var (free, taken) := PostFrom(c.free, 0, accept);
    PostFromTakesLowestFree(c.free, 0, accept);
    assert forall k :: 0 <= k < |taken| ==> taken[k] in taken;
    Effect(c.(free := free, freeCount := c.freeCount - |taken|), Handled,
           Requests(c.mode.Kind(), taken, c.localMr, c.peerMr), 0, 0)
  }

  function OpCompleted(c: Client, slot: nat, accept: nat): Effect
    requires c.Shaped() && slot < c.RingSize()
  {
    var freed := c.(free := c.free[slot := true], freeCount := c.freeCount + 1);
    if freed.freeCount > c.RingSize() then Effect(freed, RingOverflow, [], 0, 0)
    else
      var done := freed.(state := OpsCompleted);
      if c.budget != 0 && c.loop >= c.budget then
        if done.freeCount == c.RingSize() then Effect(done.(sendMsg := DoneMsg), Handled, [], 1, 0)
        else Effect(done, Handled, [], 0, 0)
      else Post(done.(loop := c.loop + 1), accept)
  }

  function MessageReceived(c: Client, accept: nat): Effect
    requires c.Shaped()
  {
    match c.recvMsg
    case Blank => Effect(c, Handled, [], 0, 0)
    case MrMsg(regions) =>
      if !(c.mode.Active() && c.state == Connected) then Effect(c, WrongState, [], 0, 0)
      else if |regions| > MAX_RING_SIZE then Effect(c, TooManyRegions, [], 0, 0)
      else if |regions| != c.RingSize() then Effect(c, RingSizeMismatch, [], 0, 0)
      else Post(c.(peerMr := regions, state := MrReceived, loop := c.loop + 1), accept)
    case DoneMsg =>
      if !c.mode.Active() && c.state == MrSent then Effect(c.(state := Disconnecting), Handled, [], 0, 0)
      else Effect(c, WrongState, [], 0, 0)
  }

  function SendCompleted(c: Client): Effect {
    if !c.mode.Active() && c.state == Connected then Effect(c.(state := MrSent), Handled, [], 0, 1)
    else if c.mode.Active() && c.state == OpsCompleted then Effect(c.(state := Disconnecting), Handled, [], 0, 0)
    else Effect(c, WrongState, [], 0, 0)
  }

  predicate Running(s: ConnState) { s == MrReceived || s == OpsCompleted }

  predicate KnownSlot(c: Client, wc: Completion) {
    (wc.ReadDone? || wc.WriteDone?) ==> wc.slot < c.RingSize()
  }

  function Handle(c: Client, wc: Completion, accept: nat): Effect
    requires c.Shaped() && KnownSlot(c, wc)
  {
    match wc
    case Failed => Effect(c, StatusError, [], 0, 0)
    case RecvDone => MessageReceived(c, accept)
    case ReadDone(slot) =>
      if c.mode == ActiveRead && Running(c.state) then OpCompleted(c, slot, accept)
      else Effect(c, WrongState, [], 0, 0)
    case WriteDone(slot) =>
      if c.mode == ActiveWrite && Running(c.state) then OpCompleted(c, slot, accept)
      else Effect(c, WrongState, [], 0, 0)
    case SendDone => SendCompleted(c)
  }

  /** Each exit of the handler is taken in one situation only, and the connection changes in
      no other way at the exits that only log. */
  lemma OutcomeTells(c: Client, wc: Completion, accept: nat)
    requires c.Shaped() && KnownSlot(c, wc)
    ensures var e := Handle(c, wc, accept);
            var regions := if wc.RecvDone? && c.recvMsg.MrMsg? && c.mode.Active() && c.state == Connected
                           then |c.recvMsg.regions| else 0;
            && (e.outcome == StatusError <==> wc.Failed?)
            && (e.outcome == TooManyRegions <==> regions > 64)
            && (e.outcome == RingSizeMismatch <==>
                  (wc.RecvDone? && c.recvMsg.MrMsg? && c.mode.Active() && c.state == Connected
                   && regions != c.RingSize() && regions <= 64))
            && (e.outcome == RingOverflow <==>
                  ((wc.ReadDone? && c.mode.ActiveRead?) || (wc.WriteDone? && c.mode.ActiveWrite?))
                  && (c.state.MrReceived? || c.state.OpsCompleted?) && c.freeCount + 1 > c.RingSize())
            && (e.outcome == WrongState <==>
                  match wc
                  case Failed => false
                  case RecvDone =>
                    (c.recvMsg.MrMsg? && !(c.mode.Active() && c.state == Connected))
                    || (c.recvMsg.DoneMsg? && !(!c.mode.Active() && c.state == MrSent))
                  case ReadDone(_) => !(c.mode.ActiveRead? && (c.state.MrReceived? || c.state.OpsCompleted?))
                  case WriteDone(_) => !(c.mode.ActiveWrite? && (c.state.MrReceived? || c.state.OpsCompleted?))
                  case SendDone => if c.mode.Active() then c.state != OpsCompleted else c.state != Connected)
            && (e.outcome != Handled && e.outcome != RingOverflow ==>
                  e == Effect(c, e.outcome, [], 0, 0))
  {
  }

  /** The counters a worker keeps for all of its connections together. */
  datatype Stats = Stats(mrTx: nat, mrRx: nat, doneTx: nat, doneRx: nat,
                         readAttempt: nat, readSuccess: nat, writeAttempt: nat, writeSuccess: nat)

  const NO_STATS := Stats(0, 0, 0, 0, 0, 0, 0, 0)

  function AddAttempts(st: Stats, kind: OpKind, n: nat): Stats {
    if kind == ReadOp then st.(readAttempt := st.readAttempt + n) else st.(writeAttempt := st.writeAttempt + n)
  }

  /** The counters after handling wc on connection c. */
  function Counted(st: Stats, c: Client, wc: Completion, accept: nat): Stats
    requires c.Shaped() && KnownSlot(c, wc)
  {
    var e := Handle(c, wc, accept);
    match wc
    case Failed => st
    case RecvDone =>
      (match c.recvMsg
       case Blank => st
       case MrMsg(_) => AddAttempts(st.(mrRx := st.mrRx + 1), c.mode.Kind(), |e.posted|)
       case DoneMsg => st.(doneRx := st.doneRx + 1))
    case ReadDone(_) => AddAttempts(st.(readSuccess := st.readSuccess + 1), ReadOp, |e.posted|)
    case WriteDone(_) => AddAttempts(st.(writeSuccess := st.writeSuccess + 1), WriteOp, |e.posted|)
    case SendDone =>
      if e.conn.state == MrSent && e.outcome == Handled then st.(mrTx := st.mrTx + 1)
      else if e.conn.state == Disconnecting && e.outcome == Handled then st.(doneTx := st.doneTx + 1)
      else st
  }

  class WorkerStats {
    var mrTx: nat
    var mrRx: nat
    var doneTx: nat
    var doneRx: nat
    var readAttempt: nat
    var readSuccess: nat
    var writeAttempt: nat
    var writeSuccess: nat

    constructor ()
      ensures View() == NO_STATS
    {
      mrTx, mrRx, doneTx, doneRx := 0, 0, 0, 0;
      readAttempt, readSuccess, writeAttempt, writeSuccess := 0, 0, 0, 0;
    }

    function View(): Stats
      reads this
    {
      Stats(mrTx, mrRx, doneTx, doneRx, readAttempt, readSuccess, writeAttempt, writeSuccess)
    }
  }

  class ClientConnection {
    const mode: Mode
    const budget: int
    const localMr: seq<Mr>
    const stats: WorkerStats
    const free: array<bool>
    const peerMr: array<Mr>
    var freeCount: int
    var state: ConnState
    var loop: int
    var sendMsg: Message
    var recvMsg: Message

    constructor (mode: Mode, budget: int, localMr: seq<Mr>, stats: WorkerStats)
      ensures Valid() && fresh(free) && fresh(peerMr) && this.stats == stats
      ensures View() == NewClient(mode, budget, localMr)
    {
      this.mode, this.budget, this.localMr, this.stats := mode, budget, localMr, stats;
      free := new bool[|localMr|](_ => true);
      peerMr := new Mr[|localMr|](_ => Mr(0, 0));
      freeCount, state, loop, sendMsg, recvMsg := |localMr|, Init, 0, Blank, Blank;
    }

    predicate Valid() {
      free.Length == peerMr.Length == |localMr|
    }

    function View(): Client
      reads this, free, peerMr
    {
      Client(mode, budget, state, loop, free[..], freeCount, localMr, peerMr[..], sendMsg, recvMsg)
    }

    /** Posts one request per free slot, in slot order, and returns at the first refusal. */
    method PostReadWrite(kind: OpKind, accept: nat) returns (cnt: nat, posted: seq<Op>)
      requires Valid() && kind == mode.Kind()
      modifies this`freeCount, free
      ensures View() == Post(old(View()), accept).conn
      ensures posted == Post(old(View()), accept).posted && cnt == |posted|
    {
      ghost var before := free[..];
      ghost var taken: seq<nat> := [];
      var i := 0;
      cnt, posted := 0, [];
      assert taken + PostFrom(before, 0, accept).1 == PostFrom(before, 0, accept).1;
      while i < free.Length
        invariant 0 <= i <= free.Length
        invariant cnt == |taken| <= accept && |posted| == |taken|
        invariant PostFrom(before, 0, accept) ==
                  (PostFrom(free[..], i, accept - cnt).0, taken + PostFrom(free[..], i, accept - cnt).1)
        invariant forall k :: 0 <= k < |taken| ==>
                    taken[k] < free.Length && posted[k] == Op(kind, taken[k], localMr[taken[k]], peerMr[taken[k]])
        invariant freeCount == old(freeCount) - cnt
      {
        if free[i] {
          if cnt == accept {
            free[i] := true;
            assert free[..] == free[..][i := true];
            return;
          }
          posted := posted + [Op(kind, i, localMr[i], peerMr[i])];
          ghost var flags := free[..];
          cnt := cnt + 1;
          free[i] := false;
          freeCount := freeCount - 1;
          assert free[..] == flags[i := false];
          ghost var rest := PostFrom(free[..], i + 1, accept - cnt).1;
          assert taken + ([i] + rest) == (taken + [i]) + rest;
          taken := taken + [i];
        }
        i := i + 1;
      }
    }

    method OnEstablished() returns (sends: nat)
      requires Valid()
      modifies this`state, this`sendMsg
      ensures View() == Established(old(View())).conn
      ensures sends == Established(old(View())).sends
    {
      state := Connected;
      sends := 0;
      if !mode.Active() {
        sendMsg := MrMsg(localMr);
        sends := 1;
      }
    }

    /** The MR branch of a received message, with the copy of the peer's regions. */
    method OnRegions(regions: seq<Mr>, accept: nat) returns (outcome: Outcome, posted: seq<Op>)
      requires Valid() && recvMsg == MrMsg(regions)
      modifies this, free, peerMr, stats
      ensures View() == Handle(old(View()), RecvDone, accept).conn
      ensures outcome == Handle(old(View()), RecvDone, accept).outcome
      ensures posted == Handle(old(View()), RecvDone, accept).posted
      ensures stats.View() == Counted(old(stats.View()), old(View()), RecvDone, accept)
    {
      posted := [];
      stats.mrRx := stats.mrRx + 1;
      if mode.Active() && state == Connected {
        if |regions| > MAX_RING_SIZE { return TooManyRegions, []; }
        if |regions| != free.Length { return RingSizeMismatch, []; }
        var i := 0;
        while i < |regions|
          invariant 0 <= i <= |regions|
          invariant peerMr[..i] == regions[..i]
          invariant View().(peerMr := []) == old(View()).(peerMr := [])
          invariant stats.View() == old(stats.View()).(mrRx := old(stats.mrRx) + 1)
        {
          peerMr[i] := regions[i];
          i := i + 1;
        }
        assert peerMr[..] == regions;
        state := MrReceived;
        loop := loop + 1;
        var cnt;
        cnt, posted := PostReadWrite(mode.Kind(), accept);
        CountAttempts(mode.Kind(), cnt);
        outcome := Handled;
      } else {
        outcome := WrongState;
      }
    }

    /** The branch for an RDMA completion in the right mode and state. */
    method FinishOp(kind: OpKind, slot: nat, accept: nat) returns (outcome: Outcome, posted: seq<Op>, sends: nat)
      requires Valid() && slot < free.Length && kind == mode.Kind()
      modifies this`freeCount, this`state, this`loop, this`sendMsg, free, stats
      ensures Effect(View(), outcome, posted, sends, 0) == OpCompleted(old(View()), slot, accept)
      ensures stats.View() == AddAttempts(old(stats.View()), kind, |posted|)
    {
      posted, sends, outcome := [], 0, Handled;
      free[slot] := true;
      freeCount := freeCount + 1;
      assert free[..] == old(free[..])[slot := true];
      if freeCount > free.Length { return RingOverflow, [], 0; }
      state := OpsCompleted;
      if budget != 0 && loop >= budget {
        if freeCount == free.Length {
          sendMsg := DoneMsg;
          sends := 1;
        }
      } else {
        loop := loop + 1;
        var cnt;
        cnt, posted := PostReadWrite(kind, accept);
        CountAttempts(kind, cnt);
      }
    }

    method CountAttempts(kind: OpKind, cnt: nat)
      modifies stats
      ensures stats.View() == AddAttempts(old(stats.View()), kind, cnt)
    {
      if kind == ReadOp { stats.readAttempt := stats.readAttempt + cnt; }
      else { stats.writeAttempt := stats.writeAttempt + cnt; }
    }

    /** One iteration of the polling loop. */
    method HandleCompletion(wc: Completion, accept: nat)
      returns (outcome: Outcome, posted: seq<Op>, sends: nat, recvs: nat)
      requires Valid() && KnownSlot(View(), wc)
      modifies this, free, peerMr, stats
      ensures Effect(View(), outcome, posted, sends, recvs) == Handle(old(View()), wc, accept)
      ensures stats.View() == Counted(old(stats.View()), old(View()), wc, accept)
    {
      outcome, posted, sends, recvs := Handled, [], 0, 0;
      match wc
      case Failed =>
        outcome := StatusError;
      case RecvDone =>
        match recvMsg {
          case Blank =>
          case MrMsg(regions) =>
            outcome, posted := OnRegions(regions, accept);
          case DoneMsg =>
            stats.doneRx := stats.doneRx + 1;
            if !mode.Active() && state == MrSent {
              state := Disconnecting;
            } else {
              outcome := WrongState;
            }
        }
      case ReadDone(slot) =>
        stats.readSuccess := stats.readSuccess + 1;
        if mode == ActiveRead && Running(state) {
          outcome, posted, sends := FinishOp(ReadOp, slot, accept);
        } else {
          outcome := WrongState;
        }
      case WriteDone(slot) =>
        stats.writeSuccess := stats.writeSuccess + 1;
        if mode == ActiveWrite && Running(state) {
          outcome, posted, sends := FinishOp(WriteOp, slot, accept);
        } else {
          outcome := WrongState;
        }
      case SendDone =>
        if !mode.Active() && state == Connected {
          recvs := 1;
          state := MrSent;
          stats.mrTx := stats.mrTx + 1;
        } else if mode.Active() && state == OpsCompleted {
          stats.doneTx := stats.doneTx + 1;
          state := Disconnecting;
        } else {
          outcome := WrongState;
        }
    }
  }
}
