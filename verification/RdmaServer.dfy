/** The passive half of a server connection (server/rdma.c): it sends its regions, waits
    for DONE and disconnects. */
module RdmaServer {
  import opened RdmaRing
  import opened RdmaClient

  datatype Server = Server(mode: Mode, state: ConnState, localMr: seq<Mr>, sendMsg: Message, recvMsg: Message)

  function NewServer(mode: Mode, localMr: seq<Mr>): Server {
    Server(mode, Init, localMr, Blank, Blank)
  }

  datatype ServerEffect = ServerEffect(conn: Server, outcome: Outcome, sends: nat, recvs: nat)

  /** A passive server sends its regions when it is connected. */
  function ServerUp(s: Server): ServerEffect {
    if s.mode.Active() then ServerEffect(s.(state := Connected), Handled, 0, 0)
    else ServerEffect(s.(sendMsg := MrMsg(s.localMr), state := Connected), Handled, 1, 0)
  }

  /** A passive server reports every RDMA completion and every MR message as received in
      the wrong state. */
  function ServerHandle(s: Server, wc: Completion): ServerEffect
    requires !s.mode.Active()
  {
    match wc
    case Failed => ServerEffect(s, StatusError, 0, 0)
    case RecvDone =>
      (match s.recvMsg
       case Blank => ServerEffect(s, Handled, 0, 0)
       case MrMsg(_) => ServerEffect(s, WrongState, 0, 0)
       case DoneMsg =>
         if s.state == MrSent then ServerEffect(s.(state := Disconnecting), Handled, 0, 0)
         else ServerEffect(s, WrongState, 0, 0))
    case ReadDone(_) => ServerEffect(s, WrongState, 0, 0)
    case WriteDone(_) => ServerEffect(s, WrongState, 0, 0)
    case SendDone =>
      if s.state == Connected then ServerEffect(s.(state := MrSent), Handled, 0, 1)
      else ServerEffect(s, WrongState, 0, 0)
  }

  /** The worker's counters after a passive server has handled wc; finished requests are
      counted before the mode is looked at. */
  function ServerCounted(st: Stats, s: Server, wc: Completion): Stats
    requires !s.mode.Active()
  {
    match wc
    case Failed => st
    case RecvDone =>
      (match s.recvMsg
       case Blank => st
       case MrMsg(_) => st.(mrRx := st.mrRx + 1)
       case DoneMsg => st.(doneRx := st.doneRx + 1))
    case ReadDone(_) => st.(readSuccess := st.readSuccess + 1)
    case WriteDone(_) => st.(writeSuccess := st.writeSuccess + 1)
    case SendDone => if s.state == Connected then st.(mrTx := st.mrTx + 1) else st
  }

  /** Only a passive server sends anything when it is connected, namely its regions. */
  lemma OnlyPassiveSends(s: Server)
    ensures var e := ServerUp(s);
            && e.conn.state == Connected && e.conn.localMr == s.localMr && e.conn.recvMsg == s.recvMsg
            && (e.sends > 0 <==> !s.mode.Active())
            && (e.sends > 0 ==> e.sends == 1 && e.conn.sendMsg == MrMsg(s.localMr))
  {
  }

  // ---- The passive halves of both programs ----

  /** A passive client and a server are in the same state of the handshake. */
  predicate Alike(c: Client, s: Server) {
    && c.mode == s.mode && !c.mode.Active() && c.state == s.state && c.localMr == s.localMr
    && c.sendMsg == s.sendMsg && c.recvMsg == s.recvMsg
  }

  lemma AlikeWhenUp(c: Client, s: Server)
    requires Alike(c, s)
    ensures var e, f := Established(c), ServerUp(s);
            Alike(e.conn, f.conn) && e.sends == f.sends == 1 && e.posted == [] && e.conn.state == Connected
  {
  }

  /** A passive client answers every completion as a server does, counts it alike, and never
      posts a request. */
  lemma PassiveAlike(c: Client, s: Server, wc: Completion, accept: nat, st: Stats)
    requires Alike(c, s) && c.Shaped() && KnownSlot(c, wc)
    ensures var e, f := Handle(c, wc, accept), ServerHandle(s, wc);
            && Alike(e.conn, f.conn) && e.outcome == f.outcome && e.posted == []
            && e.sends == f.sends == 0 && e.recvs == f.recvs
            && Counted(st, c, wc, accept) == ServerCounted(st, s, wc)
  {
  }

  class ServerConnection {
    const mode: Mode
    const localMr: seq<Mr>
    const stats: WorkerStats
    var state: ConnState
    var sendMsg: Message
    var recvMsg: Message

    constructor (mode: Mode, localMr: seq<Mr>, stats: WorkerStats)
      ensures View() == NewServer(mode, localMr) && this.stats == stats
    {
      this.mode, this.localMr, this.stats := mode, localMr, stats;
      state, sendMsg, recvMsg := Init, Blank, Blank;
    }

    function View(): Server
      reads this
    {
      Server(mode, state, localMr, sendMsg, recvMsg)
    }

    /** Copies every registered region of the ring into the message and posts the send. */
    method PostSendMr() returns (sends: nat)
      modifies this`sendMsg
      ensures sendMsg == MrMsg(localMr) && sends == 1
    {
      var regions := [];
      var i := 0;
      while i < |localMr|
        invariant 0 <= i <= |localMr| && regions == localMr[..i]
      {
        regions := regions + [localMr[i]];
        i := i + 1;
      }
      sendMsg := MrMsg(regions);
      sends := 1;
    }

    method OnConnect() returns (sends: nat)
      modifies this
      ensures View() == ServerUp(old(View())).conn && sends == ServerUp(old(View())).sends
    {
      sends := 0;
      if !mode.Active() {
        sends := PostSendMr();
      }
      state := Connected;
    }

    /** One turn of the polling loop of a passive server. */
    method HandleCompletion(wc: Completion) returns (outcome: Outcome, recvs: nat)
      requires !mode.Active()
      modifies this, stats
      ensures ServerEffect(View(), outcome, 0, recvs) == ServerHandle(old(View()), wc)
      ensures stats.View() == ServerCounted(old(stats.View()), old(View()), wc)
    {
      outcome, recvs := Handled, 0;
      match wc
      case Failed =>
        outcome := StatusError;
      case RecvDone =>
        if recvMsg.MrMsg? {
          stats.mrRx := stats.mrRx + 1;
          outcome := WrongState;
        } else if recvMsg.DoneMsg? {
          stats.doneRx := stats.doneRx + 1;
          if state == MrSent {
            state := Disconnecting;
          } else {
            outcome := WrongState;
          }
        }
      case ReadDone(_) =>
        stats.readSuccess := stats.readSuccess + 1;
        outcome := WrongState;
      case WriteDone(_) =>
        stats.writeSuccess := stats.writeSuccess + 1;
        outcome := WrongState;
      case SendDone =>
        if state == Connected {
          recvs := 1;
          state := MrSent;
          stats.mrTx := stats.mrTx + 1;
        } else {
          outcome := WrongState;
        }
    }
  }
}
