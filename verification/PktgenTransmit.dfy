/** pktgen_xmit: one attempt to send, with its pacing, cloning, retries and counters. */
module PktgenTransmit {
  import opened Basics
  import opened PktgenFrame

  /** The delay that means never to transmit. */
  const NEVER: u64 := 0xffff_ffff_ffff_ffff

  /** `clone` is clone_skb as the unsigned number it is compared as. */
  datatype Settings = Settings(clone: u32, delay: u64, count: u64)

  /** What the queue or the driver did with a packet. */
  datatype Outcome = Ok | Drop | Cn | Policed | Locked | Busy | Other | Frozen

  /** The packet was taken but not sent. */
  predicate Consumed(o: Outcome) { o.Drop? || o.Cn? || o.Policed? }

  /** The clock when pacing begins, what it shows again and again while waiting, and what it
      shows when the driver is called. */
  datatype Clock = Clock(now: int, readings: seq<int>, sent: int)

  /** The first of some readings that is not before a given time. */
  function FirstNotBefore(readings: seq<int>, due: int): (i: nat)
    ensures i <= |readings| && (forall k :: 0 <= k < i ==> readings[k] < due)
    ensures i < |readings| ==> readings[i] >= due
  {
    if readings == [] || readings[0] >= due then 0 else 1 + FirstNotBefore(readings[1..], due)
  }

  /** The reading at which a wait ends: none is needed when the time is past, and an
      interrupted wait ends with the last. */
  function Woken(c: Clock, due: int): int {
    if c.now >= due || c.readings == [] then c.now
    else
      var i := FirstNotBefore(c.readings, due);
      if i < |c.readings| then c.readings[i] else c.readings[|c.readings| - 1]
  }

  datatype Attempt = Attempt(online: bool, build: BuildInput, clock: Clock, outcome: Outcome)

  datatype Tx = Tx(builder: Builder, skb: Option<Packet>, lastOk: bool, cloneCount: u32, seqNum: u32,
                   sofar: u64, txBytes: u64, lastSize: int, errors: u64, skbsBuilt: u64,
                   running: bool, nextTx: int, startedAt: int)

  /** pktgen_run: what starting does to one device; lastOk and cloneCount are left alone. */
  function Begin(t: Tx, builder: Builder, now: int): Tx {
    t.(builder := builder, skb := None, seqNum := 1, sofar := 0, txBytes := 0, errors := 0,
       running := true, nextTx := now, startedAt := now)
  }

  function Stop(t: Tx): Tx { t.(skb := None, running := false) }

  /** The clone counter moves only when there is a buffer that was last sent. */
  function Counted(t: Tx): Tx {
    if t.skb.Some? && t.lastOk then t.(cloneCount := (t.cloneCount + 1) % TWO_32) else t
  }

  predicate NeedsBuild(st: Settings, t: Tx) {
    t.skb.None? || (t.lastOk && Counted(t).cloneCount >= st.clone)
  }

  /** A new packet, or none: then one is taken off the clone counter, even when it had not
      moved. */
  function Rebuild(t: Tx, a: BuildInput): (r: Tx)
    requires Valid(t.builder)
    ensures Valid(r.builder) && (r.skb.Some? <==> a.gotSkb)
  {
    var (b, p) := FillPacket(t.builder, a, t.seqNum);
    match p
    case None => t.(builder := b, skb := None, cloneCount := (t.cloneCount - 1) % TWO_32)
    case Some(pkt) =>
      t.(builder := b, skb := p, lastSize := pkt.len, skbsBuilt := (t.skbsBuilt + 1) % TWO_64, cloneCount := 0)
  }

  function Prepare(st: Settings, t: Tx, a: BuildInput): (r: Tx)
    requires Valid(t.builder)
    ensures Valid(r.builder)
  {
    if NeedsBuild(st, t) then Rebuild(Counted(t), a) else Counted(t)
  }

  /** spin: the next departure is one delay after the one waited for, however long it took. */
  function Spin(t: Tx, delay: u64): Tx { t.(nextTx := t.nextTx + delay) }

  predicate Paced(st: Settings, t: Tx) { st.delay > 0 && t.lastOk }

  function Pace(st: Settings, t: Tx): Tx {
    if Paced(st, t) then Spin(t, st.delay) else t
  }

  function Transmit(t: Tx, o: Outcome): Tx {
    match o
    case Ok => t.(lastOk := true, sofar := (t.sofar + 1) % TWO_64, seqNum := (t.seqNum + 1) % TWO_32,
                  txBytes := (t.txBytes + t.lastSize) % TWO_64)
    case Drop | Cn | Policed => t.(errors := (t.errors + 1) % TWO_64)
    case Other => t.(errors := (t.errors + 1) % TWO_64, lastOk := false)
    case Locked | Busy | Frozen => t.(lastOk := false)
  }

  function Finish(st: Settings, t: Tx): Tx {
    if st.count != 0 && t.sofar >= st.count then Stop(t) else t
  }

  /** The part of an attempt that has a packet. */
  function Deliver(st: Settings, t: Tx, o: Outcome): (r: Tx)
    ensures r.builder == t.builder
  {
    Finish(st, Transmit(Pace(st, t), o))
  }

  function Xmit(st: Settings, t: Tx, a: Attempt): (r: Tx)
    requires Valid(t.builder)
    ensures Valid(r.builder)
  {
    if !a.online then Stop(t)
    else if st.delay == NEVER then t.(nextTx := a.clock.now + NEVER)
    else
      var p := Prepare(st, t, a.build);
      if p.skb.None? then p else Deliver(st, p, a.outcome)
  }

  // ---- Runs, with a record of every buffer and every packet sent ----

  /** A built buffer: how many packets were sent before it, how often it was sent, and how
      often it was consumed without being sent while the clone counter was moving. */
  datatype Use = Use(first: nat, uses: nat, wasted: nat)

  /** A packet sent: the number it carries, the buffer it came from, how many packets were
      sent from that buffer before it, when, its size, and the packet itself. */
  datatype Send = Send(number: u32, buffer: nat, rank: nat, at: int, size: int, packet: Packet)

  datatype Run = Run(tx: Tx, buffers: seq<Use>, sent: seq<Send>, spins: nat)

  ghost predicate Recorded(r: Run) {
    Valid(r.tx.builder) && (r.tx.skb.Some? ==> |r.buffers| > 0)
  }

  function Built(st: Settings, r: Run, a: BuildInput): (b: Run)
    requires Recorded(r)
    ensures Recorded(b)
  {
    r.(tx := Prepare(st, r.tx, a),
       buffers := if NeedsBuild(st, r.tx) && a.gotSkb then r.buffers + [Use(|r.sent|, 0, 0)] else r.buffers)
  }

  function Attempted(st: Settings, r: Run, a: Attempt): (n: Run)
    requires Recorded(r) && r.tx.skb.Some?
    ensures Recorded(n)
  {
    var m := |r.buffers| - 1;
    var u := r.buffers[m];
    var tx := Deliver(st, r.tx, a.outcome);
    var spins := if Paced(st, r.tx) then r.spins + 1 else r.spins;
    if a.outcome.Ok? then
      Run(tx, r.buffers[m := u.(uses := u.uses + 1)],
          r.sent + [Send(r.tx.skb.value.seqNum, m, u.uses, a.clock.sent, r.tx.skb.value.len, r.tx.skb.value)],
          spins)
    else if Consumed(a.outcome) && r.tx.lastOk then
      Run(tx, r.buffers[m := u.(wasted := u.wasted + 1)], r.sent, spins)
    else Run(tx, r.buffers, r.sent, spins)
  }

  /** One turn of the worker with this device; a stopped device is never chosen. */
  function Turn(st: Settings, r: Run, a: Attempt): (n: Run)
    requires Recorded(r)
    ensures Recorded(n)
  {
    if !r.tx.running then r
    else if !a.online then r.(tx := Stop(r.tx))
    else if st.delay == NEVER then r.(tx := r.tx.(nextTx := a.clock.now + NEVER))
    else
      var b := Built(st, r, a.build);
      if b.tx.skb.None? then b else Attempted(st, b, a)
  }

  /** The record changes nothing: the device moves as pktgen_xmit moves it. */
  lemma TurnIsXmit(st: Settings, r: Run, a: Attempt)
    requires Recorded(r)
    ensures Turn(st, r, a).tx == if r.tx.running then Xmit(st, r.tx, a) else r.tx
  {
  }

  ghost predicate Begun(t: Tx) {
    && Valid(t.builder) && t.running && t.skb.None?
    && t.seqNum == 1 && t.sofar == 0 && t.txBytes == 0 && t.errors == 0 && t.nextTx == t.startedAt
  }

  lemma BeginBegins(t: Tx, builder: Builder, now: int)
    requires Valid(builder)
    ensures Begun(Begin(t, builder, now)) && Begin(t, builder, now).startedAt == now
    ensures var b := Begin(t, builder, now);
            && b.builder == builder && b.lastOk == t.lastOk && b.cloneCount == t.cloneCount
            && b.skbsBuilt == t.skbsBuilt && b.lastSize == t.lastSize
  {
  }

  ghost predicate StepAt(st: Settings, rs: seq<Run>, xs: seq<Attempt>, k: nat)
    requires k < |xs| < |rs| && Recorded(rs[k])
  {
    rs[k + 1] == Turn(st, rs[k], xs[k])
  }

  /** rs is a run of a device that has just been started: attempt k takes rs[k] to rs[k + 1]. */
  ghost predicate IsRun(st: Settings, rs: seq<Run>, xs: seq<Attempt>) {
    && |rs| == |xs| + 1 && Begun(rs[0].tx) && rs[0] == Run(rs[0].tx, [], [], 0)
    && (forall k :: 0 <= k < |rs| ==> Recorded(rs[k]))
    && forall k :: 0 <= k < |xs| ==> StepAt(st, rs, xs, k)
  }
}
