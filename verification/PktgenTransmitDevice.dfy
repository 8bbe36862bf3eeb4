/** The transmit fields of struct pktgen_dev, updated in place by every attempt. */
module PktgenTransmitDevice {
  import opened Basics
  import opened PktgenHeaders
  import opened PktgenStack
  import opened PktgenFrame
  import opened PktgenFrameDevice
  import opened PktgenTransmit

  class TransmitDevice {
    const frame: FrameDevice
    var settings: Settings
    var skb: Option<Packet>
    var lastOk: bool
    var cloneCount: u32
    var seqNum: u32
    var sofar: u64
    var txBytes: u64
    var lastSize: int
    var errors: u64
    var skbsBuilt: u64
    var running: bool
    var nextTx: int
    var startedAt: int

    constructor (frame: FrameDevice, settings: Settings)
      requires frame.Valid()
      ensures Valid() && this.frame == frame && this.settings == settings && !running && skb.None? && !lastOk
    {
      this.frame, this.settings := frame, settings;
      skb, lastOk, cloneCount, seqNum, sofar, txBytes, lastSize := None, false, 0, 0, 0, 0, 0;
      errors, skbsBuilt, running, nextTx, startedAt := 0, 0, false, 0, 0;
    }

    function View(): Tx
      reads this, frame, frame.headers, frame.headers.flows, frame.headers.hh, frame.stack, frame.stack.labels
    {
      Tx(frame.View(), skb, lastOk, cloneCount, seqNum, sofar, txBytes, lastSize, errors, skbsBuilt,
         running, nextTx, startedAt)
    }

    ghost predicate Valid()
      reads this, frame, frame.headers, frame.headers.flows, frame.headers.hh, frame.stack, frame.stack.labels
    {
      frame.Valid()
    }

    /** pktgen_clear_counters, and what starting sets besides. */
    method ClearCounters(now: int)
      modifies this`seqNum, this`sofar, this`txBytes, this`errors, this`running, this`skb, this`startedAt, this`nextTx
      ensures running && skb.None? && seqNum == 1 && sofar == 0 && txBytes == 0 && errors == 0
      ensures startedAt == now && nextTx == now
    {
      seqNum, sofar, txBytes, errors := 1, 0, 0, 0;
      running := true;
      skb := None;
      startedAt, nextTx := now, now;
    }

    /** pktgen_run's part for one device. */
    method Run(i: Interface, now: int)
      requires Valid() && 1 <= i.txQueues
      modifies this`seqNum, this`sofar, this`txBytes, this`errors, this`running, this`skb, this`startedAt, this`nextTx,
               frame`overhead, frame.headers, frame.headers.hh
      ensures Valid() && Begun(View()) && View() == Begin(old(View()), frame.View(), now)
      ensures Started(frame.headers.cfg, frame.headers.View()) && frame.overhead == Overhead(frame.stack.View())
    {
      ClearCounters(now);
      frame.SetupRun(i);
    }

    /** pktgen_stop_device. */
    method StopDevice()
      modifies this`skb, this`running
      ensures View() == Stop(old(View()))
    {
      skb := None;
      running := false;
    }

    /** Waits until the time of departure, reading the clock again and again; whatever the
        clock said, the next departure is one delay later. */
    method Spin(c: Clock) returns (woken: int)
      modifies this`nextTx
      ensures View() == PktgenTransmit.Spin(old(View()), settings.delay) && woken == Woken(c, old(nextTx))
    {
      woken := c.now;
      if woken < nextTx {
        var i := 0;
        while i < |c.readings| && woken < nextTx
          invariant 0 <= i <= |c.readings| && woken == (if i == 0 then c.now else c.readings[i - 1])
          invariant forall k :: 0 <= k < i - 1 ==> c.readings[k] < nextTx
        {
          woken := c.readings[i];
          i := i + 1;
        }
      }
      nextTx := nextTx + settings.delay;
    }

    /** Counts a clone and decides whether a new packet is needed. */
    method CountClone() returns (rebuild: bool)
      modifies this`cloneCount
      ensures View() == Counted(old(View())) && rebuild == NeedsBuild(settings, old(View()))
    {
      rebuild := skb.None?;
      if !rebuild && lastOk {
        cloneCount := (cloneCount + 1) % TWO_32;
        rebuild := cloneCount >= settings.clone;
      }
    }

    method NewPacket(a: BuildInput)
      requires Valid()
      modifies this`skb, frame`ipId,
               frame.headers, frame.headers.flows, frame.headers.hh, frame.stack, frame.stack.labels
      ensures Valid()
      ensures var (b, p) := FillPacket(old(frame.View()), a, seqNum); View() == old(View()).(builder := b, skb := p)
    {
      skb := frame.FillPacket(a, seqNum);
    }

    method ResetCloneCount()
      modifies this`cloneCount, this`lastSize, this`skbsBuilt
      ensures View() == if skb.None? then old(View()).(cloneCount := (old(cloneCount) - 1) % TWO_32)
                        else old(View()).(lastSize := skb.value.len, skbsBuilt := (old(skbsBuilt) + 1) % TWO_64,
                                          cloneCount := 0)
    {
      if skb.None? {
        cloneCount := (cloneCount - 1) % TWO_32;
      } else {
        lastSize, skbsBuilt, cloneCount := skb.value.len, (skbsBuilt + 1) % TWO_64, 0;
      }
    }

    method RebuildPacket(a: BuildInput)
      requires Valid()
      modifies this`skb, this`cloneCount, this`lastSize, this`skbsBuilt, frame`ipId,
               frame.headers, frame.headers.flows, frame.headers.hh, frame.stack, frame.stack.labels
      ensures Valid() && View() == Rebuild(old(View()), a)
    {
      NewPacket(a);
      ResetCloneCount();
    }

    /** Makes sure there is a packet to send, unless there is no memory. */
    method PreparePacket(a: BuildInput)
      requires Valid()
      modifies this`skb, this`cloneCount, this`lastSize, this`skbsBuilt, frame`ipId,
               frame.headers, frame.headers.flows, frame.headers.hh, frame.stack, frame.stack.labels
      ensures Valid() && View() == Prepare(settings, old(View()), a)
    {
      var rebuild := CountClone();
      if rebuild {
        RebuildPacket(a);
      }
    }

    /** The counters after the queue or the driver has had the packet. */
    method Account(o: Outcome)
      modifies this`lastOk, this`sofar, this`seqNum, this`txBytes, this`errors
      ensures View() == Transmit(old(View()), o)
    {
      match o
      case Frozen => lastOk := false;
      case Ok =>
        lastOk := true;
        sofar := (sofar + 1) % TWO_64;
        seqNum := (seqNum + 1) % TWO_32;
        txBytes := (txBytes + lastSize) % TWO_64;
      case Drop | Cn | Policed => errors := (errors + 1) % TWO_64;
      case Other =>
        errors := (errors + 1) % TWO_64;
        lastOk := false;
      case Locked | Busy => lastOk := false;
    }

    /** Everything after the packet is there: pacing, the driver, and the count. */
    method DeliverPacket(c: Clock, o: Outcome)
      modifies this`nextTx, this`lastOk, this`sofar, this`seqNum, this`txBytes, this`errors, this`skb, this`running
      ensures View() == Deliver(settings, old(View()), o)
    {
      if settings.delay > 0 && lastOk {
        var _ := Spin(c);
      }
      Account(o);
      if settings.count != 0 && sofar >= settings.count {
        StopDevice();
      }
    }

    method BuildAndDeliver(a: Attempt)
      requires Valid()
      modifies this`skb, this`cloneCount, this`lastSize, this`skbsBuilt, this`nextTx, this`lastOk, this`sofar,
               this`seqNum, this`txBytes, this`errors, this`running, frame`ipId,
               frame.headers, frame.headers.flows, frame.headers.hh, frame.stack, frame.stack.labels
      ensures Valid()
      ensures var p := Prepare(settings, old(View()), a.build);
              View() == if p.skb.None? then p else Deliver(settings, p, a.outcome)
    {
      PreparePacket(a.build);
      if skb.Some? {
        DeliverPacket(a.clock, a.outcome);
      }
    }

    /** One attempt to send. */
    method Xmit(a: Attempt)
      requires Valid()
      modifies this`skb, this`cloneCount, this`lastSize, this`skbsBuilt, this`nextTx, this`lastOk, this`sofar,
               this`seqNum, this`txBytes, this`errors, this`running, frame`ipId,
               frame.headers, frame.headers.flows, frame.headers.hh, frame.stack, frame.stack.labels
      ensures Valid() && View() == PktgenTransmit.Xmit(settings, old(View()), a)
    {
      if !a.online {
        StopDevice();
      } else if settings.delay == NEVER {
        nextTx := a.clock.now + NEVER;
      } else {
        BuildAndDeliver(a);
      }
    }
  }
}
