/** The worker's choice of device: the one that is due first, and how fair that is. */
module PktgenScheduler {
  import opened Basics
  import opened ModArith
  import opened PktgenFrame
  import opened PktgenTransmit
  import opened PktgenPacing
  import opened PktgenTransmitDevice

  // ---- The choice ----

  /** The chosen device runs, none that runs is due before it, and it is the first of those
      due at the same time. */
  ghost predicate IsNext(due: seq<int>, running: seq<bool>, i: nat)
    requires |due| == |running|
  {
    && i < |due| && running[i]
    && (forall j :: 0 <= j < |due| && running[j] ==> due[i] <= due[j])
    && (forall j :: 0 <= j < i && running[j] ==> due[i] < due[j])
  }

  lemma NextIsUnique(due: seq<int>, running: seq<bool>, i: nat, j: nat)
    requires |due| == |running| && IsNext(due, running, i) && IsNext(due, running, j)
    ensures i == j
  {
  }

  ghost function Due(list: seq<TransmitDevice>): (due: seq<int>)
    reads list
    ensures |due| == |list| && forall k :: 0 <= k < |list| ==> due[k] == list[k].nextTx
  {
    seq(|list|, k requires 0 <= k < |list| reads list => list[k].nextTx)
  }

  ghost function Running(list: seq<TransmitDevice>): (running: seq<bool>)
    reads list
    ensures |running| == |list| && forall k :: 0 <= k < |list| ==> running[k] == list[k].running
  {
    seq(|list|, k requires 0 <= k < |list| reads list => list[k].running)
  }

  /** next_to_run: none exactly when no device runs. */
  method NextToRun(list: seq<TransmitDevice>) returns (best: Option<nat>)
    ensures best.None? <==> forall k :: 0 <= k < |list| ==> !list[k].running
    ensures best.Some? ==> IsNext(Due(list), Running(list), best.value)
  {
    best := None;
    var k := 0;
    while k < |list|
      invariant 0 <= k <= |list|
      invariant best.None? <==> forall j :: 0 <= j < k ==> !list[j].running
      invariant best.Some? ==> best.value < k && list[best.value].running
      invariant best.Some? ==>
                  && (forall j :: 0 <= j < k && list[j].running ==> list[best.value].nextTx <= list[j].nextTx)
                  && (forall j :: 0 <= j < best.value && list[j].running ==> list[best.value].nextTx < list[j].nextTx)
    {
      if list[k].running {
        if best.None? || list[k].nextTx < list[best.value].nextTx {
          best := Some(k);
        }
      }
      k := k + 1;
    }
  }

  // ---- What an attempt does to the departure ----

  /** The attempt waits first, because the device was last sent, and it has a packet. */
  predicate Moves(st: Settings, t: Tx, a: Attempt) {
    t.lastOk && (NeedsBuild(st, t) ==> a.build.gotSkb)
  }

  lemma DeliverMoves(st: Settings, p: Tx, o: Outcome)
    ensures Deliver(st, p, o).nextTx == p.nextTx + if p.lastOk then st.delay else 0
    ensures Deliver(st, p, o).lastOk == if o.Ok? then true else Consumed(o) && p.lastOk
  {
  }

  /** Whatever becomes of the packet, a device that was last sent is next due one delay later,
      and any other stays due when it was: the wait comes before the driver. */
  lemma XmitMoves(st: Settings, t: Tx, a: Attempt)
    requires Valid(t.builder) && a.online && st.delay < NEVER
    ensures Xmit(st, t, a).nextTx == t.nextTx + if Moves(st, t, a) then st.delay else 0
    ensures Xmit(st, t, a).lastOk ==
            if NeedsBuild(st, t) && !a.build.gotSkb then t.lastOk
            else if a.outcome.Ok? then true else Consumed(a.outcome) && t.lastOk
  {
    PrepareKeeps(st, t, a.build);
    DeliverMoves(st, Prepare(st, t, a.build), a.outcome);
  }

  // ---- A thread ----

  function Times(ts: seq<Tx>): (due: seq<int>)
    ensures |due| == |ts| && forall j :: 0 <= j < |ts| ==> due[j] == ts[j].nextTx
  {
    seq(|ts|, j requires 0 <= j < |ts| => ts[j].nextTx)
  }

  function AllRunning(n: nat): (running: seq<bool>)
    ensures |running| == n && forall j :: 0 <= j < n ==> running[j]
  {
    seq(n, _ => true)
  }

  /** Every device of the thread runs and has a finite delay. */
  ghost predicate Live(sts: seq<Settings>, ts: seq<Tx>) {
    && |ts| == |sts|
    && forall j :: 0 <= j < |ts| ==> Valid(ts[j].builder) && ts[j].running && sts[j].delay < NEVER
  }

  /** One turn of the worker: the device due first makes an attempt, with any outcome. */
  ghost predicate WorkerStep(sts: seq<Settings>, ts: seq<Tx>, us: seq<Tx>, i: nat, a: Attempt)
    requires Live(sts, ts)
  {
    IsNext(Times(ts), AllRunning(|ts|), i) && a.online && us == ts[i := Xmit(sts[i], ts[i], a)]
  }

  ghost predicate WorkerAt(sts: seq<Settings>, states: seq<seq<Tx>>, picks: seq<nat>, xs: seq<Attempt>, k: nat)
    requires k < |picks| == |xs| < |states|
  {
    Live(sts, states[k]) && WorkerStep(sts, states[k], states[k + 1], picks[k], xs[k])
  }

  /** A run of a thread, over every mix of outcomes, during which all its devices keep
      running. */
  ghost predicate IsThreadRun(sts: seq<Settings>, states: seq<seq<Tx>>, picks: seq<nat>, xs: seq<Attempt>) {
    && |states| == |picks| + 1 == |xs| + 1
    && forall k :: 0 <= k < |xs| ==> WorkerAt(sts, states, picks, xs, k)
  }

  /** The device that is due first moves on by its delay, or stays; the others stay. */
  ghost predicate Advances(delays: seq<nat>, due: seq<int>, after: seq<int>, i: nat, moved: bool) {
    && |due| == |after| == |delays| && IsNext(due, AllRunning(|due|), i)
    && after == due[i := due[i] + if moved then delays[i] else 0]
  }

  /** times[k] are the departure times before turn k, in which device picks[k] is chosen and
      its departure moves or not. */
  ghost predicate IsSchedule(delays: seq<nat>, times: seq<seq<int>>, picks: seq<nat>, moved: seq<bool>) {
    && |times| == |picks| + 1 == |moved| + 1
    && forall k {:trigger picks[k]} :: 0 <= k < |picks| ==> Advances(delays, times[k], times[k + 1], picks[k], moved[k])
  }

  ghost predicate IsDelays(sts: seq<Settings>, delays: seq<nat>) {
    |delays| == |sts| && forall j :: 0 <= j < |sts| ==> delays[j] == sts[j].delay
  }

  lemma WorkerAdvances(sts: seq<Settings>, ts: seq<Tx>, us: seq<Tx>, i: nat, a: Attempt, delays: seq<nat>)
    requires Live(sts, ts) && WorkerStep(sts, ts, us, i, a) && IsDelays(sts, delays)
    ensures Advances(delays, Times(ts), Times(us), i, Moves(sts[i], ts[i], a))
  {
    XmitMoves(sts[i], ts[i], a);
    var step := if Moves(sts[i], ts[i], a) then delays[i] else 0;
    assert Times(us) == Times(ts)[i := Times(ts)[i] + step];
  }

  /** Whether the departure moves in turn k. */
  ghost predicate MovesAt(sts: seq<Settings>, states: seq<seq<Tx>>, picks: seq<nat>, xs: seq<Attempt>, k: nat)
    requires k < |picks| == |xs| < |states|
  {
    picks[k] < |sts| == |states[k]| && Moves(sts[picks[k]], states[k][picks[k]], xs[k])
  }

  /** The departure times of a thread are a schedule, so all that follows holds of it. */
  lemma ThreadRunIsSchedule(sts: seq<Settings>, states: seq<seq<Tx>>, picks: seq<nat>, xs: seq<Attempt>,
                            delays: seq<nat>, times: seq<seq<int>>, moved: seq<bool>)
    requires IsThreadRun(sts, states, picks, xs) && IsDelays(sts, delays)
    requires |times| == |states| && forall k :: 0 <= k < |states| ==> times[k] == Times(states[k])
    requires |moved| == |xs| && forall k :: 0 <= k < |xs| ==> moved[k] == MovesAt(sts, states, picks, xs, k)
    ensures IsSchedule(delays, times, picks, moved)
  {
    forall k {:trigger picks[k]} | 0 <= k < |picks|
      ensures Advances(delays, times[k], times[k + 1], picks[k], moved[k])
    {
      assert WorkerAt(sts, states, picks, xs, k);
      WorkerAdvances(sts, states[k], states[k + 1], picks[k], xs[k], delays);
    }
  }

  /** The worker has no choice: the delays, the first departure times and which attempts move
      a departure determine every turn. */
  lemma {:induction false} ScheduleIsDetermined(delays: seq<nat>, times: seq<seq<int>>, picks: seq<nat>,
                                                others: seq<seq<int>>, choices: seq<nat>, moved: seq<bool>, k: nat)
    requires IsSchedule(delays, times, picks, moved) && IsSchedule(delays, others, choices, moved)
    requires times[0] == others[0] && k <= |picks|
    ensures times[k] == others[k] && picks[..k] == choices[..k]
  {
    if k > 0 {
      ScheduleIsDetermined(delays, times, picks, others, choices, moved, k - 1);
      assert Advances(delays, times[k - 1], times[k - 1 + 1], picks[k - 1], moved[k - 1]);
      assert Advances(delays, others[k - 1], others[k - 1 + 1], choices[k - 1], moved[k - 1]);
      NextIsUnique(times[k - 1], AllRunning(|delays|), picks[k - 1], choices[k - 1]);
      assert picks[..k] == picks[..k - 1] + [picks[k - 1]] && choices[..k] == choices[..k - 1] + [choices[k - 1]];
    }
  }

  // ---- Keeping the thread ----

  /** A turn that leaves the departure where it was is followed by another turn of the same
      device. */
  lemma StillFirst(delays: seq<nat>, times: seq<seq<int>>, picks: seq<nat>, moved: seq<bool>, k: nat)
    requires IsSchedule(delays, times, picks, moved) && k + 1 < |picks|
    requires picks[k] < |delays| && (!moved[k] || delays[picks[k]] == 0)
    ensures picks[k + 1] == picks[k]
  {
    assert Advances(delays, times[k], times[k + 1], picks[k], moved[k]);
    assert Advances(delays, times[k + 1], times[k + 1 + 1], picks[k + 1], moved[k + 1]);
    assert times[k + 1] == times[k];
    NextIsUnique(times[k], AllRunning(|delays|), picks[k], picks[k + 1]);
  }

  /** A device without a delay, once chosen, is chosen for ever. */
  lemma {:induction false} NoDelayKeepsThread(delays: seq<nat>, times: seq<seq<int>>, picks: seq<nat>,
                                              moved: seq<bool>, lo: nat, k: nat)
    requires IsSchedule(delays, times, picks, moved) && lo <= k < |picks|
    requires picks[lo] < |delays| && delays[picks[lo]] == 0
    ensures picks[k] == picks[lo]
    decreases k
  {
    if lo < k {
      NoDelayKeepsThread(delays, times, picks, moved, lo, k - 1);
      StillFirst(delays, times, picks, moved, k - 1);
    }
  }

  /** The driver or the queue wants the packet again. */
  predicate Refused(o: Outcome) { !o.Ok? && !Consumed(o) }

  /** A device that was refused and is chosen again is chosen in every turn until a packet is
      sent: there is no bound on its turns in a row. */
  lemma {:induction false} RefusedKeepsThread(sts: seq<Settings>, states: seq<seq<Tx>>, picks: seq<nat>,
                                              xs: seq<Attempt>, lo: nat, k: nat)
    requires IsThreadRun(sts, states, picks, xs) && lo <= k < |picks| && picks[lo] < |states[lo]|
    requires !states[lo][picks[lo]].lastOk && forall t :: lo <= t < k ==> !xs[t].outcome.Ok?
    ensures picks[k] == picks[lo] < |states[k]| && !states[k][picks[lo]].lastOk
    ensures states[k][picks[lo]].nextTx == states[lo][picks[lo]].nextTx
    decreases k
  {
    if lo < k {
      RefusedKeepsThread(sts, states, picks, xs, lo, k - 1);
      RefusedOnceMore(sts, states, picks, xs, k - 1);
    }
  }

  lemma RefusedOnceMore(sts: seq<Settings>, states: seq<seq<Tx>>, picks: seq<nat>, xs: seq<Attempt>, k: nat)
    requires IsThreadRun(sts, states, picks, xs) && k + 1 < |picks| && picks[k] < |states[k]|
    requires !states[k][picks[k]].lastOk && !xs[k].outcome.Ok?
    ensures picks[k + 1] == picks[k] < |states[k + 1]| && !states[k + 1][picks[k]].lastOk
    ensures states[k + 1][picks[k]].nextTx == states[k][picks[k]].nextTx
  {
    var i := picks[k];
    assert WorkerAt(sts, states, picks, xs, k) && WorkerAt(sts, states, picks, xs, k + 1);
    XmitMoves(sts[i], states[k][i], xs[k]);
    assert Times(states[k + 1]) == Times(states[k]);
    NextIsUnique(Times(states[k]), AllRunning(|sts|), i, picks[k + 1]);
  }

  // ---- Fairness ----

  /** How often j is chosen in turns lo to hi - 1. */
  function Chosen(picks: seq<nat>, j: nat, lo: nat, hi: nat): nat
    requires lo <= hi <= |picks|
  {
    if lo == hi then 0 else Chosen(picks, j, lo, hi - 1) + if picks[hi - 1] == j then 1 else 0
  }

  /** How often the departure of j moves in turns lo to hi - 1. */
  function Moved(picks: seq<nat>, moved: seq<bool>, j: nat, lo: nat, hi: nat): nat
    requires lo <= hi <= |picks| == |moved|
  {
    if lo == hi then 0 else Moved(picks, moved, j, lo, hi - 1) + if picks[hi - 1] == j && moved[hi - 1] then 1 else 0
  }

  lemma OneMore(m: nat, d: nat)
    ensures (m + 1) * d == m * d + d
  {
  }

  /** While i waits for its next turn, its own departure stands and every other has moved on
      by one delay for each time it moved. */
  lemma {:induction false} WhileWaiting(delays: seq<nat>, times: seq<seq<int>>, picks: seq<nat>, moved: seq<bool>,
                                        i: nat, j: nat, lo: nat, k: nat)
    requires IsSchedule(delays, times, picks, moved) && lo < k <= |picks| && picks[lo] == i != j < |delays|
    requires forall t :: lo < t < k ==> picks[t] != i
    ensures i < |delays| == |times[k]| == |times[lo]| && times[k][i] <= times[lo][i] + delays[i]
    ensures times[k][j] >= times[lo][i] + Moved(picks, moved, j, lo + 1, k) * delays[j]
    ensures var m := Moved(picks, moved, j, lo + 1, k); m > 0 ==> (m - 1) * delays[j] <= delays[i]
    decreases k
  {
    if k == lo + 1 {
      assert Advances(delays, times[lo], times[lo + 1], picks[lo], moved[lo]);
    } else {
      WhileWaiting(delays, times, picks, moved, i, j, lo, k - 1);
      assert Advances(delays, times[k - 1], times[k - 1 + 1], picks[k - 1], moved[k - 1]);
      OneMore(Moved(picks, moved, j, lo + 1, k - 1), delays[j]);
    }
  }

  /** Between two consecutive turns of device i, over every mix of outcomes, the departure of
      device j moves at most d_i / d_j + 1 times. */
  lemma Fair(delays: seq<nat>, times: seq<seq<int>>, picks: seq<nat>, moved: seq<bool>,
             i: nat, j: nat, lo: nat, hi: nat)
    requires IsSchedule(delays, times, picks, moved) && lo < hi <= |picks| && picks[lo] == i != j < |delays|
    requires delays[j] > 0 && forall t :: lo < t < hi ==> picks[t] != i
    ensures i < |delays| && Moved(picks, moved, j, lo + 1, hi) <= delays[i] / delays[j] + 1
  {
    WhileWaiting(delays, times, picks, moved, i, j, lo, hi);
    var m := Moved(picks, moved, j, lo + 1, hi);
    if m > 0 {
      QuotientAtLeast(delays[i], delays[j], m - 1);
    }
  }

  lemma {:induction false} EachTurnMoves(picks: seq<nat>, moved: seq<bool>, j: nat, lo: nat, hi: nat)
    requires lo <= hi <= |picks| == |moved| && forall t :: lo <= t < hi && picks[t] == j ==> moved[t]
    ensures Chosen(picks, j, lo, hi) == Moved(picks, moved, j, lo, hi)
  {
    if lo < hi {
      EachTurnMoves(picks, moved, j, lo, hi - 1);
    }
  }

  /** If each turn of j moves its departure, then j has at most d_i / d_j + 1 turns between two
      consecutive turns of i. */
  lemma FairTurns(delays: seq<nat>, times: seq<seq<int>>, picks: seq<nat>, moved: seq<bool>,
                  i: nat, j: nat, lo: nat, hi: nat)
    requires IsSchedule(delays, times, picks, moved) && lo < hi <= |picks| && picks[lo] == i != j < |delays|
    requires delays[j] > 0 && forall t :: lo < t < hi ==> picks[t] != i && (picks[t] == j ==> moved[t])
    ensures i < |delays| && Chosen(picks, j, lo + 1, hi) <= delays[i] / delays[j] + 1
  {
    Fair(delays, times, picks, moved, i, j, lo, hi);
    EachTurnMoves(picks, moved, j, lo + 1, hi);
  }

  /** Each attempt of j has memory, and its packet is sent or consumed. */
  ghost predicate NeverRefused(picks: seq<nat>, xs: seq<Attempt>, j: nat)
    requires |picks| == |xs|
  {
    forall k :: 0 <= k < |xs| && picks[k] == j ==> xs[k].build.gotSkb && !Refused(xs[k].outcome)
  }

  /** A device that was last sent, and is never refused, moves its departure in each turn; that
      packets are dropped makes no difference. */
  lemma {:induction false} EachTurnOfSteady(sts: seq<Settings>, states: seq<seq<Tx>>, picks: seq<nat>,
                                            xs: seq<Attempt>, j: nat, k: nat)
    requires IsThreadRun(sts, states, picks, xs) && k <= |xs| && NeverRefused(picks, xs, j)
    requires j < |sts| == |states[0]| && states[0][j].lastOk
    ensures |states[k]| == |sts| && states[k][j].lastOk
    ensures k < |xs| && picks[k] == j ==> MovesAt(sts, states, picks, xs, k)
  {
    if k > 0 {
      EachTurnOfSteady(sts, states, picks, xs, j, k - 1);
      assert WorkerAt(sts, states, picks, xs, k - 1);
      var i := picks[k - 1];
      XmitMoves(sts[i], states[k - 1][i], xs[k - 1]);
    }
  }

  /** No device is ahead of another by more than `most`. */
  predicate Within(due: seq<int>, most: nat) {
    forall a, b :: 0 <= a < |due| && 0 <= b < |due| ==> due[a] - due[b] <= most
  }

  /** Once the departure times are within the largest delay of each other they stay so. */
  lemma {:induction false} SpreadStays(delays: seq<nat>, times: seq<seq<int>>, picks: seq<nat>, moved: seq<bool>,
                                       most: nat, lo: nat, hi: nat)
    requires IsSchedule(delays, times, picks, moved) && lo <= hi <= |picks| && Within(times[lo], most)
    requires forall j :: 0 <= j < |delays| ==> delays[j] <= most
    ensures Within(times[hi], most)
    decreases hi
  {
    if lo < hi {
      SpreadStays(delays, times, picks, moved, most, lo, hi - 1);
      assert Advances(delays, times[hi - 1], times[hi - 1 + 1], picks[hi - 1], moved[hi - 1]);
    }
  }

  /** From its first turn on, a device is never due more than its own delay after any other:
      whatever the start times, they draw together. */
  lemma {:induction false} NeverFarAhead(delays: seq<nat>, times: seq<seq<int>>, picks: seq<nat>, moved: seq<bool>,
                                         i: nat, j: nat, lo: nat, k: nat)
    requires IsSchedule(delays, times, picks, moved) && lo < k <= |picks| && picks[lo] == i && j < |delays|
    ensures i < |delays| == |times[k]| && times[k][i] <= times[k][j] + delays[i]
    decreases k
  {
    assert Advances(delays, times[k - 1], times[k - 1 + 1], picks[k - 1], moved[k - 1]);
    if k - 1 > lo {
      NeverFarAhead(delays, times, picks, moved, i, j, lo, k - 1);
    }
  }

  lemma {:induction false} Departures(delays: seq<nat>, times: seq<seq<int>>, picks: seq<nat>, moved: seq<bool>,
                                      j: nat, k: nat)
    requires IsSchedule(delays, times, picks, moved) && k <= |picks| && j < |delays| == |times[0]|
    ensures |times[k]| == |delays| && times[k][j] == times[0][j] + Moved(picks, moved, j, 0, k) * delays[j]
  {
    if k > 0 {
      Departures(delays, times, picks, moved, j, k - 1);
      assert Advances(delays, times[k - 1], times[k - 1 + 1], picks[k - 1], moved[k - 1]);
      OneMore(Moved(picks, moved, j, 0, k - 1), delays[j]);
    }
  }

  /** Devices that start together share the thread in inverse proportion to their delays: the
      time device i has been given is never more than one of its delays beyond any other's. */
  lemma ProportionalShare(delays: seq<nat>, times: seq<seq<int>>, picks: seq<nat>, moved: seq<bool>,
                          i: nat, j: nat, k: nat)
    requires IsSchedule(delays, times, picks, moved) && k <= |picks| && i < |delays| && j < |delays|
    requires |times[0]| == |delays| && times[0][i] == times[0][j]
    ensures Moved(picks, moved, i, 0, k) * delays[i] <= Moved(picks, moved, j, 0, k) * delays[j] + delays[i]
  {
    Departures(delays, times, picks, moved, i, k);
    Departures(delays, times, picks, moved, j, k);
    if Moved(picks, moved, i, 0, k) == 0 {
      assert Moved(picks, moved, j, 0, k) * delays[j] >= 0;
    } else {
      var lo := LastMoved(picks, moved, i, k);
      NeverFarAhead(delays, times, picks, moved, i, j, lo, k);
    }
  }

  lemma {:induction false} LastMoved(picks: seq<nat>, moved: seq<bool>, i: nat, k: nat) returns (lo: nat)
    requires k <= |picks| == |moved| && Moved(picks, moved, i, 0, k) > 0
    ensures lo < k && picks[lo] == i
  {
    if picks[k - 1] == i {
      lo := k - 1;
    } else {
      lo := LastMoved(picks, moved, i, k - 1);
    }
  }
}
