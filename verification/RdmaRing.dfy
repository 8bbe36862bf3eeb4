/** The request ring: per-slot free flags and the pass that posts one operation on every
    free slot, lowest slot first, until the device refuses one. */
module RdmaRing {

  datatype Mr = Mr(addr: nat, rkey: nat)

  datatype OpKind = ReadOp | WriteOp

  /** A posted RDMA work request: the slot it was posted for, and the buffers it names. */
  datatype Op = Op(kind: OpKind, slot: nat, local: Mr, remote: Mr)

  function FreeSlots(free: seq<bool>): nat {
    if free == [] then 0 else (if free[0] then 1 else 0) + FreeSlots(free[1..])
  }

  lemma {:induction false} FreeSlotsConcat(a: seq<bool>, b: seq<bool>)
    ensures FreeSlots(a + b) == FreeSlots(a) + FreeSlots(b)
  {
    if a == [] {
      assert a + b == b;
    } else {
      FreeSlotsConcat(a[1..], b);
      assert (a + b)[1..] == a[1..] + b;
    }
  }

  lemma FreeSlotsUpdate(free: seq<bool>, i: nat, v: bool)
    requires i < |free|
    ensures FreeSlots(free[i := v]) + (if free[i] then 1 else 0) == FreeSlots(free) + (if v then 1 else 0)
  {
    assert free == free[..i] + ([free[i]] + free[i + 1..]);
    assert free[i := v] == free[..i] + ([v] + free[i + 1..]);
    FreeSlotsConcat(free[..i], [free[i]] + free[i + 1..]);
    FreeSlotsConcat(free[..i], [v] + free[i + 1..]);
  }

  lemma {:induction false} FreeSlotsBound(free: seq<bool>)
    ensures FreeSlots(free) <= |free|
    ensures FreeSlots(free) == |free| <==> forall i :: 0 <= i < |free| ==> free[i]
  {
    if free != [] {
      FreeSlotsBound(free[1..]);
      assert forall i :: 1 <= i < |free| ==> free[i] == free[1..][i - 1];
      if forall i :: 0 <= i < |free| ==> free[i] {
        assert forall i :: 0 <= i < |free[1..]| ==> free[1..][i] == free[i + 1];
      }
    }
  }

  /** The flags and the slots posted when the pass has reached slot i and the device will
      accept `accept` more requests before it refuses one. */
  function PostFrom(free: seq<bool>, i: nat, accept: nat): (r: (seq<bool>, seq<nat>))
    requires i <= |free|
    decreases |free| - i
  {
    if i == |free| then (free, [])
    else if !free[i] then PostFrom(free, i + 1, accept)
    else if accept == 0 then (free, [])
    else
      var rest := PostFrom(free[i := false], i + 1, accept - 1);
      (rest.0, [i] + rest.1)
  }

  ghost predicate Increasing(s: seq<nat>) {
    forall a, b :: 0 <= a < b < |s| ==> s[a] < s[b]
  }

  /** A pass takes exactly the lowest free slots, as many as the device accepts, clears
      their flags and no others. */
  lemma {:induction false} PostFromTakesLowestFree(free: seq<bool>, i: nat, accept: nat)
    requires i <= |free|
    ensures var (after, taken) := PostFrom(free, i, accept);
            && |after| == |free|
            && Increasing(taken)
            && (forall s :: s in taken ==> i <= s < |free| && free[s])
            && (forall j :: 0 <= j < |free| ==> (after[j] <==> free[j] && j !in taken))
            && (forall j :: i <= j < |free| && after[j] ==> |taken| == accept && forall s :: s in taken ==> s < j)
            && |taken| <= accept
            && FreeSlots(after) + |taken| == FreeSlots(free)
    decreases |free| - i
  {
    if i == |free| || (free[i] && accept == 0) {
    } else if !free[i] {
      PostFromTakesLowestFree(free, i + 1, accept);
    } else {
      PostFromTakesLowestFree(free[i := false], i + 1, accept - 1);
      FreeSlotsUpdate(free, i, false);
      var rest := PostFrom(free[i := false], i + 1, accept - 1);
      assert forall s :: s in rest.1 ==> free[i := false][s];
      assert forall k :: 0 <= k < |rest.1| ==> rest.1[k] in rest.1;
      assert forall s :: s in [i] + rest.1 <==> s == i || s in rest.1;
    }
  }

  /** From slot 0 the number posted is the smaller of the free slots and the acceptances. */
  lemma PostAllCount(free: seq<bool>, accept: nat)
    ensures |PostFrom(free, 0, accept).1| == if FreeSlots(free) <= accept then FreeSlots(free) else accept
  {
    PostFromTakesLowestFree(free, 0, accept);
    var (after, taken) := PostFrom(free, 0, accept);
    FreeSlotsBound(after);
    if |taken| < accept {
      assert forall j :: 0 <= j < |after| ==> !after[j];
      NoneFree(after);
    }
  }

  lemma {:induction false} NoneFree(free: seq<bool>)
    requires forall j :: 0 <= j < |free| ==> !free[j]
    ensures FreeSlots(free) == 0
  {
    if free != [] {
      NoneFree(free[1..]);
    }
  }

  /** The requests a pass posts, one per taken slot. */
  function Requests(kind: OpKind, taken: seq<nat>, local: seq<Mr>, remote: seq<Mr>): (r: seq<Op>)
    requires forall k :: 0 <= k < |taken| ==> taken[k] < |local| && taken[k] < |remote|
    ensures |r| == |taken|
    ensures forall k :: 0 <= k < |r| ==> r[k] == Op(kind, taken[k], local[taken[k]], remote[taken[k]])
  {
    seq(|taken|, k requires 0 <= k < |taken| => Op(kind, taken[k], local[taken[k]], remote[taken[k]]))
  }

  /** How many of the given operations were posted for slot i. */
  function Holders(ops: seq<Op>, i: nat): nat {
    if ops == [] then 0 else (if ops[0].slot == i then 1 else 0) + Holders(ops[1..], i)
  }

  lemma {:induction false} HoldersConcat(a: seq<Op>, b: seq<Op>, i: nat)
    ensures Holders(a + b, i) == Holders(a, i) + Holders(b, i)
  {
    if a == [] {
      assert a + b == b;
    } else {
      HoldersConcat(a[1..], b, i);
      assert (a + b)[1..] == a[1..] + b;
    }
  }

  function Without(ops: seq<Op>, k: nat): seq<Op>
    requires k < |ops|
  {
    ops[..k] + ops[k + 1..]
  }

  lemma HoldersWithout(ops: seq<Op>, k: nat, i: nat)
    requires k < |ops|
    ensures Holders(ops, i) == Holders(Without(ops, k), i) + (if ops[k].slot == i then 1 else 0)
  {
    HoldersConcat(ops[..k], ops[k + 1..], i);
    HoldersConcat(ops[..k], [ops[k]] + ops[k + 1..], i);
    assert ops == ops[..k] + ([ops[k]] + ops[k + 1..]);
  }

  lemma {:induction false} HoldersOfTwo(ops: seq<Op>, a: nat, b: nat)
    requires a < b < |ops|
    requires ops[a].slot == ops[b].slot
    ensures Holders(ops, ops[a].slot) >= 2
  {
    HoldersWithout(ops, b, ops[a].slot);
    var rest := Without(ops, b);
    assert rest[a] == ops[a];
    HoldersWithout(rest, a, ops[a].slot);
  }

  /** A pass adds one holder to each slot it takes and none to any other. */
  lemma {:induction false} HoldersOfRequests(kind: OpKind, taken: seq<nat>, local: seq<Mr>, remote: seq<Mr>, i: nat)
    requires Increasing(taken)
    requires forall k :: 0 <= k < |taken| ==> taken[k] < |local| && taken[k] < |remote|
    ensures Holders(Requests(kind, taken, local, remote), i) == if i in taken then 1 else 0
    decreases |taken|
  {
    if taken != [] {
      var rest := taken[1..];
      HoldersOfRequests(kind, rest, local, remote, i);
      assert Requests(kind, taken, local, remote)[1..] == Requests(kind, rest, local, remote);
      assert taken[0] !in rest;
      assert i in taken <==> i == taken[0] || i in rest;
    }
  }
}
