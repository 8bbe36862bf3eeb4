/** The counters that walk a header field through its range, one step per built packet, and
    the carry chain that adds an offset to a MAC address. */
module PktgenOdometer {
  import opened ModArith
  import opened Basics

  /** The next port in order: the maximum is exclusive. */
  function NextPort(lo: u16, hi: u16, cur: u16): u16 {
    var t := (cur + 1) % TWO_16;
    if t >= hi then lo else t
  }

  /** The next address or packet size in order: the maximum is inclusive, and the increment
      wraps before it is compared. */
  function NextInRange(lo: u32, hi: u32, cur: u32): u32 {
    var t := (cur + 1) % TWO_32;
    if t > hi then lo else t
  }

  function NextOffset(count: u32, cur: u32): u32 {
    var t := (cur + 1) % TWO_32;
    if t >= count then 0 else t
  }

  /** One step of a UDP port; an empty range leaves it alone. */
  function StepPort(lo: u16, hi: u16, random: bool, cur: u16, draw: u32): u16 {
    if lo >= hi then cur
    else if random then Rem(draw, hi - lo) + lo
    else NextPort(lo, hi, cur)
  }

  /** One step of an address or a size; a random walk leaves the maximum out. */
  function StepRange(lo: u32, hi: u32, random: bool, cur: u32, draw: u32): u32 {
    if lo >= hi then cur
    else if random then Rem(draw, hi - lo) + lo
    else NextInRange(lo, hi, cur)
  }

  /** The MAC offset of this packet and the one to use next. */
  function StepOffset(count: u32, random: bool, cur: u32, draw: u32): (u32, u32)
    requires count > 1
  {
    if random then (Rem(draw, count), cur) else (cur, NextOffset(count, cur))
  }

  function Ports(lo: u16, hi: u16, n: nat): u16 {
    if n == 0 then lo else NextPort(lo, hi, Ports(lo, hi, n - 1))
  }

  function Walk(lo: u32, hi: u32, n: nat): u32 {
    if n == 0 then lo else NextInRange(lo, hi, Walk(lo, hi, n - 1))
  }

  function Offsets(count: u32, n: nat): u32 {
    if n == 0 then 0 else NextOffset(count, Offsets(count, n - 1))
  }

  lemma PortStep(lo: u16, hi: u16, n: nat, r: int)
    requires lo < hi && 0 <= r < hi - lo && Ports(lo, hi, n) == lo + r
    ensures Ports(lo, hi, n + 1) == lo + if r == hi - lo - 1 then 0 else r + 1
  {
  }

  /** The port after n steps from the minimum: a cycle of hi - lo values. */
  lemma {:induction false} PortClosedForm(lo: u16, hi: u16, n: nat)
    requires lo < hi
    ensures Ports(lo, hi, n) == lo + Rem(n, hi - lo)
  {
    if n > 0 {
      PortClosedForm(lo, hi, n - 1);
      PortStep(lo, hi, n - 1, Rem(n - 1, hi - lo));
      RemSucc(n - 1, hi - lo);
    }
  }

  /** Each period of an exclusive range visits every port once. */
  lemma PortCoverage(lo: u16, hi: u16, start: nat, port: u16)
    requires lo <= port < hi
    ensures var n := InWindow(start, hi - lo, port - lo);
            && start <= n < start + (hi - lo) && Ports(lo, hi, n) == port
            && forall k: nat :: start <= k < start + (hi - lo) && Ports(lo, hi, k) == port ==> k == n
  {
    WindowHitsOnce(start, hi - lo, port - lo);
    PortClosedForm(lo, hi, InWindow(start, hi - lo, port - lo));
    forall k: nat | start <= k < start + (hi - lo) && Ports(lo, hi, k) == port
      ensures k == InWindow(start, hi - lo, port - lo)
    {
      PortClosedForm(lo, hi, k);
    }
  }

  /** The inclusive walk cannot overflow, or its overflow lands on the minimum anyway. */
  predicate WrapSafe(lo: u32, hi: u32) { hi < TWO_32 - 1 || lo == 0 }

  lemma WalkStep(lo: u32, hi: u32, n: nat, r: int)
    requires lo < hi && WrapSafe(lo, hi) && 0 <= r <= hi - lo && Walk(lo, hi, n) == lo + r
    ensures Walk(lo, hi, n + 1) == lo + if r == hi - lo then 0 else r + 1
  {
  }

  lemma {:induction false} WalkClosedForm(lo: u32, hi: u32, n: nat)
    requires lo < hi && WrapSafe(lo, hi)
    ensures Walk(lo, hi, n) == lo + Rem(n, hi - lo + 1)
  {
    if n > 0 {
      WalkClosedForm(lo, hi, n - 1);
      WalkStep(lo, hi, n - 1, Rem(n - 1, hi - lo + 1));
      RemSucc(n - 1, hi - lo + 1);
    }
  }

  lemma {:induction false} WalkToTop(lo: u32, hi: u32, n: nat)
    requires lo < hi && n <= hi - lo
    ensures Walk(lo, hi, n) == lo + n
  {
    if n > 0 {
      WalkToTop(lo, hi, n - 1);
    }
  }

  /** The walk stays in its range for ever exactly when it is wrap-safe: with the top
      address as the maximum it goes on to address 0 instead of back to the minimum. */
  lemma WalkStaysInRange(lo: u32, hi: u32)
    requires lo < hi
    ensures WrapSafe(lo, hi) <==> forall n: nat :: lo <= Walk(lo, hi, n) <= hi
  {
    if WrapSafe(lo, hi) {
      forall n: nat
        ensures lo <= Walk(lo, hi, n) <= hi
      {
        WalkClosedForm(lo, hi, n);
      }
    } else {
      WalkToTop(lo, hi, hi - lo);
      assert Walk(lo, hi, hi - lo + 1) == 0;
    }
  }

  /** Each period of the inclusive walk visits every value once. */
  lemma WalkCoverage(lo: u32, hi: u32, start: nat, v: u32)
    requires lo < hi && WrapSafe(lo, hi) && lo <= v <= hi
    ensures var n := InWindow(start, hi - lo + 1, v - lo);
            && start <= n <= start + (hi - lo) && Walk(lo, hi, n) == v
            && forall k: nat :: start <= k <= start + (hi - lo) && Walk(lo, hi, k) == v ==> k == n
  {
    WindowHitsOnce(start, hi - lo + 1, v - lo);
    WalkClosedForm(lo, hi, InWindow(start, hi - lo + 1, v - lo));
    forall k: nat | start <= k <= start + (hi - lo) && Walk(lo, hi, k) == v
      ensures k == InWindow(start, hi - lo + 1, v - lo)
    {
      WalkClosedForm(lo, hi, k);
    }
  }

  lemma OffsetStep(count: u32, n: nat, r: int)
    requires count > 1 && 0 <= r < count && Offsets(count, n) == r
    ensures Offsets(count, n + 1) == if r == count - 1 then 0 else r + 1
  {
  }

  lemma {:induction false} OffsetClosedForm(count: u32, n: nat)
    requires count > 1
    ensures Offsets(count, n) == Rem(n, count)
  {
    if n > 0 {
      OffsetClosedForm(count, n - 1);
      OffsetStep(count, n - 1, Rem(n - 1, count));
      RemSucc(n - 1, count);
    }
  }

  /** Random or not, a value between the limits stays between them. */
  lemma RangeStays(lo: u32, hi: u32, random: bool, cur: u32, draw: u32)
    requires lo <= cur <= hi < TWO_32 - 1
    ensures lo <= StepRange(lo, hi, random, cur, draw) <= hi
  {
  }

  /** Random walks stay in the half-open range, whatever the draw. */
  lemma RandomInHalfOpenRange(lo: u32, hi: u32, cur: u32, draw: u32)
    requires lo < hi
    ensures lo <= StepRange(lo, hi, true, cur, draw) < hi
    ensures hi < TWO_16 && cur < TWO_16 ==> lo <= StepPort(lo, hi, true, cur, draw) < hi
    ensures hi > 1 ==> 0 <= StepOffset(hi, true, cur, draw).0 < hi
  {
  }

  // ---- The MAC carry chain ----

  /** Bytes 1 to 5 of the address for offset mc: each byte is the low part of a sum whose
      high part is carried into the next. */
  function AddOffset(mac: seq<u8>, mc: u32): (r: seq<u8>)
    requires |mac| == 6
    ensures |r| == 5
  {
    var t5 := mac[5] + mc % 256;
    var t4 := mac[4] + mc / 256 % 256 + t5 / 256;
    var t3 := mac[3] + mc / 65536 % 256 + t4 / 256;
    var t2 := mac[2] + mc / 16777216 + t3 / 256;
    var t1 := mac[1] + t2 / 256;
    [t1 % 256, t2 % 256, t3 % 256, t4 % 256, t5 % 256]
  }

  /** Each sum is split into a carry and a digit; the carries cancel. */
  lemma CarriesCancel(b1: int, b2: int, b3: int, b4: int, b5: int, a0: int, a1: int, a2: int, a3: int,
                      q1: int, q2: int, q3: int, q4: int, q5: int, r1: int, r2: int, r3: int, r4: int, r5: int)
    requires b5 + a0 == 256 * q5 + r5 && b4 + a1 + q5 == 256 * q4 + r4 && b3 + a2 + q4 == 256 * q3 + r3
    requires b2 + a3 + q3 == 256 * q2 + r2 && b1 + q2 == 256 * q1 + r1
    ensures (((b1 * 256 + b2) * 256 + b3) * 256 + b4) * 256 + b5 + (((a3 * 256 + a2) * 256 + a1) * 256 + a0)
         == q1 * 0x100_0000_0000 + ((((r1 * 256 + r2) * 256 + r3) * 256 + r4) * 256 + r5)
  {
  }

  lemma SumOfBytes(b1: u8, b2: u8, b3: u8, b4: u8, b5: u8, mc: u32)
    ensures var t5 := b5 + mc % 256;
            var t4 := b4 + mc / 256 % 256 + t5 / 256;
            var t3 := b3 + mc / 65536 % 256 + t4 / 256;
            var t2 := b2 + mc / 16777216 + t3 / 256;
            var t1 := b1 + t2 / 256;
            (((b1 * 256 + b2) * 256 + b3) * 256 + b4) * 256 + b5 + mc
            == (t1 / 256) * 0x100_0000_0000
               + ((((t1 % 256 * 256 + t2 % 256) * 256 + t3 % 256) * 256 + t4 % 256) * 256 + t5 % 256)
  {
    FourBytes(mc);
    var t5 := b5 + mc % 256;
    var t4 := b4 + mc / 256 % 256 + t5 / 256;
    var t3 := b3 + mc / 65536 % 256 + t4 / 256;
    var t2 := b2 + mc / 16777216 + t3 / 256;
    var t1 := b1 + t2 / 256;
    CarriesCancel(b1, b2, b3, b4, b5, mc % 256, mc / 256 % 256, mc / 65536 % 256, mc / 16777216,
                  t1 / 256, t2 / 256, t3 / 256, t4 / 256, t5 / 256,
                  t1 % 256, t2 % 256, t3 % 256, t4 % 256, t5 % 256);
  }

  lemma NumberOfDigits(r: seq<u8>)
    requires |r| == 5
    ensures Number(r) == (((r[0] as int * 256 + r[1]) * 256 + r[2]) * 256 + r[3]) * 256 + r[4] < TWO_40
  {
    assert r[..4][..3] == r[..3] && r[..3][..2] == r[..2] && r[..2][..1] == r[..1] && r[..1][..0] == [];
    assert Number(r[..1]) == r[0] && Number(r[..2]) == r[0] as int * 256 + r[1];
    assert Number(r[..3]) == 256 * Number(r[..2]) + r[2] && Number(r[..4]) == 256 * Number(r[..3]) + r[3];
  }

  /** The five digits that are written, and what is carried out of the first. */
  lemma CarryOut(b: seq<u8>, mc: u32, r: seq<u8>, t1: int, t2: int, t3: int, t4: int, t5: int)
    requires |b| == |r| == 5 && r == [t1 % 256, t2 % 256, t3 % 256, t4 % 256, t5 % 256]
    requires t5 == b[4] + mc % 256 && t4 == b[3] + mc / 256 % 256 + t5 / 256
    requires t3 == b[2] + mc / 65536 % 256 + t4 / 256 && t2 == b[1] + mc / 16777216 + t3 / 256 && t1 == b[0] + t2 / 256
    ensures Number(b) + mc == (t1 / 256) * 0x100_0000_0000 + Number(r)
  {
    SumOfBytes(b[0], b[1], b[2], b[3], b[4], mc);
    NumberOfDigits(b);
    NumberOfDigits(r);
  }

  /** The carry chain is addition modulo 2^40. */
  lemma CarryChainAdds(mac: seq<u8>, mc: u32)
    requires |mac| == 6
    ensures Number(AddOffset(mac, mc)) == (Number(mac[1..]) + mc) % TWO_40
  {
    var t5 := mac[5] + mc % 256;
    var t4 := mac[4] + mc / 256 % 256 + t5 / 256;
    var t3 := mac[3] + mc / 65536 % 256 + t4 / 256;
    var t2 := mac[2] + mc / 16777216 + t3 / 256;
    var t1 := mac[1] + t2 / 256;
    CarryOut(mac[1..], mc, AddOffset(mac, mc), t1, t2, t3, t4, t5);
    NumberOfDigits(AddOffset(mac, mc));
    DivModUnique(t1 / 256, Number(AddOffset(mac, mc)), TWO_40);
  }

  lemma DistinctSums(x: int, m1: u32, m2: u32)
    requires 0 <= x < TWO_40 && m1 != m2
    ensures (x + m1) % TWO_40 != (x + m2) % TWO_40
  {
  }

  /** Distinct offsets give distinct addresses. */
  lemma DistinctOffsetsDistinctMacs(mac: seq<u8>, m1: u32, m2: u32)
    requires |mac| == 6 && m1 != m2
    ensures AddOffset(mac, m1) != AddOffset(mac, m2)
  {
    CarryChainAdds(mac, m1);
    CarryChainAdds(mac, m2);
    NumberOfDigits(mac[1..]);
    DistinctSums(Number(mac[1..]), m1, m2);
  }

  /** A whole sequential walk of up to 2^32 - 1 addresses repeats none of them. */
  lemma WalkOfMacsIsInjective(mac: seq<u8>, count: u32, j: nat, k: nat)
    requires |mac| == 6 && count > 1 && j < k < j + count
    ensures AddOffset(mac, Offsets(count, j)) != AddOffset(mac, Offsets(count, k))
  {
    OffsetClosedForm(count, j);
    OffsetClosedForm(count, k);
    WindowHitsOnce(j, count, Rem(j, count));
    DistinctOffsetsDistinctMacs(mac, Rem(j, count), Rem(k, count));
  }
}
