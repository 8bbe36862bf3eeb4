/** IPv6 addresses as bits, most significant first, and the random destinations drawn between
    two of them. */
module PktgenIn6 {
  const IN6_BITS: nat := 128
  const WORD_BITS: nat := 32

  function Zeros(n: nat): (s: seq<bool>)
    ensures |s| == n && forall i :: 0 <= i < n ==> !s[i]
  {
    if n == 0 then [] else [false] + Zeros(n - 1)
  }

  type In6 = s: seq<bool> | |s| == IN6_BITS witness Zeros(IN6_BITS)

  /** The address ::, which stands for none. */
  const UNSPECIFIED: In6 := Zeros(IN6_BITS)

  /** A source and a destination. */
  datatype In6Pair = In6Pair(src: In6, dst: In6)

  /** A random bit, with the minimum's bits set and only the maximum's bits kept. */
  predicate Mix(draw: bool, lo: bool, hi: bool) { (draw || lo) && hi }

  function DrawIn6(lo: In6, hi: In6, draws: In6): (r: In6)
    ensures forall i :: 0 <= i < IN6_BITS ==> r[i] == Mix(draws[i], lo[i], hi[i])
  {
    seq(IN6_BITS, i requires 0 <= i < IN6_BITS => Mix(draws[i], lo[i], hi[i]))
  }

  /** A destination is drawn only if a minimum is set. */
  function NextIn6(lo: In6, hi: In6, cur: In6, draws: In6): In6 {
    if lo == UNSPECIFIED then cur else DrawIn6(lo, hi, draws)
  }

  // ---- Which destinations can be drawn ----

  /** The bits set in a are set in b. */
  predicate Inside(a: In6, b: In6) { forall i :: 0 <= i < IN6_BITS ==> a[i] ==> b[i] }

  /** What minimum and maximum have in common is set in a. */
  predicate CommonInside(lo: In6, hi: In6, a: In6) { forall i :: 0 <= i < IN6_BITS ==> lo[i] && hi[i] ==> a[i] }

  /** The destinations that can be drawn are the addresses whose bits lie between those common
      to minimum and maximum, and those of the maximum. */
  lemma In6Drawn(lo: In6, hi: In6, a: In6)
    ensures (exists draws: In6 :: DrawIn6(lo, hi, draws) == a) <==> CommonInside(lo, hi, a) && Inside(a, hi)
  {
    if CommonInside(lo, hi, a) && Inside(a, hi) {
      assert DrawIn6(lo, hi, a) == a;
    }
  }

  /** The order of addresses as numbers. */
  ghost predicate AtMost(a: In6, b: In6) {
    a == b || exists k :: 0 <= k < IN6_BITS && Differs(a, b, k)
  }

  /** Bit k is the first in which a and b differ, and it is set in b. */
  predicate Differs(a: In6, b: In6, k: nat)
    requires k < IN6_BITS
  {
    a[..k] == b[..k] && !a[k] && b[k]
  }

  lemma {:induction false} FirstDifference(a: In6, b: In6, k: nat)
    requires Inside(a, b) && k <= IN6_BITS && a[..k] == b[..k]
    ensures AtMost(a, b)
    decreases IN6_BITS - k
  {
    if k < IN6_BITS {
      if a[k] == b[k] {
        assert a[..k + 1] == a[..k] + [a[k]] && b[..k + 1] == b[..k] + [b[k]];
        FirstDifference(a, b, k + 1);
      } else {
        assert Differs(a, b, k);
      }
    } else {
      assert a == a[..k] && b == b[..k];
    }
  }

  lemma InsideIsAtMost(a: In6, b: In6)
    requires Inside(a, b)
    ensures AtMost(a, b)
    ensures AtMost(b, a) ==> a == b
  {
    FirstDifference(a, b, 0);
  }

  /** Every destination lies between minimum and maximum exactly when all bits of the minimum
      are set in the maximum too. */
  lemma In6DrawsInRange(lo: In6, hi: In6)
    ensures (forall draws: In6 :: AtMost(lo, DrawIn6(lo, hi, draws)) && AtMost(DrawIn6(lo, hi, draws), hi))
        <==> Inside(lo, hi)
  {
    forall draws: In6
      ensures AtMost(DrawIn6(lo, hi, draws), hi)
      ensures Inside(lo, hi) ==> AtMost(lo, DrawIn6(lo, hi, draws))
    {
      var r := DrawIn6(lo, hi, draws);
      InsideIsAtMost(r, hi);
      if Inside(lo, hi) {
        InsideIsAtMost(lo, r);
      }
    }
    var least := DrawIn6(lo, hi, UNSPECIFIED);
    InsideIsAtMost(least, lo);
  }
}
