/** Division with remainder: uniqueness, and how both move when the dividend grows by one. */
module ModArith {

  lemma MulAtLeast(a: int, m: int)
    requires m > 0
    ensures a >= 1 ==> a * m >= m
  {
    if a >= 1 {
      assert (a - 1) * m >= 0;
    }
  }

  /** A number has one quotient and one remainder. */
  lemma QuotientUnique(q: int, r: int, p: int, s: int, m: int)
    requires 0 <= r < m && 0 <= s < m
    requires q * m + r == p * m + s
    ensures q == p && r == s
  {
    assert (p - q) * m == r - s;
    assert (q - p) * m == s - r;
    MulAtLeast(p - q, m);
    MulAtLeast(q - p, m);
  }

  lemma QuotientAtLeast(x: nat, d: nat, q: nat)
    requires d > 0 && q * d <= x
    ensures q <= x / d
  {
    assert x == (x / d) * d + x % d;
    assert (q - x / d) * d == q * d - (x / d) * d;
    MulAtLeast(q - x / d, d);
  }

  lemma DivModUnique(q: int, r: int, m: int)
    requires m > 0 && 0 <= r < m
    ensures (q * m + r) / m == q && (q * m + r) % m == r
  {
    var x := q * m + r;
    QuotientUnique(q, r, x / m, x % m, m);
  }

  lemma DivModSucc(n: int, m: int)
    requires m > 0
    ensures (n + 1) % m == if n % m == m - 1 then 0 else n % m + 1
    ensures (n + 1) / m == if n % m == m - 1 then n / m + 1 else n / m
  {
    assert n == (n / m) * m + n % m;
    if n % m == m - 1 {
      assert (n / m + 1) * m == (n / m) * m + m;
      DivModUnique(n / m + 1, 0, m);
    } else {
      DivModUnique(n / m, n % m + 1, m);
    }
  }

  lemma ModAddMultiple(n: int, k: int, m: int)
    requires m > 0
    ensures (n + k * m) % m == n % m
    ensures (n + k * m) / m == n / m + k
  {
    assert n + k * m == (n / m + k) * m + n % m by {
      assert (n / m + k) * m == (n / m) * m + k * m;
    }
    DivModUnique(n / m + k, n % m, m);
  }

  /** The four bytes of a number below 2^32. */
  lemma FourBytes(x: nat)
    requires x < 0x1_0000_0000
    ensures x == ((x / 16777216 * 256 + x / 65536 % 256) * 256 + x / 256 % 256) * 256 + x % 256
    ensures x / 16777216 < 256
  {
    var q := x / 256;
    assert x / 65536 == q / 256;
    assert x / 16777216 == q / 256 / 256;
  }

  /** Quotient and remainder by repeated subtraction: equal to x / m and x % m, but their
      facts stay linear when m is not a constant. */
  function Quot(x: nat, m: nat): nat
    requires m > 0
  {
    if x < m then 0 else Quot(x - m, m) + 1
  }

  function Rem(x: nat, m: nat): (r: nat)
    requires m > 0
    ensures r < m && r <= x
  {
    if x < m then x else Rem(x - m, m)
  }

  lemma {:induction false} QuotIsDivision(x: nat, m: nat)
    requires m > 0
    ensures Quot(x, m) == x / m
  {
    if x < m {
      DivModUnique(0, x, m);
    } else {
      QuotIsDivision(x - m, m);
      ModAddMultiple(x - m, 1, m);
    }
  }

  lemma {:induction false} RemIsModulo(x: nat, m: nat)
    requires m > 0
    ensures Rem(x, m) == x % m
  {
    if x < m {
      DivModUnique(0, x, m);
    } else {
      RemIsModulo(x - m, m);
      ModAddMultiple(x - m, 1, m);
    }
  }

  /** Dividend, quotient and remainder. */
  lemma QuotRem(x: nat, m: nat)
    requires m > 0
    ensures x == Quot(x, m) * m + Rem(x, m)
  {
    QuotIsDivision(x, m);
    RemIsModulo(x, m);
  }

  lemma QuotRemUnique(q: nat, r: nat, m: nat)
    requires r < m
    ensures q * m + r >= 0 && Quot(q * m + r, m) == q && Rem(q * m + r, m) == r
  {
    assert q * m >= 0;
    QuotIsDivision(q * m + r, m);
    RemIsModulo(q * m + r, m);
    DivModUnique(q, r, m);
  }

  /** From one multiple to the next is one m. */
  lemma RemAdd(x: nat, d: nat, m: nat)
    requires m > 0 && Rem(x, m) == 0
    ensures d < m ==> Rem(x + d, m) == d && Quot(x + d, m) == Quot(x, m)
    ensures d == m ==> Rem(x + d, m) == 0
  {
    QuotRem(x, m);
    if d < m {
      QuotRemUnique(Quot(x, m), d, m);
    }
  }

  lemma RemSucc(n: nat, m: nat)
    requires m > 0
    ensures Rem(n + 1, m) == if Rem(n, m) == m - 1 then 0 else Rem(n, m) + 1
  {
    RemIsModulo(n, m);
    RemIsModulo(n + 1, m);
    DivModSucc(n, m);
  }

  /** Counting on and then reducing is reducing the count. */
  lemma RemNext(n: nat, m: nat)
    requires m > 0
    ensures (Rem(n, m) + 1) % m == Rem(n + 1, m)
  {
    RemSucc(n, m);
    DivModUnique(0, Rem(n + 1, m), m);
    if Rem(n, m) == m - 1 {
      DivModUnique(1, 0, m);
    }
  }

  lemma QuotSucc(n: nat, m: nat)
    requires m > 0
    ensures Quot(n + 1, m) == if Rem(n, m) == m - 1 then Quot(n, m) + 1 else Quot(n, m)
  {
    QuotIsDivision(n, m);
    QuotIsDivision(n + 1, m);
    RemIsModulo(n, m);
    DivModSucc(n, m);
  }

  /** The one member of the window [start, start + m) whose remainder is r. */
  function InWindow(start: nat, m: nat, r: nat): nat
    requires r < m
  {
    start + (r - start) % m
  }

  /** Each remainder occurs exactly once in every window of m consecutive numbers. */
  lemma WindowHitsOnce(start: nat, m: nat, r: nat)
    requires r < m
    ensures var n := InWindow(start, m, r); start <= n < start + m && Rem(n, m) == r
    ensures forall n: nat :: start <= n < start + m && Rem(n, m) == r ==> n == InWindow(start, m, r)
  {
    var d := (r - start) % m;
    var q := (r - start) / m;
    assert r - start == q * m + d;
    assert start + d == r + (-q) * m;
    ModAddMultiple(r, -q, m);
    DivModUnique(0, r, m);
    RemIsModulo(start + d, m);
    forall n: nat | start <= n < start + m && Rem(n, m) == r
      ensures n == start + d
    {
      RemIsModulo(n, m);
      SameRemainder(start + d, n, r, m);
    }
  }

  lemma SameRemainder(a: nat, b: nat, r: nat, m: nat)
    requires m > 0 && a % m == r && b % m == r && a - b < m && b - a < m
    ensures a == b
  {
    assert a == (a / m) * m + r && b == (b / m) * m + r;
    assert (a / m - b / m) * m == a - b;
    MulAtLeast(a / m - b / m, m);
    MulAtLeast(b / m - a / m, m);
    assert (b / m - a / m) * m == b - a;
  }
}
