/** The payload of a packet: how it is split into page fragments, and how long the frame
    and its length fields come out. */
module PktgenPayload {
  import opened ModArith
  import opened Basics

  function Sum(s: seq<int>): int {
    if s == [] then 0 else s[0] + Sum(s[1..])
  }

  lemma {:induction false} SumConcat(a: seq<int>, b: seq<int>)
    ensures Sum(a + b) == Sum(a) + Sum(b)
  {
    if a == [] {
      assert a + b == b;
    } else {
      SumConcat(a[1..], b);
      assert (a + b)[1..] == a[1..] + b;
    }
  }

  // ---- Fragments ----

  /** The loop can go on: fragments of size zero are only made before the last one, which then
      takes all that is left. */
  predicate Finishes(left: int, i: nat, n: nat, each: nat, page: nat) {
    each == 0 ==> left <= 0 || (i < n && left <= page)
  }

  /** The fragments the loop makes from its i-th on, with `left` bytes to place. */
  function FragsFrom(left: int, i: nat, n: nat, each: nat, page: nat): seq<int>
    requires Finishes(left, i, n, each, page) && n > 0
    decreases if i < n then n - i else 0, left
  {
    if left <= 0 then []
    else
      var size := if i == n - 1 then Min(left, page) else each;
      [size] + FragsFrom(left - size, i + 1, n, each, page)
  }

  lemma FragStep(left: int, i: nat, n: nat, each: nat, page: nat)
    requires left > 0 && n > 0 && Finishes(left, i, n, each, page)
    ensures var size := if i == n - 1 then Min(left, page) else each;
            && Finishes(left - size, i + 1, n, each, page)
            && (i < n || size > 0)
            && FragsFrom(left, i, n, each, page) == [size] + FragsFrom(left - size, i + 1, n, each, page)
            && Sum(FragsFrom(left, i, n, each, page)) == size + Sum(FragsFrom(left - size, i + 1, n, each, page))
  {
    var size := if i == n - 1 then Min(left, page) else each;
    assert ([size] + FragsFrom(left - size, i + 1, n, each, page))[1..] == FragsFrom(left - size, i + 1, n, each, page);
  }

  /** How many fragments are asked for: the setting, up to what a buffer can hold. */
  function FragCount(nfrags: int, maxFrags: nat): nat
    requires nfrags > 0
  {
    Min(nfrags, maxFrags)
  }

  datatype Payload = Payload(linear: nat, frags: seq<int>)

  /** The bytes that go into fragments when n of them are made. */
  function Paged(datalen: nat, n: nat, page: nat): nat { Min(datalen, n * page) }

  /** The loop's fragment size is an n-th share: the bytes paged never make that more than a
      page, so taking the smaller of the two changes nothing. */
  lemma ShareFits(datalen: nat, n: nat, page: nat)
    requires 0 < n <= page
    ensures var paged := Paged(datalen, n, page);
            && Quot(paged, n) <= page && Finishes(paged, 0, n, Quot(paged, n), page)
            && (datalen > 0 ==> paged > 0)
  {
    var paged := Paged(datalen, n, page);
    QuotRem(paged, n);
    MulAtLeast(n, page);
    MulAtLeast(Quot(paged, n) - page, n);
    assert Quot(paged, n) * n == (Quot(paged, n) - page) * n + n * page;
  }

  /** How datalen payload bytes are placed. A kernel buffer holds no more fragments than a
      page has bytes. */
  function Fill(datalen: nat, nfrags: int, page: nat, maxFrags: nat, gotPage: bool): Payload
    requires 0 < maxFrags <= page
  {
    if nfrags <= 0 then Payload(datalen, [])
    else
      var n := FragCount(nfrags, maxFrags);
      var paged := Paged(datalen, n, page);
      ShareFits(datalen, n, page);
      Payload(datalen - paged, if gotPage then FragsFrom(paged, 0, n, Quot(paged, n), page) else [])
  }

  function Repeat(v: int, n: nat): (s: seq<int>)
    ensures |s| == n && forall k :: 0 <= k < n ==> s[k] == v
  {
    if n == 0 then [] else [v] + Repeat(v, n - 1)
  }

  lemma {:induction false} SumRepeat(v: int, n: nat)
    ensures Sum(Repeat(v, n)) == n * v
  {
    if n > 0 {
      SumRepeat(v, n - 1);
      assert Repeat(v, n)[1..] == Repeat(v, n - 1);
    }
  }

  /** All fragments before the last are of one size. */
  lemma {:induction false} EqualFragments(left: int, i: nat, n: nat, each: nat, page: nat, last: int)
    requires i < n && last > 0 && left == Sum(Repeat(each, n - 1 - i)) + last
    requires Finishes(left, i, n, each, page) && Finishes(last, n - 1, n, each, page)
    ensures FragsFrom(left, i, n, each, page) == Repeat(each, n - 1 - i) + FragsFrom(last, n - 1, n, each, page)
    decreases n - i
  {
    if i < n - 1 {
      var most := Repeat(each, n - 2 - i);
      assert Repeat(each, n - 1 - i) == [each] + most;
      assert ([each] + most)[1..] == most;
      SumRepeatNonnegative(each, n - 2 - i);
      EqualFragments(left - each, i + 1, n, each, page, last);
      assert [each] + (most + FragsFrom(last, n - 1, n, each, page))
          == ([each] + most) + FragsFrom(last, n - 1, n, each, page);
    }
  }

  lemma {:induction false} SumRepeatNonnegative(v: nat, n: nat)
    ensures Sum(Repeat(v, n)) >= 0
  {
    if n > 0 {
      SumRepeatNonnegative(v, n - 1);
      assert Repeat(v, n)[1..] == Repeat(v, n - 1);
    }
  }

  /** The payload is laid out as asked: n fragments, none above a page, nothing lost. */
  ghost predicate Conserved(p: Payload, datalen: nat, n: nat, page: nat) {
    && |p.frags| == n && p.linear + Sum(p.frags) == datalen
    && forall k :: 0 <= k < |p.frags| ==> 0 <= p.frags[k] <= page
  }

  /** The last fragment must hold its own share and the remainder. */
  predicate LastFits(paged: nat, n: nat, page: nat)
    requires n > 0
  {
    Quot(paged, n) + Rem(paged, n) <= page
  }

  /** Exactly when the last fragment's share and the remainder fit a page, the loop makes the
      number of fragments asked for, each within a page, and conserves every byte. Otherwise it
      makes one more fragment, and the payload is longer than asked for. */
  lemma FillConserves(datalen: nat, nfrags: int, page: nat, maxFrags: nat)
    requires 0 < maxFrags <= page && nfrags > 0 && datalen > 0
    ensures var n := FragCount(nfrags, maxFrags);
            var p := Fill(datalen, nfrags, page, maxFrags, true);
            var paged := Paged(datalen, n, page);
            && (Conserved(p, datalen, n, page) <==> LastFits(paged, n, page))
            && (p.linear + Sum(p.frags) == datalen <==> LastFits(paged, n, page))
            && (!LastFits(paged, n, page) ==>
                  |p.frags| == n + 1 && p.linear + Sum(p.frags) == datalen + page - Rem(paged, n) > datalen)
  {
    var n := FragCount(nfrags, maxFrags);
    ShareFits(datalen, n, page);
    LoopConserves(Paged(datalen, n, page), n, page);
  }

  lemma LoopConserves(paged: nat, n: nat, page: nat)
    requires 0 < n <= page && paged > 0 && Quot(paged, n) <= page
    requires Finishes(paged, 0, n, Quot(paged, n), page)
    ensures var frags := FragsFrom(paged, 0, n, Quot(paged, n), page);
            if LastFits(paged, n, page) then
              |frags| == n && Sum(frags) == paged && forall k :: 0 <= k < |frags| ==> 0 <= frags[k] <= page
            else |frags| == n + 1 && Sum(frags) == paged + page - Rem(paged, n) > paged
  {
    var q, r := Quot(paged, n), Rem(paged, n);
    QuotRem(paged, n);
    SumRepeat(q, n - 1);
    assert q * n == (n - 1) * q + q;
    LastShare(paged, n, q, r, page);
  }

  /** Without a page the bytes meant for fragments are missing: only what is above n pages is
      there. */
  lemma WithoutPage(datalen: nat, nfrags: int, page: nat, maxFrags: nat)
    requires 0 < maxFrags <= page && nfrags > 0
    ensures var p, n := Fill(datalen, nfrags, page, maxFrags, false), FragCount(nfrags, maxFrags);
            p.frags == [] && p.linear == if datalen > n * page then datalen - n * page else 0
  {
  }

  /** The layout in detail: all above n pages is linear, each fragment but the last has an n-th
      of the rest, and the last has its share and the remainder. */
  lemma FragmentSizes(datalen: nat, nfrags: int, page: nat, maxFrags: nat, k: nat)
    requires 0 < maxFrags <= page && nfrags > 0 && datalen > 0
    requires var n := FragCount(nfrags, maxFrags); LastFits(Paged(datalen, n, page), n, page) && k < n
    ensures var n := FragCount(nfrags, maxFrags);
            var p := Fill(datalen, nfrags, page, maxFrags, true);
            var paged := datalen - p.linear;
            && p.linear == (if datalen > n * page then datalen - n * page else 0)
            && |p.frags| == n && p.frags[k] == Quot(paged, n) + if k == n - 1 then Rem(paged, n) else 0
  {
    var n := FragCount(nfrags, maxFrags);
    ShareFits(datalen, n, page);
    SharesAre(Paged(datalen, n, page), n, page, k);
  }

  lemma SharesAre(paged: nat, n: nat, page: nat, k: nat)
    requires 0 < n <= page && paged > 0 && LastFits(paged, n, page) && k < n
    requires Finishes(paged, 0, n, Quot(paged, n), page)
    ensures var frags := FragsFrom(paged, 0, n, Quot(paged, n), page);
            |frags| == n && frags[k] == Quot(paged, n) + if k == n - 1 then Rem(paged, n) else 0
  {
    var q, r := Quot(paged, n), Rem(paged, n);
    QuotRem(paged, n);
    SumRepeat(q, n - 1);
    assert q * n == (n - 1) * q + q;
    assert q + r > 0;
    EqualFragments(paged, 0, n, q, page, q + r);
    assert FragsFrom(q + r, n - 1, n, q, page) == [q + r];
  }

  /** What the loop makes of a last share that does not fit: a whole page, and one more share
      for what is left. */
  lemma LastSharesOver(n: nat, q: nat, r: nat, page: nat)
    requires 0 < n <= page && r < n && q <= page < q + r && Finishes(q + r, n - 1, n, q, page)
    ensures FragsFrom(q + r, n - 1, n, q, page) == [page, q]
  {
    assert FragsFrom(q + r, n - 1, n, q, page) == [page] + FragsFrom(q + r - page, n, n, q, page);
    assert FragsFrom(q + r - page, n, n, q, page) == [q] + FragsFrom(r - page, n + 1, n, q, page);
  }

  lemma SumOfTwo(a: int, b: int)
    ensures Sum([a, b]) == a + b
  {
    assert [a, b][1..] == [b] && Sum([b]) == b;
  }

  lemma LastShare(paged: nat, n: nat, q: nat, r: nat, page: nat)
    requires 0 < n <= page && 0 < paged == Sum(Repeat(q, n - 1)) + (q + r) && r < n && q <= page
    requires q + r > 0 && Finishes(paged, 0, n, q, page)
    ensures var frags := FragsFrom(paged, 0, n, q, page);
            && (q + r <= page ==> |frags| == n && Sum(frags) == paged
                                  && forall k :: 0 <= k < |frags| ==> 0 <= frags[k] <= page)
            && (q + r > page ==> |frags| == n + 1 && Sum(frags) == paged + page - r)
  {
    EqualFragments(paged, 0, n, q, page, q + r);
    var tail := FragsFrom(q + r, n - 1, n, q, page);
    SumConcat(Repeat(q, n - 1), tail);
    if q + r <= page {
      assert tail == [q + r];
      assert Sum([q + r]) == q + r;
    } else {
      LastSharesOver(n, q, r, page);
      SumOfTwo(page, q);
    }
  }

  /** The condition can fail: 69631 bytes in 17 fragments of 4096-byte pages do not fit; the
      loop makes 18 fragments with 73711 bytes. */
  lemma LastFragmentOverflows()
    ensures !LastFits(Paged(69631, 17, 4096), 17, 4096)
    ensures var p := Fill(69631, 17, 4096, 17, true);
            |p.frags| == 18 && p.linear + Sum(p.frags) == 73711
  {
    QuotIsDivision(69631, 17);
    RemIsModulo(69631, 17);
    ShareFits(69631, 17, 4096);
    LoopConserves(69631, 17, 4096);
  }
}
