/** The socket buffer of a packet, filled in place. */
module PktgenSkb {
  import opened ModArith
  import opened Basics
  import opened PktgenPayload

  /** sizeof(struct pktgen_hdr). */
  const PGH_SIZE := 16

  const PKTGEN_MAGIC: u32 := 0xbe9be955

  class Skb {
    var len: int
    var dataLen: int
    var frags: seq<int>
    var magic: u32
    var seqNum: u32
    var sec: u32
    var usec: u32

    constructor ()
      ensures len == 0 && dataLen == 0 && frags == []
    {
      len, dataLen, frags, magic, seqNum, sec, usec := 0, 0, [], 0, 0, 0, 0;
    }

    /** skb_put: the linear part grows. */
    method Put(n: nat)
      modifies this`len
      ensures len == old(len) + n
    {
      len := len + n;
    }

    /** pktgen_finalize_skb: the payload, and the generator's header with the sequence number
        and the time of day. */
    method Finalize(datalen: nat, nfrags: int, page: nat, maxFrags: nat, gotPage: bool, number: u32,
                    now: u32, usecs: u32)
      requires PGH_SIZE <= datalen && 0 < maxFrags <= page
      modifies this
      ensures var p := Fill(datalen - PGH_SIZE, nfrags, page, maxFrags, gotPage);
              && len == old(len) + PGH_SIZE + p.linear + Sum(p.frags)
              && frags == old(frags) + p.frags && dataLen == old(dataLen) + Sum(p.frags)
      ensures magic == PKTGEN_MAGIC && seqNum == number && sec == now && usec == usecs
    {
      Put(PGH_SIZE);
      if nfrags <= 0 {
        Put(datalen - PGH_SIZE);
      } else {
        FillFrags(datalen - PGH_SIZE, FragCount(nfrags, maxFrags), page, gotPage);
      }
      magic := PKTGEN_MAGIC;
      seqNum := number;
      sec, usec := now, usecs;
    }

    method FillFrags(datalen: nat, n: nat, page: nat, gotPage: bool)
      requires 0 < n <= page
      modifies this`len, this`dataLen, this`frags
      ensures var paged := Paged(datalen, n, page);
              var added := if gotPage then FragsFrom(paged, 0, n, Quot(paged, n), page) else [];
              && Finishes(paged, 0, n, Quot(paged, n), page)
              && len == old(len) + (datalen - paged) + Sum(added)
              && frags == old(frags) + added && dataLen == old(dataLen) + Sum(added)
    {
      ShareFits(datalen, n, page);
      var left: int := datalen;
      var linear := datalen - n * page;
      if linear > 0 {
        Put(linear);
        left := n * page;
      }
      var share := Quot(left, n);
      var each := if share < page then share else page;
      if gotPage {
        AppendFrags(left, n, each, page);
      }
    }

    method AppendFrags(datalen: int, n: nat, each: nat, page: nat)
      requires n > 0 && Finishes(datalen, 0, n, each, page)
      modifies this`len, this`dataLen, this`frags
      ensures var added := FragsFrom(datalen, 0, n, each, page);
              && frags == old(frags) + added && len == old(len) + Sum(added) && dataLen == old(dataLen) + Sum(added)
    {
      ghost var all := FragsFrom(datalen, 0, n, each, page);
      var left, i := datalen, 0;
      while left > 0
        invariant 0 <= i && Finishes(left, i, n, each, page)
        invariant old(frags) + all == frags + FragsFrom(left, i, n, each, page)
        invariant len - Sum(all) == old(len) - Sum(FragsFrom(left, i, n, each, page))
        invariant dataLen - old(dataLen) == len - old(len)
        decreases if i < n then n - i else 0, left
      {
        var size := if i == n - 1 then Min(left, page) else each;
        FragStep(left, i, n, each, page);
        ghost var more := FragsFrom(left - size, i + 1, n, each, page);
        assert frags + ([size] + more) == (frags + [size]) + more;
        frags := frags + [size];
        left := left - size;
        len := len + size;
        dataLen := dataLen + size;
        i := i + 1;
      }
    }
  }
}
