/** The address record that two ping-pong peers exchange as text, on hosts of either byte
    order. */
module PingPongCodec {
  import opened Basics
  import opened HexText

  datatype Endian = Little | Big

  type Gid = s: seq<u8> | |s| == 16 witness [0, 0, 0, 0, 0, 0, 0, 0, 0, 0, 0, 0, 0, 0, 0, 0]

  datatype Dest = Dest(lid: nat, qpn: nat, psn: nat, gid: Gid)

  // ---- Words in memory ----

  /** The low n bytes of a number, most significant first. */
  function Bytes(v: nat, n: nat): (b: seq<u8>)
    ensures |b| == n
  {
    if n == 0 then [] else Bytes(v / 256, n - 1) + [v % 256]
  }

  function Reverse(b: seq<u8>): (r: seq<u8>)
    ensures |r| == |b|
  {
    if b == [] then [] else Reverse(b[1..]) + [b[0]]
  }

  /** The word that four bytes hold on a host. */
  function Load(e: Endian, b: seq<u8>): nat
    requires |b| == 4
  {
    if e.Little? then Number(Reverse(b)) else Number(b)
  }

  function Store(e: Endian, v: nat): (b: seq<u8>)
    ensures |b| == 4
  {
    if e.Little? then Reverse(Bytes(v, 4)) else Bytes(v, 4)
  }

  /** htobe32, and be32toh: the bytes are swapped on a little-endian host. */
  function Swapped(e: Endian, v: nat): nat {
    if e.Little? then Number(Reverse(Bytes(v, 4))) else v
  }

  lemma {:induction false} NumberBound(b: seq<u8>)
    ensures Number(b) < Pow16(2 * |b|)
  {
    if b != [] {
      NumberBound(b[..|b| - 1]);
      assert Pow16(2 * |b|) == 16 * Pow16(2 * |b| - 1) == 256 * Pow16(2 * (|b| - 1));
    }
  }

  lemma {:induction false} BytesOfNumber(b: seq<u8>)
    ensures Bytes(Number(b), |b|) == b
  {
    if b != [] {
      BytesOfNumber(b[..|b| - 1]);
    }
  }

  lemma {:induction false} ReverseAppend(b: seq<u8>, x: u8)
    ensures Reverse(b + [x]) == [x] + Reverse(b)
  {
    if b != [] {
      ReverseAppend(b[1..], x);
      assert (b + [x])[1..] == b[1..] + [x];
    }
  }

  lemma {:induction false} ReverseTwice(b: seq<u8>)
    ensures Reverse(Reverse(b)) == b
  {
    if b != [] {
      ReverseTwice(b[1..]);
      ReverseAppend(Reverse(b[1..]), b[0]);
    }
  }

  /** Storing a word puts back the bytes it was loaded from. */
  lemma StoreLoad(e: Endian, b: seq<u8>)
    requires |b| == 4
    ensures Store(e, Load(e, b)) == b
  {
    BytesOfNumber(b);
    BytesOfNumber(Reverse(b));
    ReverseTwice(b);
  }

  /** What is printed is the big-endian number of the bytes, on any host. */
  lemma SwappedLoad(e: Endian, b: seq<u8>)
    requires |b| == 4
    ensures Swapped(e, Load(e, b)) == Number(b)
  {
    BytesOfNumber(Reverse(b));
    ReverseTwice(b);
  }

  /** What is scanned becomes the host's own word. */
  lemma SwappedNumber(e: Endian, b: seq<u8>)
    requires |b| == 4
    ensures Swapped(e, Number(b)) == Load(e, b)
  {
    BytesOfNumber(b);
  }

  // ---- The global identifier ----

  /** Words i to 3 of an identifier, as a host loads them. */
  function Words(e: Endian, gid: Gid, i: nat): (w: seq<nat>)
    requires i <= 4
    ensures |w| == 4 - i
    decreases 4 - i
  {
    if i == 4 then [] else [Load(e, gid[4 * i..4 * i + 4])] + Words(e, gid, i + 1)
  }

  /** The bytes of a list of words in a host's memory. */
  function Memory(e: Endian, words: seq<nat>): (b: seq<u8>)
    ensures |b| == 4 * |words|
  {
    if words == [] then [] else Store(e, words[0]) + Memory(e, words[1..])
  }

  /** The text of a list of words: eight digits each, most significant byte first. */
  function Text(e: Endian, words: seq<nat>): (t: string)
    ensures |t| == 8 * |words|
  {
    if words == [] then "" else PrintHex(Swapped(e, words[0]), 8) + Text(e, words[1..])
  }

  /** gid_to_wire_gid as a function. */
  function WireGid(e: Endian, gid: Gid): (t: string)
    ensures |t| == 32
  {
    Text(e, Words(e, gid, 0))
  }

  /** The digits from a position on, read into a number. */
  function ScanFrom(text: string, at: nat, acc: nat): nat
    requires at <= |text|
    decreases |text| - at
  {
    if at == |text| || !IsHex(text[at]) then acc else ScanFrom(text, at + 1, 16 * acc + HexToBin(text[at]))
  }

  /** The word scanned from some characters; without a digit the last one stays. */
  function Scan(text: string, last: nat): nat {
    if text == "" || !IsHex(text[0]) then last else ScanFrom(text, 0, 0)
  }

  /** Words i to 3 scanned from text, as a host stores them. */
  function Scanned(e: Endian, wire: string, i: nat, last: nat): (w: seq<nat>)
    requires i <= 4 && |wire| >= 32
    ensures |w| == 4 - i
    decreases 4 - i
  {
    if i == 4 then []
    else
      var v := Scan(wire[8 * i..8 * i + 8], last);
      [Swapped(e, v)] + Scanned(e, wire, i + 1, v)
  }

  /** wire_gid_to_gid as a function; `garbage` is what an unset word holds. */
  function GidOf(e: Endian, wire: string, garbage: nat): (gid: seq<u8>)
    requires |wire| >= 32
    ensures |gid| == 16
  {
    Memory(e, Scanned(e, wire, 0, garbage))
  }

  /** Scanning goes on to the end of a run of digits. */
  lemma {:induction false} ScanRun(text: string, from: nat, k: nat, n: nat)
    requires k <= n && Digits(text, from, n) && (from + n < |text| ==> !IsHex(text[from + n]))
    ensures Digits(text, from, k)
    ensures ScanFrom(text, from + k, Value(text, from, k)) == Value(text, from, n)
    decreases n - k
  {
    if k < n {
      ScanRun(text, from, k + 1, n);
    }
  }

  lemma ScanPrinted(v: nat, last: nat)
    requires v < Pow16(8)
    ensures Scan(PrintHex(v, 8), last) == v
  {
    var t := PrintHex(v, 8);
    assert t[0..8] == t;
    PrintedValue(t, 0, v, 8);
    ScanRun(t, 0, 0, 8);
  }

  lemma Split<T>(s: seq<T>, i: nat, j: nat)
    requires i <= j <= |s|
    ensures s[i..] == s[i..j] + s[j..]
  {
  }

  lemma {:induction false} MemoryOfWords(e: Endian, gid: Gid, i: nat)
    requires i <= 4
    ensures Memory(e, Words(e, gid, i)) == gid[4 * i..]
    decreases 4 - i
  {
    if i < 4 {
      var b := gid[4 * i..4 * i + 4];
      StoreLoad(e, b);
      MemoryOfWords(e, gid, i + 1);
      Split(gid, 4 * i, 4 * i + 4);
      assert Words(e, gid, i)[1..] == Words(e, gid, i + 1);
    }
  }

  lemma WordRoundTrip(e: Endian, f: Endian, b: seq<u8>, last: nat)
    requires |b| == 4
    ensures Swapped(e, Load(e, b)) == Number(b) && Scan(PrintHex(Number(b), 8), last) == Number(b)
    ensures Swapped(f, Number(b)) == Load(f, b)
  {
    SwappedLoad(e, b);
    NumberBound(b);
    ScanPrinted(Number(b), last);
    SwappedNumber(f, b);
  }

  /** A host scans the other's text into its own words of the same identifier. */
  lemma {:induction false} WordsRoundTrip(e: Endian, f: Endian, gid: Gid, wire: string, i: nat, last: nat)
    requires i <= 4 && |wire| == 32 && wire[8 * i..] == Text(e, Words(e, gid, i))
    ensures Scanned(f, wire, i, last) == Words(f, gid, i)
    decreases 4 - i
  {
    if i < 4 {
      var b := gid[4 * i..4 * i + 4];
      WordRoundTrip(e, f, b, last);
      assert Words(e, gid, i)[1..] == Words(e, gid, i + 1);
      assert wire[8 * i..8 * i + 8] == wire[8 * i..][..8] == PrintHex(Number(b), 8);
      assert wire[8 * (i + 1)..] == wire[8 * i..][8..] == Text(e, Words(e, gid, i + 1));
      WordsRoundTrip(e, f, gid, wire, i + 1, Number(b));
    }
  }

  /** An identifier printed on one host and scanned on another, of either byte order, is the
      same sixteen bytes. */
  lemma GidRoundTrip(e: Endian, f: Endian, gid: Gid, garbage: nat)
    ensures GidOf(f, WireGid(e, gid), garbage) == gid
  {
    WordsRoundTrip(e, f, gid, WireGid(e, gid), 0, garbage);
    MemoryOfWords(f, gid, 0);
    assert gid[0..] == gid;
  }

  // ---- What the text says ----

  lemma DigitsOfLast(n: nat, x: u8, digits: nat)
    ensures PrintHex(256 * n + x, digits + 2) == PrintHex(n, digits) + [HexDigit(x / 16)] + [HexDigit(x % 16)]
  {
    var m := 256 * n + x;
    assert m / 16 == 16 * n + x / 16 && m / 16 / 16 == n;
    assert PrintHex(m, digits + 2) == PrintHex(m / 16, digits + 1) + [HexDigit(x % 16)];
    assert PrintHex(m / 16, digits + 1) == PrintHex(n, digits) + [HexDigit(x / 16)];
  }

  /** A number made of bytes is printed byte by byte, two digits each. */
  lemma {:induction false} BytesInHex(b: seq<u8>, j: nat)
    requires j < |b|
    ensures var t := PrintHex(Number(b), 2 * |b|);
            t[2 * j] == HexDigit(b[j] / 16) && t[2 * j + 1] == HexDigit(b[j] % 16)
  {
    var front := b[..|b| - 1];
    DigitsOfLast(Number(front), b[|b| - 1], 2 * |front|);
    if j < |front| {
      BytesInHex(front, j);
    }
  }

  lemma {:induction false} WordAt(e: Endian, gid: Gid, i: nat, k: nat)
    requires i <= k < 4
    ensures Words(e, gid, i)[k - i] == Load(e, gid[4 * k..4 * k + 4])
    decreases 4 - i
  {
    if i < k {
      WordAt(e, gid, i + 1, k);
    }
  }

  lemma GroupInHex(e: Endian, gid: Gid, i: nat, j: nat)
    requires i < 4 && j < 4
    ensures var t, x := WireGid(e, gid)[8 * i..8 * i + 8], gid[4 * i..4 * i + 4][j];
            t[2 * j] == HexDigit(x / 16) && t[2 * j + 1] == HexDigit(x % 16)
  {
    var b := gid[4 * i..4 * i + 4];
    WordAt(e, gid, 0, i);
    SwappedLoad(e, b);
    TextAt(e, Words(e, gid, 0), i);
    BytesInHex(b, j);
  }

  /** The text of an identifier is its bytes in order, each as two lower-case digits: the same
      on hosts of either byte order. */
  lemma WireGidIs(e: Endian, gid: Gid, i: nat, j: nat)
    requires i < 4 && j < 4
    ensures var t, k := WireGid(e, gid), 4 * i + j;
            t[2 * k] == HexDigit(gid[k] / 16) && t[2 * k + 1] == HexDigit(gid[k] % 16)
  {
    GroupInHex(e, gid, i, j);
  }

  // ---- The two loops ----

  /** sprintf into the middle of a buffer: the text and its terminator. */
  method Print(buf: array<char>, at: nat, text: string)
    requires at + |text| < buf.Length
    modifies buf
    ensures forall k :: 0 <= k < |text| ==> buf[at + k] == text[k]
    ensures buf[at + |text|] == '\0'
    ensures forall k :: 0 <= k < buf.Length && !(at <= k <= at + |text|) ==> buf[k] == old(buf[k])
  {
    forall k | 0 <= k < |text| {
      buf[at + k] := text[k];
    }
    buf[at + |text|] := '\0';
  }

  lemma {:induction false} TextAt(e: Endian, words: seq<nat>, i: nat)
    requires i < |words|
    ensures Text(e, words)[8 * i..8 * i + 8] == PrintHex(Swapped(e, words[i]), 8)
  {
    if i > 0 {
      TextAt(e, words[1..], i - 1);
      assert Text(e, words)[8 * i..8 * i + 8] == Text(e, words[1..])[8 * (i - 1)..8 * (i - 1) + 8];
    }
  }

  /** One round of the printing loop. */
  method PrintWord(e: Endian, words: seq<nat>, i: nat, wgid: array<char>)
    requires i < |words| == 4 && wgid.Length >= 33
    modifies wgid
    ensures forall k :: 8 * i <= k < 8 * i + 8 ==> wgid[k] == Text(e, words)[k]
    ensures wgid[8 * i + 8] == '\0'
    ensures forall k :: 0 <= k < wgid.Length && !(8 * i <= k <= 8 * i + 8) ==> wgid[k] == old(wgid[k])
  {
    var text := PrintHex(Swapped(e, words[i]), 8);
    TextAt(e, words, i);
    ghost var whole := Text(e, words);
    assert forall k :: 0 <= k < 8 ==> text[k] == whole[8 * i..8 * i + 8][k];
    Print(wgid, 8 * i, text);
    forall k | 8 * i <= k < 8 * i + 8
      ensures wgid[k] == whole[k]
    {
      var j := k - 8 * i;
      assert wgid[8 * i + j] == text[j];
    }
  }

  /** gid_to_wire_gid: writes 32 digits and the terminator, and nothing beyond. */
  method GidToWireGid(e: Endian, gid: Gid, wgid: array<char>)
    requires wgid.Length >= 33
    modifies wgid
    ensures wgid[..32] == WireGid(e, gid) && wgid[32] == '\0' && wgid[33..] == old(wgid[33..])
  {
    var tmp := Words(e, gid, 0);
    ghost var whole := Text(e, tmp);
    var i := 0;
    while i < 4
      invariant 0 <= i <= 4
      invariant forall k :: 0 <= k < 8 * i ==> wgid[k] == whole[k]
      invariant i > 0 ==> wgid[8 * i] == '\0'
      invariant forall k :: 33 <= k < wgid.Length ==> wgid[k] == old(wgid[k])
    {
      PrintWord(e, tmp, i, wgid);
      i := i + 1;
    }
  }

  lemma Append<T>(a: seq<T>, b: seq<T>, c: seq<T>)
    ensures a + (b + c) == (a + b) + c
  {
  }

  /** The loop of wire_gid_to_gid: the four words as the host stores them. */
  method ScanWords(e: Endian, wgid: string, garbage: nat) returns (tmp: seq<nat>)
    requires |wgid| >= 32
    ensures tmp == Scanned(e, wgid, 0, garbage)
  {
    var v32 := garbage;
    tmp := [];
    var i := 0;
    ghost var all := Scanned(e, wgid, i, garbage);
    while i < 4
      invariant 0 <= i <= 4 && |tmp| == i
      invariant all == tmp + Scanned(e, wgid, i, v32)
    {
      var v := Scan(wgid[8 * i..8 * i + 8], v32);
      var word := Swapped(e, v);
      Append(tmp, [word], Scanned(e, wgid, i + 1, v));
      v32, tmp, i := v, tmp + [word], i + 1;
    }
  }

  /** wire_gid_to_gid: scans four groups of eight characters and copies the words. */
  method WireGidToGid(e: Endian, wgid: string, gid: array<u8>, garbage: nat)
    requires gid.Length == 16 && |wgid| >= 32
    modifies gid
    ensures gid[..] == GidOf(e, wgid, garbage)
  {
    var tmp := ScanWords(e, wgid, garbage);
    var bytes := Memory(e, tmp);
    forall k | 0 <= k < 16 {
      gid[k] := bytes[k];
    }
  }
}
