/** The address record lid:qpn:psn:gid, printed and scanned back. */
module PingPongRecord {
  import opened Basics
  import opened HexText
  import opened PingPongCodec

  /** How many hexadecimal digits a number has. */
  function HexLen(x: nat): (n: nat)
    ensures n > 0
  {
    if x < 16 then 1 else 1 + HexLen(x / 16)
  }

  /** %0wx: at least w digits, and all of them. */
  function Padded(x: nat, w: nat): (s: string)
    ensures |s| >= w && |s| > 0
  {
    PrintHex(x, if HexLen(x) > w then HexLen(x) else w)
  }

  /** "%0wx:" for each number and its width. */
  function PrintFields(fields: seq<(nat, nat)>): string {
    if fields == [] then "" else Padded(fields[0].0, fields[0].1) + ":" + PrintFields(fields[1..])
  }

  function Fields(d: Dest): seq<(nat, nat)> { [(d.lid, 4), (d.qpn, 6), (d.psn, 6)] }

  function PrintDest(e: Endian, d: Dest): string { PrintFields(Fields(d)) + WireGid(e, d.gid) }

  /** Where a run of digits ends. */
  function RunEnd(text: string, at: nat): (end: nat)
    requires at <= |text|
    ensures at <= end <= |text|
    decreases |text| - at
  {
    if at == |text| || !IsHex(text[at]) then at else RunEnd(text, at + 1)
  }

  /** %x at a position: the number and where it ends, or nothing without a digit. */
  function ScanField(text: string, at: nat): (r: Option<(nat, nat)>)
    ensures r.Some? ==> r.value.1 <= |text|
  {
    if at >= |text| || !IsHex(text[at]) then None else Some((ScanFrom(text, at, 0), RunEnd(text, at)))
  }

  /** "%x:" n times from a position on: the numbers and where the last colon ends. */
  function ScanFields(text: string, at: nat, n: nat): (r: Option<(seq<nat>, nat)>)
    ensures r.Some? ==> |r.value.0| == n
    decreases n
  {
    if n == 0 then Some(([], at))
    else
      var field := ScanField(text, at);
      if field.None? || field.value.1 == |text| || text[field.value.1] != ':' then None
      else
        var rest := ScanFields(text, field.value.1 + 1, n - 1);
        if rest.None? then None else Some(([field.value.0] + rest.value.0, rest.value.1))
  }

  /** The numbers in front of the identifier. */
  const FIELDS: nat := 3

  /** The scan of a record up to its terminator; nothing if a field is left unset. */
  function ParseDest(f: Endian, msg: string, garbage: nat): Option<Dest> {
    var r := ScanFields(msg, 0, FIELDS);
    if r.None? || |msg| < r.value.1 + 32 then None
    else
      var v := r.value.0;
      Some(Dest(v[0], v[1], v[2], GidOf(f, msg[r.value.1..], garbage)))
  }

  lemma {:induction false} HexLenBound(x: nat)
    ensures Pow16(HexLen(x) - 1) <= x || x == 0
    ensures x < Pow16(HexLen(x))
  {
    if x >= 16 {
      HexLenBound(x / 16);
    } else {
      assert Pow16(0) == 1 && Pow16(1) == 16;
    }
  }

  /** A number needs more than w digits exactly when it does not fit them. */
  lemma HexLenFits(x: nat, w: nat)
    requires w > 0
    ensures HexLen(x) <= w <==> x < Pow16(w)
  {
    HexLenBound(x);
    if HexLen(x) <= w {
      Pow16Monotone(HexLen(x), w);
    } else {
      Pow16Monotone(w, HexLen(x) - 1);
    }
  }

  lemma ThreeFields(x: (nat, nat), y: (nat, nat), z: (nat, nat))
    ensures |PrintFields([x, y, z])| == |Padded(x.0, x.1)| + |Padded(y.0, y.1)| + |Padded(z.0, z.1)| + 3
  {
    assert [x, y, z][1..] == [y, z] && [y, z][1..] == [z] && [z][1..] == [];
    assert |PrintFields([z])| == |Padded(z.0, z.1)| + 1;
    assert |PrintFields([y, z])| == |Padded(y.0, y.1)| + 1 + |PrintFields([z])|;
  }

  /** The record is 51 characters, as the message buffer expects, exactly when the fields
      have the 16, 24 and 24 bits of the standard. */
  lemma RecordLength(e: Endian, d: Dest)
    ensures |PrintDest(e, d)| == 51 <==> d.lid < 0x1_0000 && d.qpn < 0x100_0000 && d.psn < 0x100_0000
  {
    PowersOf16();
    HexLenFits(d.lid, 4);
    HexLenFits(d.qpn, 6);
    HexLenFits(d.psn, 6);
    ThreeFields((d.lid, 4), (d.qpn, 6), (d.psn, 6));
  }

  lemma PaddedIs(x: nat, w: nat)
    requires w > 0 && x < Pow16(w)
    ensures Padded(x, w) == PrintHex(x, w)
  {
    HexLenFits(x, w);
  }

  lemma PrintThree(x: (nat, nat), y: (nat, nat), z: (nat, nat))
    ensures PrintFields([x, y, z])
         == Padded(x.0, x.1) + ":" + (Padded(y.0, y.1) + ":" + (Padded(z.0, z.1) + ":"))
  {
    assert [x, y, z][1..] == [y, z] && [y, z][1..] == [z] && [z][1..] == [];
    assert PrintFields([z]) == Padded(z.0, z.1) + ":";
    assert PrintFields([y, z]) == Padded(y.0, y.1) + ":" + PrintFields([z]);
  }

  /** A record in range: four digits of the lid, six of the queue pair number, six of the
      packet sequence number, and the identifier, with colons between. */
  lemma RecordLayout(e: Endian, d: Dest)
    requires InRange(d)
    ensures PrintDest(e, d) == PrintHex(d.lid, 4) + ":" + (PrintHex(d.qpn, 6) + ":" + (PrintHex(d.psn, 6) + ":"))
                               + WireGid(e, d.gid)
  {
    PowersOf16();
    PaddedIs(d.lid, 4);
    PaddedIs(d.qpn, 6);
    PaddedIs(d.psn, 6);
    PrintThree((d.lid, 4), (d.qpn, 6), (d.psn, 6));
  }

  lemma {:induction false} RunEndIs(text: string, at: nat, n: nat)
    requires Digits(text, at, n) && (at + n < |text| ==> !IsHex(text[at + n]))
    ensures RunEnd(text, at) == at + n
    decreases n
  {
    if n > 0 {
      RunEndIs(text, at + 1, n - 1);
    }
  }

  /** A padded number followed by a colon is scanned back whole. */
  lemma FieldScans(text: string, at: nat, x: nat, w: nat)
    requires var n := |Padded(x, w)|;
             at + n < |text| && text[at..at + n] == Padded(x, w) && text[at + n] == ':'
    ensures ScanField(text, at) == Some((x, at + |Padded(x, w)|))
  {
    var n := |Padded(x, w)|;
    HexLenBound(x);
    Pow16Monotone(HexLen(x), n);
    PrintedValue(text, at, x, n);
    ScanRun(text, at, 0, n);
    RunEndIs(text, at, n);
  }

  // ---- Which texts are parsed ----

  /** A field: digits of either case, as many as one likes, and then a colon. */
  predicate Field(text: string, at: nat, end: nat) {
    at < end < |text| && Digits(text, at, end - at) && text[end] == ':'
  }

  lemma {:induction false} RunIsDigits(text: string, at: nat)
    requires at <= |text|
    ensures var end := RunEnd(text, at); Digits(text, at, end - at) && (end < |text| ==> !IsHex(text[end]))
    decreases |text| - at
  {
    if at < |text| && IsHex(text[at]) {
      RunIsDigits(text, at + 1);
    }
  }

  /** A field is scanned exactly if it is one, as its value. */
  lemma FieldIs(text: string, at: nat, end: nat)
    ensures Field(text, at, end) <==>
            (var r := ScanField(text, at); r.Some? && r.value.1 == end < |text| && text[end] == ':')
    ensures Field(text, at, end) ==> ScanField(text, at).value.0 == Value(text, at, end - at)
  {
    if Field(text, at, end) {
      RunEndIs(text, at, end - at);
      ScanRun(text, at, 0, end - at);
    }
    if at < |text| {
      RunIsDigits(text, at);
    }
  }

  lemma FieldStep(text: string, at: nat, end: nat, n: nat)
    requires n > 0 && Field(text, at, end)
    ensures var rest := ScanFields(text, end + 1, n - 1);
            ScanFields(text, at, n) ==
            if rest.None? then None else Some(([Value(text, at, end - at)] + rest.value.0, rest.value.1))
  {
    FieldIs(text, at, end);
  }

  lemma NoField(text: string, at: nat, n: nat)
    requires n > 0 && at <= |text| && !Field(text, at, RunEnd(text, at))
    ensures ScanFields(text, at, n) == None
  {
    FieldIs(text, at, RunEnd(text, at));
  }

  /** Three fields that end at a, b and c, and 32 characters or more behind them. */
  predicate Form(msg: string, a: nat, b: nat, c: nat) {
    Field(msg, 0, a) && Field(msg, a + 1, b) && Field(msg, b + 1, c) && c + 33 <= |msg|
  }

  lemma ScansThree(text: string, at: nat, a: nat, b: nat, c: nat, n: nat)
    requires n == 3 && Field(text, at, a) && Field(text, a + 1, b) && Field(text, b + 1, c)
    ensures ScanFields(text, at, n)
         == Some(([Value(text, at, a - at), Value(text, a + 1, b - a - 1), Value(text, b + 1, c - b - 1)], c + 1))
  {
    FieldStep(text, at, a, n);
    FieldStep(text, a + 1, b, n - 1);
    FieldStep(text, b + 1, c, n - 2);
    var rest := ScanFields(text, c + 1, n - 3);
    assert rest.Some? && rest.value.0 == [] && rest.value.1 == c + 1;
    var x, y, z := Value(text, at, a - at), Value(text, a + 1, b - a - 1), Value(text, b + 1, c - b - 1);
    assert [x] + ([y] + ([z] + [])) == [x, y, z];
  }

  lemma ParsedFrom(f: Endian, msg: string, garbage: nat, v: seq<nat>, end: nat)
    requires |v| == FIELDS && ScanFields(msg, 0, FIELDS) == Some((v, end)) && end + 32 <= |msg|
    ensures ParseDest(f, msg, garbage) == Some(Dest(v[0], v[1], v[2], GidOf(f, msg[end..], garbage)))
  {
  }

  /** A text of this form is parsed as the values of its fields, in whatever case and with
      however many zeros they are written. */
  lemma ParsedAs(f: Endian, msg: string, garbage: nat, a: nat, b: nat, c: nat)
    requires Form(msg, a, b, c)
    ensures ParseDest(f, msg, garbage)
         == Some(Dest(Value(msg, 0, a), Value(msg, a + 1, b - a - 1), Value(msg, b + 1, c - b - 1),
                      GidOf(f, msg[c + 1..], garbage)))
  {
    ScansThree(msg, 0, a, b, c, FIELDS);
    ParsedFrom(f, msg, garbage, [Value(msg, 0, a), Value(msg, a + 1, b - a - 1), Value(msg, b + 1, c - b - 1)], c + 1);
  }

  lemma FieldEnds(text: string, at: nat, n: nat) returns (end: nat)
    requires n > 0 && at <= |text| && ScanFields(text, at, n).Some?
    ensures Field(text, at, end) && ScanFields(text, end + 1, n - 1).Some?
    ensures ScanFields(text, at, n).value.1 == ScanFields(text, end + 1, n - 1).value.1
  {
    end := RunEnd(text, at);
    if !Field(text, at, end) {
      NoField(text, at, n);
    }
    FieldStep(text, at, end, n);
  }

  lemma ThreeEnds(text: string, at: nat, n: nat) returns (a: nat, b: nat, c: nat)
    requires n == 3 && at <= |text| && ScanFields(text, at, n).Some?
    ensures Field(text, at, a) && Field(text, a + 1, b) && Field(text, b + 1, c)
    ensures ScanFields(text, at, n).value.1 == c + 1
  {
    a := FieldEnds(text, at, n);
    b := FieldEnds(text, a + 1, n - 1);
    c := FieldEnds(text, b + 1, n - 2);
  }

  /** Only texts of this form are parsed. */
  lemma ParsedHasForm(f: Endian, msg: string, garbage: nat) returns (a: nat, b: nat, c: nat)
    requires ParseDest(f, msg, garbage).Some?
    ensures Form(msg, a, b, c)
  {
    a, b, c := ThreeEnds(msg, 0, FIELDS);
  }

  function Numbers(fields: seq<(nat, nat)>): (v: seq<nat>)
    ensures |v| == |fields|
  {
    if fields == [] then [] else [fields[0].0] + Numbers(fields[1..])
  }

  /** The first printed field of a text, and where the next one begins. */
  lemma FirstField(text: string, at: nat, x: nat, w: nat, rest: string) returns (end: nat)
    requires at <= |text| && text[at..] == Padded(x, w) + ":" + rest
    ensures at < end < |text| && text[end] == ':' && text[end + 1..] == rest && ScanField(text, at) == Some((x, end))
  {
    var t, n := text[at..], |Padded(x, w)|;
    assert text[at..at + n] == t[..n] == Padded(x, w);
    assert text[at + n] == t[n] && text[at + n + 1..] == t[n + 1..] == rest;
    FieldScans(text, at, x, w);
    end := at + n;
  }

  lemma FieldsApart(a: string, b: string, c: string, d: string)
    ensures (a + b + c) + d == a + b + (c + d)
  {
  }

  /** Printed fields are scanned back, whatever stands before and after them. */
  lemma {:induction false} FieldsRoundTrip(text: string, at: nat, fields: seq<(nat, nat)>, tail: string)
    requires at <= |text| && text[at..] == PrintFields(fields) + tail
    ensures ScanFields(text, at, |fields|) == Some((Numbers(fields), |text| - |tail|))
    decreases |fields|
  {
    if fields == [] {
      assert text[at..] == tail;
    } else {
      var (x, w) := fields[0];
      var rest := PrintFields(fields[1..]) + tail;
      FieldsApart(Padded(x, w), ":", PrintFields(fields[1..]), tail);
      var end := FirstField(text, at, x, w, rest);
      FieldsRoundTrip(text, end + 1, fields[1..], tail);
    }
  }

  /** The text of any record parses back to it, between hosts of any byte order. */
  lemma TextRoundTrip(e: Endian, f: Endian, d: Dest, garbage: nat)
    ensures ParseDest(f, PrintDest(e, d), garbage) == Some(d)
  {
    var msg := PrintDest(e, d);
    FieldsRoundTrip(msg, 0, Fields(d), WireGid(e, d.gid));
    NumbersOf((d.lid, 4), (d.qpn, 6), (d.psn, 6));
    assert msg[|msg| - 32..] == WireGid(e, d.gid);
    GidRoundTrip(e, f, d.gid, garbage);
  }

  lemma NumbersOf(x: (nat, nat), y: (nat, nat), z: (nat, nat))
    ensures Numbers([x, y, z]) == [x.0, y.0, z.0]
  {
    assert [x, y, z][1..] == [y, z] && [y, z][1..] == [z] && [z][1..] == [];
    assert Numbers([z]) == [z.0];
    assert Numbers([y, z]) == [y.0, z.0];
  }

  // ---- The message on the wire ----

  /** The size of the message buffer: a record and its terminator. */
  const MSG_SIZE: nat := 52

  /** The fields have the 16, 24 and 24 bits of the standard. */
  predicate InRange(d: Dest) { d.lid < 0x1_0000 && d.qpn < 0x100_0000 && d.psn < 0x100_0000 }

  /** A record is printed inside the message buffer exactly when its fields are in range. */
  lemma FitsBuffer(e: Endian, d: Dest)
    ensures |PrintDest(e, d)| + 1 <= MSG_SIZE <==> InRange(d)
  {
    RecordLength(e, d);
    ThreeFields((d.lid, 4), (d.qpn, 6), (d.psn, 6));
  }

  /** What a peer writes to the socket: the whole buffer. */
  function Message(e: Endian, d: Dest): (m: string)
    requires InRange(d)
    ensures |m| == MSG_SIZE
  {
    RecordLength(e, d);
    PrintDest(e, d) + ['\0']
  }

  /** Where the string in a buffer ends. */
  function Terminator(m: string, at: nat): (end: nat)
    requires at <= |m|
    ensures at <= end <= |m|
    decreases |m| - at
  {
    if at == |m| || m[at] == '\0' then at else Terminator(m, at + 1)
  }

  function ParseMessage(f: Endian, m: string, garbage: nat): Option<Dest> {
    ParseDest(f, m[..Terminator(m, 0)], garbage)
  }

  predicate NoNul(s: string) { forall k :: 0 <= k < |s| ==> s[k] != '\0' }

  lemma {:induction false} PrintHexNoNul(x: nat, digits: nat)
    ensures NoNul(PrintHex(x, digits))
    decreases digits
  {
    if digits > 0 {
      PrintHexNoNul(x / 16, digits - 1);
    }
  }

  lemma {:induction false} FieldsNoNul(fields: seq<(nat, nat)>)
    ensures NoNul(PrintFields(fields))
  {
    if fields != [] {
      PrintHexNoNul(fields[0].0, |Padded(fields[0].0, fields[0].1)|);
      FieldsNoNul(fields[1..]);
    }
  }

  lemma {:induction false} TextNoNul(e: Endian, words: seq<nat>)
    ensures NoNul(Text(e, words))
  {
    if words != [] {
      PrintHexNoNul(Swapped(e, words[0]), 8);
      TextNoNul(e, words[1..]);
    }
  }

  lemma {:induction false} TerminatorIs(s: string, at: nat)
    requires NoNul(s) && at <= |s|
    ensures Terminator(s + ['\0'], at) == |s|
    decreases |s| - at
  {
    if at < |s| {
      TerminatorIs(s, at + 1);
    }
  }

  /** Every address whose fields are in range fills the message exactly and is parsed back to
      itself by the peer, between hosts of any byte order. */
  lemma RecordRoundTrip(e: Endian, f: Endian, d: Dest, garbage: nat)
    requires InRange(d)
    ensures |Message(e, d)| == MSG_SIZE && ParseMessage(f, Message(e, d), garbage) == Some(d)
  {
    var s := PrintDest(e, d);
    FieldsNoNul(Fields(d));
    TextNoNul(e, Words(e, d.gid, 0));
    TerminatorIs(s, 0);
    assert Message(e, d)[..|s|] == s;
    TextRoundTrip(e, f, d, garbage);
  }
}
