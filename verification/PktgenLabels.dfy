/** The MPLS label list of the `mpls` command: how it is read and how it is printed. */
module PktgenLabels {
  import opened Basics
  import opened HexText

  const MAX_MPLS_LABELS: nat := 16

  /** The digits a label is read from. */
  const LABEL_DIGITS: nat := 8

  /** What a reader of user memory returns: a fault when it runs off the readable text, too
      many labels, or the number of characters it consumed. */
  datatype Parsed = Fault | TooBig | Consumed(len: nat)

  /** hex32_arg from its i-th character on, num having been read so far. The shift comes
      before the character is looked at. */
  function HexFrom(text: string, at: nat, i: nat, maxlen: nat, num: u32): (r: (Parsed, u32))
    ensures r.0.Consumed? ==> i <= r.0.len && (i <= maxlen ==> r.0.len <= maxlen)
    ensures r.0 != TooBig
    decreases maxlen - i
  {
    if i >= maxlen then (Consumed(i), num)
    else
      var shifted := num * 16 % TWO_32;
      if at + i >= |text| then (Fault, shifted)
      else if !IsHex(text[at + i]) then (Consumed(i), shifted)
      else HexFrom(text, at, i + 1, maxlen, shifted + HexToBin(text[at + i]))
  }

  method Hex32Arg(text: string, at: nat, maxlen: nat) returns (r: Parsed, num: u32)
    ensures (r, num) == HexFrom(text, at, 0, maxlen, 0)
  {
    var i := 0;
    num := 0;
    while i < maxlen
      invariant 0 <= i <= maxlen
      invariant HexFrom(text, at, 0, maxlen, 0) == HexFrom(text, at, i, maxlen, num)
    {
      num := num * 16 % TWO_32;
      if at + i >= |text| { return Fault, num; }
      if IsHex(text[at + i]) {
        num := num + HexToBin(text[at + i]);
      } else {
        break;
      }
      i := i + 1;
    }
    r := Consumed(i);
  }

  lemma ValueFits(text: string, at: nat, n: nat)
    requires Digits(text, at, n) && n <= 8
    ensures Value(text, at, n) < TWO_32
    ensures n <= 7 ==> 16 * Value(text, at, n) < TWO_32
  {
    ValueBound(text, at, n);
    Pow16Monotone(n, 8);
    if n <= 7 { Pow16Monotone(n, 7); }
    PowersOf16();
  }

  /** A run of as many digits as the reader takes, at most eight, reads as its value. */
  lemma {:induction false} HexFromFull(text: string, at: nat, i: nat, maxlen: nat, num: u32)
    requires i <= maxlen <= 8 && Digits(text, at, maxlen) && num == Value(text, at, i)
    ensures HexFrom(text, at, i, maxlen, num).0 == Consumed(maxlen)
    ensures HexFrom(text, at, i, maxlen, num).1 == Value(text, at, maxlen)
    decreases maxlen - i
  {
    if i < maxlen {
      ValueFits(text, at, i);
      ValueFits(text, at, i + 1);
      HexFromFull(text, at, i + 1, maxlen, Value(text, at, i + 1));
    }
  }

  /** A shorter run reads as sixteen times its value: the shift made for the character that
      ended the run is kept. */
  lemma {:induction false} HexFromShort(text: string, at: nat, i: nat, n: nat, maxlen: nat, num: u32)
    requires i <= n < maxlen <= 8 && Digits(text, at, n) && num == Value(text, at, i)
    requires at + n < |text| && !IsHex(text[at + n])
    ensures HexFrom(text, at, i, maxlen, num).0 == Consumed(n)
    ensures HexFrom(text, at, i, maxlen, num).1 == 16 * Value(text, at, n)
    decreases n - i
  {
    ValueFits(text, at, i);
    if i < n {
      ValueFits(text, at, i + 1);
      HexFromShort(text, at, i + 1, n, maxlen, Value(text, at, i + 1));
      assert Value(text, at, i + 1) == 16 * num + HexToBin(text[at + i]);
    } else {
      assert HexFrom(text, at, i, maxlen, num) == (Consumed(i), num * 16 % TWO_32);
    }
  }

  // ---- The label list ----

  /** The bottom-of-stack bit of a label stack entry in host order. */
  predicate BottomBit(entry: u32) { entry / 256 % 2 == 1 }

  /** What the reader leaves: its return value, the number of labels in force, the label
      array, and whether a label with its bottom bit set has asked for random labels. */
  datatype LabelState = LabelState(ret: Parsed, count: nat, labels: seq<u32>, random: bool)

  /** get_labels from position i on, with n labels read. */
  function LabelsFrom(text: string, i: nat, n: nat, labels: seq<u32>, random: bool): (r: LabelState)
    requires n < MAX_MPLS_LABELS == |labels|
    ensures |r.labels| == MAX_MPLS_LABELS && r.count < MAX_MPLS_LABELS
    ensures r.count > 0 ==> r.ret.Consumed?
    decreases MAX_MPLS_LABELS - n
  {
    var (h, num) := HexFrom(text, i, 0, LABEL_DIGITS, 0);
    if h.Fault? then LabelState(Fault, 0, labels, random)
    else if h.len == 0 then LabelState(Consumed(0), 0, labels, random)
    else
      var now, rnd := labels[n := num], random || BottomBit(num);
      var j := i + h.len;
      if j >= |text| then LabelState(Fault, 0, now, rnd)
      else if n + 1 >= MAX_MPLS_LABELS then LabelState(TooBig, 0, now, rnd)
      else if text[j] == ',' then LabelsFrom(text, j + 1, n + 1, now, rnd)
      else LabelState(Consumed(j + 1), n + 1, now, rnd)
  }

  // ---- Lists as text ----

  /** A label as it may be written: one to eight digits. */
  predicate Word(w: string) { 1 <= |w| <= 8 && Digits(w, 0, |w|) }

  predicate Words(ws: seq<string>) { forall k :: 0 <= k < |ws| ==> Word(ws[k]) }

  /** The number a word is read as: sixteen times its value if it is short. */
  function ReadOf(w: string): u32
    requires Word(w)
  {
    ValueFits(w, 0, |w|);
    if |w| == 8 then Value(w, 0, 8) else 16 * Value(w, 0, |w|)
  }

  function ReadsOf(ws: seq<string>): (r: seq<u32>)
    requires Words(ws)
    ensures |r| == |ws| && forall k :: 0 <= k < |ws| ==> r[k] == ReadOf(ws[k])
  {
    seq(|ws|, k requires 0 <= k < |ws| => ReadOf(ws[k]))
  }

  /** The words from the k-th on, separated by commas. */
  function JoinedFrom(ws: seq<string>, k: nat): string
    requires k < |ws|
    decreases |ws| - k
  {
    if k == |ws| - 1 then ws[k] else ws[k] + "," + JoinedFrom(ws, k + 1)
  }

  function Joined(ws: seq<string>): string { if ws == [] then "" else JoinedFrom(ws, 0) }

  /** The labels as the command reports them: eight digits each. */
  function Prints(labels: seq<u32>): (ws: seq<string>)
    ensures |ws| == |labels| && forall k :: 0 <= k < |ws| ==> ws[k] == PrintHex(labels[k], 8)
  {
    seq(|labels|, k requires 0 <= k < |labels| => PrintHex(labels[k], 8))
  }

  function PrintLabels(labels: seq<u32>): string { Joined(Prints(labels)) }

  predicate AnyBottom(labels: seq<u32>) {
    exists k :: 0 <= k < |labels| && BottomBit(labels[k])
  }

  /** s stands in the text from position i on. */
  predicate Stands(text: string, i: nat, s: string) {
    i + |s| <= |text| && text[i..i + |s|] == s
  }

  lemma StandsConcat(text: string, i: nat, a: string, b: string)
    requires Stands(text, i, a + b)
    ensures Stands(text, i, a) && Stands(text, i + |a|, b)
  {
    assert text[i..i + |a + b|][..|a|] == text[i..i + |a|];
    assert text[i..i + |a + b|][|a|..] == text[i + |a|..i + |a| + |b|];
    assert (a + b)[..|a|] == a && (a + b)[|a|..] == b;
  }

  lemma StandsConcat3(text: string, i: nat, a: string, b: string, c: string)
    requires Stands(text, i, a + "," + b + c)
    ensures Stands(text, i, a) && Stands(text, i + |a|, ",") && Stands(text, i + |a| + 1, b + c)
  {
    assert a + "," + b + c == a + ("," + (b + c));
    StandsConcat(text, i, a, "," + (b + c));
    StandsConcat(text, i + |a|, ",", b + c);
  }

  lemma CharStands(text: string, i: nat, c: char)
    requires Stands(text, i, [c])
    ensures i < |text| && text[i] == c
  {
    assert text[i..i + 1][0] == text[i];
  }

  // ---- Reading them ----

  lemma {:induction false} SameValue(text: string, at: nat, w: string, n: nat)
    requires Stands(text, at, w) && n <= |w| && Digits(w, 0, n)
    ensures Digits(text, at, n) && Value(text, at, n) == Value(w, 0, n)
  {
    assert forall k :: 0 <= k < |w| ==> text[at + k] == w[k];
    if n > 0 {
      SameValue(text, at, w, n - 1);
    }
  }

  /** A word is read as a whole; a short one must end where the digits end. */
  lemma ReadsWord(text: string, at: nat, w: string)
    requires Word(w) && Stands(text, at, w) && at + |w| < |text|
    requires |w| < 8 ==> !IsHex(text[at + |w|])
    ensures HexFrom(text, at, 0, LABEL_DIGITS, 0) == (Consumed(|w|), ReadOf(w))
  {
    SameValue(text, at, w, |w|);
    if |w| == 8 {
      HexFromFull(text, at, 0, LABEL_DIGITS, 0);
    } else {
      HexFromShort(text, at, 0, |w|, LABEL_DIGITS, 0);
    }
  }

  /** The reader takes x from len digits at this place, and the character c follows them. */
  predicate Takes(text: string, at: nat, len: nat, x: u32, c: char) {
    && len > 0 && HexFrom(text, at, 0, LABEL_DIGITS, 0) == (Consumed(len), x)
    && at + len < |text| && text[at + len] == c
  }

  lemma RoundGoesOn(text: string, at: nat, n: nat, was: seq<u32>, random: bool, len: nat, x: u32)
    requires n + 1 < MAX_MPLS_LABELS == |was| && Takes(text, at, len, x, ',')
    ensures LabelsFrom(text, at, n, was, random)
         == LabelsFrom(text, at + len + 1, n + 1, was[n := x], random || BottomBit(x))
  {
  }

  lemma RoundEnds(text: string, at: nat, n: nat, was: seq<u32>, random: bool, len: nat, x: u32, c: char)
    requires n < MAX_MPLS_LABELS == |was| && Takes(text, at, len, x, c) && (c == ',' ==> n + 1 == MAX_MPLS_LABELS)
    ensures LabelsFrom(text, at, n, was, random) ==
            if n + 1 == MAX_MPLS_LABELS then LabelState(TooBig, 0, was[n := x], random || BottomBit(x))
            else LabelState(Consumed(at + len + 1), n + 1, was[n := x], random || BottomBit(x))
  {
  }

  /** Where the labels of a list stand and how long they are. */
  ghost predicate TakenAt(text: string, ats: seq<nat>, lens: seq<nat>, labels: seq<u32>, stop: char, k: nat)
    requires k < |labels| == |lens| < |ats|
  {
    && Takes(text, ats[k], lens[k], labels[k], if k == |labels| - 1 then stop else ',')
    && ats[k + 1] == ats[k] + lens[k] + 1
  }

  ghost predicate Taken(text: string, ats: seq<nat>, lens: seq<nat>, labels: seq<u32>, stop: char) {
    && labels != [] && |labels| == |lens| == |ats| - 1 && ats[0] == 0
    && forall k :: 0 <= k < |labels| ==> TakenAt(text, ats, lens, labels, stop, k)
  }

  /** The label array after k labels. */
  function Stored(was: seq<u32>, labels: seq<u32>, k: nat): (now: seq<u32>)
    requires k <= |labels| <= |was|
    ensures |now| == |was|
  {
    labels[..k] + was[k..]
  }

  lemma StoresOne(was: seq<u32>, labels: seq<u32>, k: nat)
    requires k < |labels| <= |was|
    ensures Stored(was, labels, k)[k := labels[k]] == Stored(was, labels, k + 1)
  {
  }

  lemma AnyBottomNext(labels: seq<u32>, k: nat)
    requires k < |labels|
    ensures AnyBottom(labels[..k + 1]) <==> AnyBottom(labels[..k]) || BottomBit(labels[k])
  {
    if AnyBottom(labels[..k]) {
      var q :| 0 <= q < k && BottomBit(labels[..k][q]);
      assert labels[..k + 1][q] == labels[..k][q];
    }
    assert labels[..k + 1][k] == labels[k];
    if AnyBottom(labels[..k + 1]) && !BottomBit(labels[k]) {
      var q :| 0 <= q < k + 1 && BottomBit(labels[..k + 1][q]);
      assert q < k && labels[..k][q] == labels[..k + 1][q];
    }
  }

  lemma ReadsNext(text: string, ats: seq<nat>, lens: seq<nat>, labels: seq<u32>, stop: char,
                  was: seq<u32>, random: bool, k: nat)
    requires k + 1 < |labels| == |lens| == |ats| - 1 && TakenAt(text, ats, lens, labels, stop, k)
    requires |labels| <= MAX_MPLS_LABELS == |was|
    ensures LabelsFrom(text, ats[k], k, Stored(was, labels, k), random || AnyBottom(labels[..k]))
         == LabelsFrom(text, ats[k + 1], k + 1, Stored(was, labels, k + 1), random || AnyBottom(labels[..k + 1]))
  {
    StoresOne(was, labels, k);
    AnyBottomNext(labels, k);
    RoundGoesOn(text, ats[k], k, Stored(was, labels, k), random || AnyBottom(labels[..k]), lens[k], labels[k]);
  }

  /** Reading from one of the labels on is reading on from any later one. */
  lemma {:induction false} ReadsOn(text: string, ats: seq<nat>, lens: seq<nat>, labels: seq<u32>, stop: char,
                                   was: seq<u32>, random: bool, j: nat, k: nat)
    requires Taken(text, ats, lens, labels, stop) && j <= k < |labels| <= MAX_MPLS_LABELS == |was|
    ensures LabelsFrom(text, ats[j], j, Stored(was, labels, j), random || AnyBottom(labels[..j]))
         == LabelsFrom(text, ats[k], k, Stored(was, labels, k), random || AnyBottom(labels[..k]))
    decreases k - j
  {
    if j < k {
      assert TakenAt(text, ats, lens, labels, stop, j);
      ReadsNext(text, ats, lens, labels, stop, was, random, j);
      ReadsOn(text, ats, lens, labels, stop, was, random, j + 1, k);
    }
  }

  /** What the reader makes of a list of up to sixteen labels. */
  lemma ReadsAll(text: string, ats: seq<nat>, lens: seq<nat>, labels: seq<u32>, stop: char, was: seq<u32>, random: bool)
    requires Taken(text, ats, lens, labels, stop) && |labels| <= MAX_MPLS_LABELS == |was|
    requires stop == ',' ==> |labels| == MAX_MPLS_LABELS
    ensures var n := |labels|;
            LabelsFrom(text, 0, 0, was, random) ==
            if n == MAX_MPLS_LABELS then LabelState(TooBig, 0, labels, random || AnyBottom(labels))
            else LabelState(Consumed(ats[n]), n, Stored(was, labels, n), random || AnyBottom(labels))
  {
    var k := |labels| - 1;
    assert Stored(was, labels, 0) == was;
    ReadsOn(text, ats, lens, labels, stop, was, random, 0, k);
    assert TakenAt(text, ats, lens, labels, stop, k);
    StoresOne(was, labels, k);
    AnyBottomNext(labels, k);
    assert labels[..k + 1] == labels;
    RoundEnds(text, ats[k], k, Stored(was, labels, k), random || AnyBottom(labels[..k]), lens[k], labels[k], stop);
    if |labels| == MAX_MPLS_LABELS {
      assert Stored(was, labels, |labels|) == labels;
    }
  }

  // ---- Lists of words ----

  /** Where each word of a list begins, and where the character after the list ends. */
  function Starts(ws: seq<string>, k: nat): nat
    requires k <= |ws|
  {
    if k == 0 then 0 else Starts(ws, k - 1) + |ws[k - 1]| + 1
  }

  lemma {:induction false} RestStands(text: string, ws: seq<string>, stop: char, k: nat)
    requires ws != [] && k < |ws| && Stands(text, 0, Joined(ws) + [stop])
    ensures Stands(text, Starts(ws, k), JoinedFrom(ws, k) + [stop])
    ensures Starts(ws, k) + |JoinedFrom(ws, k)| == |Joined(ws)|
  {
    if k > 0 {
      RestStands(text, ws, stop, k - 1);
      StandsConcat3(text, Starts(ws, k - 1), ws[k - 1], JoinedFrom(ws, k), [stop]);
    }
  }

  /** Each word of a list stands in the text, before its comma or the end of the list. */
  lemma WordStands(text: string, at: nat, ws: seq<string>, k: nat, stop: char)
    requires k < |ws| && Stands(text, at, JoinedFrom(ws, k) + [stop])
    ensures Stands(text, at, ws[k]) && Stands(text, at + |ws[k]|, [if k == |ws| - 1 then stop else ','])
  {
    if k == |ws| - 1 {
      StandsConcat(text, at, ws[k], [stop]);
    } else {
      StandsConcat3(text, at, ws[k], JoinedFrom(ws, k + 1), [stop]);
    }
  }

  lemma TakesWord(text: string, at: nat, w: string, c: char)
    requires Word(w) && Stands(text, at, w) && Stands(text, at + |w|, [c]) && (|w| < 8 ==> !IsHex(c))
    ensures Takes(text, at, |w|, ReadOf(w), c)
  {
    CharStands(text, at + |w|, c);
    ReadsWord(text, at, w);
  }

  function StartList(ws: seq<string>): (ats: seq<nat>)
    ensures |ats| == |ws| + 1 && forall k :: 0 <= k < |ats| ==> ats[k] == Starts(ws, k)
  {
    seq(|ws| + 1, k requires 0 <= k < |ws| + 1 => Starts(ws, k))
  }

  function Lengths(ws: seq<string>): (lens: seq<nat>)
    ensures |lens| == |ws| && forall k :: 0 <= k < |lens| ==> lens[k] == |ws[k]|
  {
    seq(|ws|, k requires 0 <= k < |ws| => |ws[k]|)
  }

  lemma ListIsTaken(text: string, ws: seq<string>, stop: char)
    requires ws != [] && Words(ws) && Stands(text, 0, Joined(ws) + [stop])
    requires |ws[|ws| - 1]| < 8 ==> !IsHex(stop)
    ensures Taken(text, StartList(ws), Lengths(ws), ReadsOf(ws), stop) && Starts(ws, |ws|) == |Joined(ws)| + 1
  {
    forall k | 0 <= k < |ws|
      ensures TakenAt(text, StartList(ws), Lengths(ws), ReadsOf(ws), stop, k)
    {
      RestStands(text, ws, stop, k);
      WordStands(text, Starts(ws, k), ws, k, stop);
      TakesWord(text, Starts(ws, k), ws[k], if k == |ws| - 1 then stop else ',');
    }
    RestStands(text, ws, stop, |ws| - 1);
  }

  /** A list can be read after its last word: the next character is neither a comma nor, if
      that word is short, a digit. */
  predicate Ends(ws: seq<string>, stop: char)
    requires ws != []
  {
    stop != ',' && (|ws[|ws| - 1]| < 8 ==> !IsHex(stop))
  }

  /** A list of one to fifteen labels, written with one to eight digits each, is read as the
      list of what its words are read as, whatever was in the array before. */
  lemma ListIsRead(text: string, ws: seq<string>, stop: char, was: seq<u32>, random: bool)
    requires 1 <= |ws| <= 15 && Words(ws) && |was| == MAX_MPLS_LABELS
    requires Ends(ws, stop) && Joined(ws) + [stop] <= text
    ensures var r := LabelsFrom(text, 0, 0, was, random);
            && r.ret == Consumed(|Joined(ws)| + 1) && r.count == |ws| && r.labels[..r.count] == ReadsOf(ws)
            && r.random == (random || AnyBottom(ReadsOf(ws)))
  {
    assert Stands(text, 0, Joined(ws) + [stop]);
    ListIsTaken(text, ws, stop);
    ReadsAll(text, StartList(ws), Lengths(ws), ReadsOf(ws), stop, was, random);
  }

  // ---- Where a list is not read ----

  /** After words and commas the reader is where the next word should begin. */
  lemma ReadsToComma(text: string, ws: seq<string>, was: seq<u32>, random: bool)
    requires 1 <= |ws| <= 15 && Words(ws) && |was| == MAX_MPLS_LABELS && Joined(ws) + [','] <= text
    ensures LabelsFrom(text, 0, 0, was, random)
         == LabelsFrom(text, |Joined(ws)| + 1, |ws|, Stored(was, ReadsOf(ws), |ws|), random || AnyBottom(ReadsOf(ws)))
  {
    var ats, lens, labels, k := StartList(ws), Lengths(ws), ReadsOf(ws), |ws| - 1;
    assert Stands(text, 0, Joined(ws) + [',']);
    ListIsTaken(text, ws, ',');
    assert Stored(was, labels, 0) == was;
    ReadsOn(text, ats, lens, labels, ',', was, random, 0, k);
    assert TakenAt(text, ats, lens, labels, ',', k);
    StoresOne(was, labels, k);
    AnyBottomNext(labels, k);
    assert labels[..k + 1] == labels;
    RoundGoesOn(text, ats[k], k, Stored(was, labels, k), random || AnyBottom(labels[..k]), lens[k], labels[k]);
  }

  /** Where a word should begin and something else stands, the list is given up: no label is in
      force, and no character counts as read. */
  lemma EmptyWordEnds(text: string, ws: seq<string>, was: seq<u32>, random: bool)
    requires 1 <= |ws| <= 15 && Words(ws) && |was| == MAX_MPLS_LABELS && Joined(ws) + [','] <= text
    requires var at := |Joined(ws)| + 1; at < |text| && !IsHex(text[at])
    ensures var r := LabelsFrom(text, 0, 0, was, random);
            r.ret == Consumed(0) && r.count == 0 && r.labels == Stored(was, ReadsOf(ws), |ws|)
  {
    ReadsToComma(text, ws, was, random);
  }

  lemma NoWordAtAll(text: string, was: seq<u32>, random: bool)
    requires |was| == MAX_MPLS_LABELS && text != "" && !IsHex(text[0])
    ensures LabelsFrom(text, 0, 0, was, random) == LabelState(Consumed(0), 0, was, random)
  {
  }

  /** A text that ends inside or right behind a word is a fault: no label is in force. */
  lemma {:induction false} EndsInDigits(text: string, at: nat, i: nat, num: u32)
    requires i <= LABEL_DIGITS && at + i <= |text| < at + LABEL_DIGITS && Digits(text, at, |text| - at)
    ensures HexFrom(text, at, i, LABEL_DIGITS, num).0 == Fault
    decreases |text| - at - i
  {
    if at + i < |text| {
      EndsInDigits(text, at, i + 1, num * 16 % TWO_32 + HexToBin(text[at + i]));
    }
  }

  lemma BrokenOffWord(text: string, ws: seq<string>, was: seq<u32>, random: bool)
    requires 1 <= |ws| <= 15 && Words(ws) && |was| == MAX_MPLS_LABELS && Joined(ws) + [','] <= text
    requires var at := |Joined(ws)| + 1; |text| < at + LABEL_DIGITS && Digits(text, at, |text| - at)
    ensures var r := LabelsFrom(text, 0, 0, was, random); r.ret == Fault && r.count == 0
  {
    ReadsToComma(text, ws, was, random);
    EndsInDigits(text, |Joined(ws)| + 1, 0, 0);
  }

  lemma BrokenOffBehindWord(text: string, ws: seq<string>, was: seq<u32>, random: bool)
    requires 1 <= |ws| <= 15 && Words(ws) && |was| == MAX_MPLS_LABELS && Joined(ws) + [','] <= text
    requires var at := |Joined(ws)| + 1; |text| == at + LABEL_DIGITS && Digits(text, at, LABEL_DIGITS)
    ensures var r := LabelsFrom(text, 0, 0, was, random); r.ret == Fault && r.count == 0
  {
    ReadsToComma(text, ws, was, random);
    HexFromFull(text, |Joined(ws)| + 1, 0, LABEL_DIGITS, 0);
  }

  /** The values that the words of a list stand for. */
  function ValuesOf(ws: seq<string>): (v: seq<nat>)
    requires Words(ws)
    ensures |v| == |ws| && forall k :: 0 <= k < |ws| ==> v[k] == Value(ws[k], 0, |ws[k]|)
  {
    seq(|ws|, k requires 0 <= k < |ws| => Value(ws[k], 0, |ws[k]|))
  }

  /** Such a list is read as the values it stands for exactly when each of its words has eight
      digits or stands for zero. */
  lemma ListReadAsItsValues(text: string, ws: seq<string>, stop: char, was: seq<u32>, random: bool)
    requires 1 <= |ws| <= 15 && Words(ws) && |was| == MAX_MPLS_LABELS
    requires Ends(ws, stop) && Joined(ws) + [stop] <= text
    ensures var r := LabelsFrom(text, 0, 0, was, random);
            r.labels[..r.count] == ValuesOf(ws) <==>
            forall k :: 0 <= k < |ws| ==> |ws[k]| == 8 || Value(ws[k], 0, |ws[k]|) == 0
  {
    ListIsRead(text, ws, stop, was, random);
    WordsReadAsValues(ws);
  }

  lemma WordsReadAsValues(ws: seq<string>)
    requires Words(ws)
    ensures ReadsOf(ws) == ValuesOf(ws)
        <==> forall k :: 0 <= k < |ws| ==> |ws[k]| == 8 || Value(ws[k], 0, |ws[k]|) == 0
  {
    forall k | 0 <= k < |ws|
      ensures ReadsOf(ws)[k] == ValuesOf(ws)[k] <==> |ws[k]| == 8 || Value(ws[k], 0, |ws[k]|) == 0
    {
      assert ReadsOf(ws)[k] == ReadOf(ws[k]);
    }
  }

  lemma {:induction false} ValueGrows(text: string, at: nat, m: nat, n: nat)
    requires m < n && Digits(text, at, n)
    ensures Value(text, at, n) >= 16 * Value(text, at, m)
    decreases n
  {
    if m < n - 1 {
      ValueGrows(text, at, m, n - 1);
    }
  }

  /** A run of digits of any length, and what the reader makes of it: its value exactly when
      the run has eight digits or stands for zero. */
  lemma RunReadAsItsValue(text: string, at: nat, n: nat)
    requires Digits(text, at, n) && at + n < |text| && !IsHex(text[at + n])
    ensures var (ret, num) := HexFrom(text, at, 0, LABEL_DIGITS, 0);
            && ret == Consumed(if n < 8 then n else 8)
            && num == (if n < 8 then 16 * Value(text, at, n) else Value(text, at, 8))
            && (num == Value(text, at, n) <==> n == 8 || Value(text, at, n) == 0)
  {
    if n < 8 {
      HexFromShort(text, at, 0, n, LABEL_DIGITS, 0);
    } else {
      HexFromFull(text, at, 0, LABEL_DIGITS, 0);
      if n > 8 {
        ValueGrows(text, at, 8, n);
      }
    }
  }

  lemma PrintsAreWords(labels: seq<u32>)
    ensures Words(Prints(labels)) && ReadsOf(Prints(labels)) == labels
  {
    forall k | 0 <= k < |labels|
      ensures Word(Prints(labels)[k]) && ReadOf(Prints(labels)[k]) == labels[k]
    {
      var w := Prints(labels)[k];
      PowersOf16();
      assert w[0..8] == w;
      PrintedValue(w, 0, labels[k], 8);
    }
  }

  /** A list of one to fifteen labels, printed and then followed by any character but a
      comma, is parsed back to the same list, whatever was in the array before. */
  lemma LabelsRoundTrip(text: string, labels: seq<u32>, stop: char, was: seq<u32>, random: bool)
    requires 1 <= |labels| <= 15 && stop != ',' && |was| == MAX_MPLS_LABELS
    requires PrintLabels(labels) + [stop] <= text
    ensures var r := LabelsFrom(text, 0, 0, was, random);
            && r.ret == Consumed(|PrintLabels(labels)| + 1)
            && r.count == |labels| && r.labels[..r.count] == labels
            && r.random == (random || AnyBottom(labels))
  {
    PrintsAreWords(labels);
    ListIsRead(text, Prints(labels), stop, was, random);
  }

  /** A label written with fewer than eight digits is not read as its value: "10" followed by
      a newline is taken for hexadecimal 100. */
  lemma ShortLabelIsShifted(was: seq<u32>)
    requires |was| == MAX_MPLS_LABELS
    ensures var r := LabelsFrom("10\n", 0, 0, was, false);
            r.count == 1 && r.labels[0] == 0x100
  {
    assert Value("10\n", 0, 1) == 1;
    assert Value("10\n", 0, 2) == 16;
    HexFromShort("10\n", 0, 0, 2, LABEL_DIGITS, 0);
  }

  /** Sixteen labels are refused, whatever follows, and leave none in force, but all of them
      in the array. */
  lemma SixteenLabelsRefused(text: string, was: seq<u32>, random: bool, ws: seq<string>, stop: char)
    requires |ws| == MAX_MPLS_LABELS == |was| && Words(ws) && (|ws[|ws| - 1]| < 8 ==> !IsHex(stop))
    requires Joined(ws) + [stop] <= text
    ensures var r := LabelsFrom(text, 0, 0, was, random); r.ret == TooBig && r.count == 0 && r.labels == ReadsOf(ws)
  {
    assert Stands(text, 0, Joined(ws) + [stop]);
    ListIsTaken(text, ws, stop);
    ReadsAll(text, StartList(ws), Lengths(ws), ReadsOf(ws), stop, was, random);
  }
}
