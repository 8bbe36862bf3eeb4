/** Hexadecimal text: printing with a fixed number of lower-case digits, and its value. */
module HexText {

  function HexDigit(v: nat): char
    requires v < 16
  {
    if v < 10 then '0' + v as char else 'a' + (v - 10) as char
  }

  /** The value of a digit of either case, or -1. */
  function HexToBin(c: char): (r: int)
    ensures -1 <= r < 16
  {
    if '0' <= c <= '9' then c as int - '0' as int
    else if 'a' <= c <= 'f' then c as int - 'a' as int + 10
    else if 'A' <= c <= 'F' then c as int - 'A' as int + 10
    else -1
  }

  predicate IsHex(c: char) { HexToBin(c) >= 0 }

  /** n hexadecimal digits stand in the text from position at on. */
  predicate Digits(text: string, at: nat, n: nat) {
    at + n <= |text| && forall k :: at <= k < at + n ==> IsHex(text[k])
  }

  /** Their value. */
  function Value(text: string, at: nat, n: nat): nat
    requires Digits(text, at, n)
  {
    if n == 0 then 0 else 16 * Value(text, at, n - 1) + HexToBin(text[at + n - 1])
  }

  function Pow16(n: nat): (r: nat)
    ensures r > 0
  {
    if n == 0 then 1 else 16 * Pow16(n - 1)
  }

  /** The low `digits` hexadecimal digits of x, most significant first. */
  function PrintHex(x: nat, digits: nat): (s: string)
    ensures |s| == digits
  {
    if digits == 0 then "" else PrintHex(x / 16, digits - 1) + [HexDigit(x % 16)]
  }

  lemma {:induction false} ValueBound(text: string, at: nat, n: nat)
    requires Digits(text, at, n)
    ensures Value(text, at, n) < Pow16(n)
  {
    if n > 0 {
      ValueBound(text, at, n - 1);
    }
  }

  /** Whatever stands in a text as the print of x has the value x, if x fits the digits. */
  lemma {:induction false} PrintedValue(text: string, at: nat, x: nat, digits: nat)
    requires at + digits <= |text| && text[at..at + digits] == PrintHex(x, digits) && x < Pow16(digits)
    ensures Digits(text, at, digits) && Value(text, at, digits) == x
  {
    if digits > 0 {
      var s := text[at..at + digits];
      assert text[at..at + (digits - 1)] == s[..digits - 1] == PrintHex(x / 16, digits - 1);
      assert text[at + digits - 1] == s[digits - 1] == HexDigit(x % 16);
      PrintedValue(text, at, x / 16, digits - 1);
    }
  }

  lemma PowersOf16()
    ensures Pow16(4) == 0x1_0000 && Pow16(6) == 0x100_0000 && Pow16(7) == 0x1000_0000 && Pow16(8) == 0x1_0000_0000
  {
    assert Pow16(2) == 256;
    assert Pow16(4) == 65536;
    assert Pow16(6) == 0x100_0000;
  }

  lemma {:induction false} Pow16Monotone(m: nat, n: nat)
    requires m <= n
    ensures Pow16(m) <= Pow16(n)
    decreases n
  {
    if m < n {
      Pow16Monotone(m, n - 1);
    }
  }
}
