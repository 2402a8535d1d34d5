/**
 * Decimal rendering of the figures that appear in summaries: `String.valueOf(long)`
 * for unit counts and a two-decimal rendering for money. Money is held in
 * integer cents, so the two-decimal rendering is exact and needs no rounding.
 */
module Numerals {
  import opened Words

  predicate IsDigit(c: char) {
    '0' <= c <= '9'
  }

  predicate AllDigits(s: string) {
    forall i :: 0 <= i < |s| ==> IsDigit(s[i])
  }

  function DigitChar(d: nat): (c: char)
    requires d < 10
    ensures IsDigit(c)
  {
    "0123456789"[d]
  }

  function DigitValue(c: char): (d: nat)
    requires IsDigit(c)
    ensures d < 10
  {
    (c as int) - ('0' as int)
  }

  /** The decimal digits of `n`, most significant first, without leading zeros. */
  function NatText(n: nat): (r: string)
    ensures r != [] && AllDigits(r)
    ensures r[0] == '0' ==> n == 0
  {
    if n < 10 then [DigitChar(n)] else NatText(n / 10) + [DigitChar(n % 10)]
  }

  /** Reads a string of decimal digits. */
  function ParseNat(s: string): nat
    requires AllDigits(s)
  {
    if s == [] then 0 else 10 * ParseNat(s[..|s| - 1]) + DigitValue(s[|s| - 1])
  }

  /** Reading back a rendered number gives the number. */
  lemma {:induction false} ParseNatText(n: nat)
    ensures ParseNat(NatText(n)) == n
  {
    if n < 10 {
      assert NatText(n)[..0] == [];
    } else {
      var s := NatText(n);
      assert s[..|s| - 1] == NatText(n / 10);
      ParseNatText(n / 10);
    }
  }

  /** `String.valueOf(long)`: a minus sign for negatives, then the digits. */
  function LongText(n: int): string {
    if n < 0 then "-" + NatText(-n) else NatText(n)
  }

  /** Whole units, a point and two digits of cents, for a non-negative amount in cents. */
  function UnsignedMoney(a: nat): string {
    NatText(a / 100) + "." + [DigitChar(a % 100 / 10), DigitChar(a % 10)]
  }

  /** Two-decimal rendering of an amount given in cents. */
  function Money2(cents: int): string {
    (if cents < 0 then "-" else "") + UnsignedMoney(if cents < 0 then -cents else cents)
  }

  /** The shape `LongText` produces: an optional minus sign, then digits. */
  predicate IsLongShape(s: string) {
    s != [] && (if s[0] == '-' then AllDigits(s[1..]) else AllDigits(s))
  }

  /** Reads a signed integer rendered by `LongText`. */
  function ParseLong(s: string): int
    requires IsLongShape(s)
  {
    if s[0] == '-' then 0 - ParseNat(s[1..]) else ParseNat(s)
  }

  /** An optional minus sign in front of a string of digits. */
  lemma SignedLong(d: string, neg: bool, v: int)
    requires d != [] && AllDigits(d) && ParseNat(d) == v
    ensures var s := (if neg then "-" else "") + d;
      IsLongShape(s) && ParseLong(s) == (if neg then -v else v)
  {
    var s := (if neg then "-" else "") + d;
    assert IsDigit(d[0]);
    assert (if s[0] == '-' then s[1..] else s) == d;
  }

  /** `LongText` is injective: it can be read back. */
  lemma LongTextRoundTrip(n: int)
    ensures IsLongShape(LongText(n))
    ensures ParseLong(LongText(n)) == n
  {
    var a := if n < 0 then -n else n;
    ParseNatText(a);
    SignedLong(NatText(a), n < 0, a);
    assert LongText(n) == (if n < 0 then "-" else "") + NatText(a);
  }

  /** The shape `Money2` produces: an optional minus sign, digits, a point, two digits. */
  predicate IsMoneyShape(s: string) {
    var b := if s != [] && s[0] == '-' then s[1..] else s;
    |b| >= 4 && AllDigits(b[..|b| - 3]) && b[|b| - 3] == '.' && AllDigits(b[|b| - 2..])
  }

  /** Reads an amount rendered by `Money2` back into cents. */
  function ParseMoney2(s: string): int
    requires IsMoneyShape(s)
  {
    var b := if s[0] == '-' then s[1..] else s;
    var v := 100 * ParseNat(b[..|b| - 3]) + ParseNat(b[|b| - 2..]);
    if s[0] == '-' then -v else v
  }

  lemma ParseTwoDigits(x: nat, y: nat)
    requires x < 10 && y < 10
    ensures ParseNat([DigitChar(x), DigitChar(y)]) == 10 * x + y
  {
    var t := [DigitChar(x), DigitChar(y)];
    var u := t[..1];
    assert u == [DigitChar(x)] && u[..0] == [];
    assert ParseNat(u) == DigitValue(DigitChar(x)) == x;
    assert ParseNat(t) == 10 * ParseNat(u) + DigitValue(DigitChar(y));
  }

  lemma ParseUnsignedMoney(whole: nat, frac: nat)
    requires frac < 100
    ensures var b := NatText(whole) + "." + [DigitChar(frac / 10), DigitChar(frac % 10)];
      |b| >= 4 && b[..|b| - 3] == NatText(whole) && b[|b| - 3] == '.'
      && b[|b| - 2..] == [DigitChar(frac / 10), DigitChar(frac % 10)]
  {
  }

  /** The unsigned part of a rendered amount reads back as the amount. */
  lemma UnsignedMoneyRoundTrip(a: nat)
    ensures var b := UnsignedMoney(a);
      && |b| >= 4 && IsDigit(b[0])
      && AllDigits(b[..|b| - 3]) && b[|b| - 3] == '.' && AllDigits(b[|b| - 2..])
      && 100 * ParseNat(b[..|b| - 3]) + ParseNat(b[|b| - 2..]) == a
  {
    var f := a % 100;
    assert a % 100 / 10 == f / 10 && a % 10 == f % 10;
    ParseUnsignedMoney(a / 100, f);
    ParseNatText(a / 100);
    ParseTwoDigits(f / 10, f % 10);
  }

  /** An optional minus sign in front of an unsigned amount. */
  lemma SignedMoney(b: string, neg: bool, v: int)
    requires |b| >= 4 && IsDigit(b[0])
    requires AllDigits(b[..|b| - 3]) && b[|b| - 3] == '.' && AllDigits(b[|b| - 2..])
    requires 100 * ParseNat(b[..|b| - 3]) + ParseNat(b[|b| - 2..]) == v
    ensures var s := (if neg then "-" else "") + b;
      IsMoneyShape(s) && ParseMoney2(s) == (if neg then -v else v)
  {
    var s := (if neg then "-" else "") + b;
    assert (if s[0] == '-' then s[1..] else s) == b;
  }

  /** `Money2` loses nothing: the cents can be read back from the text. */
  lemma Money2RoundTrip(cents: int)
    ensures IsMoneyShape(Money2(cents))
    ensures ParseMoney2(Money2(cents)) == cents
  {
    var a := if cents < 0 then -cents else cents;
    UnsignedMoneyRoundTrip(a);
    SignedMoney(UnsignedMoney(a), cents < 0, a);
  }

  /** A rendered count is one word: non-empty and free of `\s`. */
  lemma LongTextIsWord(n: int)
    ensures IsWord(LongText(n))
  {
  }

  /** A rendered amount is one word: non-empty and free of `\s`. */
  lemma Money2IsWord(cents: int)
    ensures IsWord(Money2(cents))
  {
  }
}
