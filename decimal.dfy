/** Decimal numerals as the handlers print them: Python's str(n), the
    zero-filled format(n, "03d") and the fixed-width fields of strftime. */
module Decimal {

  predicate IsDigit(c: char) {
    '0' <= c <= '9'
  }

  predicate AllDigits(s: string) {
    forall i :: 0 <= i < |s| ==> IsDigit(s[i])
  }

  function DigitValue(c: char): nat
    requires IsDigit(c)
  {
    c as int - '0' as int
  }

  function DigitChar(d: nat): (c: char)
    requires d < 10
    ensures IsDigit(c) && DigitValue(c) == d
  {
    ('0' as int + d) as char
  }

  function Pow10(w: nat): (p: nat)
    ensures p >= 1
  {
    if w == 0 then 1 else 10 * Pow10(w - 1)
  }

  /** The numeral of n without leading zeros. */
  function Digits(n: nat): (s: string)
    ensures 1 <= |s| && AllDigits(s)
  {
    if n < 10 then [DigitChar(n)] else Digits(n / 10) + [DigitChar(n % 10)]
  }

  function Zeros(k: nat): (s: string)
    ensures |s| == k && AllDigits(s)
  {
    if k == 0 then "" else "0" + Zeros(k - 1)
  }

  /** The numeral of n left-filled with zeros to at least w characters. */
  function ZeroPad(n: nat, w: nat): (s: string)
    ensures AllDigits(s) && |s| >= w && |s| >= |Digits(n)|
  {
    var d := Digits(n);
    if |d| < w then Zeros(w - |d|) + d else d
  }

  /** The number a string of digits denotes (leading zeros allowed). */
  function ValueOf(s: string): nat
    requires AllDigits(s)
  {
    if s == [] then 0 else 10 * ValueOf(s[..|s| - 1]) + DigitValue(s[|s| - 1])
  }

  lemma {:induction false} ValueOfDigits(n: nat)
    ensures ValueOf(Digits(n)) == n
  {
    if n >= 10 {
      var s := Digits(n);
      assert s[..|s| - 1] == Digits(n / 10);
      ValueOfDigits(n / 10);
    }
  }

  lemma {:induction false} ValueOfLeadingZero(s: string)
    requires AllDigits(s)
    ensures ValueOf("0" + s) == ValueOf(s)
  {
    if s != [] {
      assert ("0" + s)[..|s|] == "0" + s[..|s| - 1];
      ValueOfLeadingZero(s[..|s| - 1]);
    }
  }

  lemma {:induction false} ValueOfZerosPrefix(k: nat, s: string)
    requires AllDigits(s)
    ensures ValueOf(Zeros(k) + s) == ValueOf(s)
  {
    if k == 0 {
      assert Zeros(k) + s == s;
    } else {
      assert Zeros(k) + s == "0" + (Zeros(k - 1) + s);
      ValueOfZerosPrefix(k - 1, s);
      ValueOfLeadingZero(Zeros(k - 1) + s);
    }
  }

  /** Zero-filling never changes the number a numeral denotes. */
  lemma ValueOfZeroPad(n: nat, w: nat)
    ensures ValueOf(ZeroPad(n, w)) == n
  {
    var d := Digits(n);
    ValueOfDigits(n);
    if |d| < w {
      assert ZeroPad(n, w) == Zeros(w - |d|) + d;
      ValueOfZerosPrefix(w - |d|, d);
    } else {
      assert ZeroPad(n, w) == d;
    }
  }

  lemma {:induction false} DigitsFit(n: nat, w: nat)
    requires 1 <= w && n < Pow10(w)
    ensures |Digits(n)| <= w
  {
    if n >= 10 {
      assert w >= 2;
      assert n / 10 < Pow10(w - 1);
      DigitsFit(n / 10, w - 1);
    }
  }

  /** A number below 10^w fills a w-wide zero-padded field exactly. */
  lemma ZeroPadWidth(n: nat, w: nat)
    requires 1 <= w && n < Pow10(w)
    ensures |ZeroPad(n, w)| == w
  {
    DigitsFit(n, w);
  }

  /** Zero-padding to a common width is injective. */
  lemma ZeroPadInjective(m: nat, n: nat, w: nat)
    requires ZeroPad(m, w) == ZeroPad(n, w)
    ensures m == n
  {
    ValueOfZeroPad(m, w);
    ValueOfZeroPad(n, w);
  }

  /** The zero-filled fields of the seeded certificate numbers
      CERT-2025-001 and CERT-2025-002. */
  lemma SeedNumerals()
    ensures ZeroPad(2025, 4) == "2025" && ZeroPad(1, 3) == "001" && ZeroPad(2, 3) == "002"
  {
    assert Digits(2025) == Digits(202) + ['5'];
    assert Digits(202) == Digits(20) + ['2'];
    assert Digits(20) == Digits(2) + ['0'];
  }
}
