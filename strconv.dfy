/**
  Decimal rendering of integers as Go's `strconv.Itoa` produces it (and as
  `fmt.Sprintf` renders an integer under the `%d` verb): an optional `-` for
  negative values, then the digits of the magnitude with no leading zeros,
  and `"0"` for zero.  Go's `int` is 32 or 64 bits wide, depending on the
  platform, but rendering involves no arithmetic on the value, so unbounded
  `int` loses nothing here.

  `ParseInt` is a strict decimal parser that accepts exactly the strings
  `IntToDecimal` can produce; the two lemmas at the end show that the pair is
  a bijection between `int` and canonical decimal strings.
*/
module Strconv {
  import opened Wrappers

  predicate IsDigit(c: char) {
    '0' <= c <= '9'
  }

  predicate AllDigits(s: string) {
    forall i | 0 <= i < |s| :: IsDigit(s[i])
  }

  /** A non-empty run of digits without a leading zero, or "0" itself. */
  predicate IsCanonicalNat(s: string) {
    |s| > 0 && AllDigits(s) && (s[0] == '0' ==> |s| == 1)
  }

  function DigitValue(c: char): (d: nat)
    requires IsDigit(c)
    ensures d < 10
  {
    c as int - '0' as int
  }

  function DigitChar(d: nat): (c: char)
    requires d < 10
    ensures IsDigit(c) && DigitValue(c) == d
    ensures (c == '0') == (d == 0)
  {
    ('0' as int + d) as char
  }

  /** The digits of `n`, most significant first. */
  function NatToDecimal(n: nat): (s: string)
    ensures IsCanonicalNat(s)
    ensures (s == "0") == (n == 0)
    decreases n
  {
    if n < 10 then [DigitChar(n)] else NatToDecimal(n / 10) + [DigitChar(n % 10)]
  }

  /** `strconv.Itoa`. */
  function IntToDecimal(i: int): (s: string)
    ensures |s| > 0
    ensures (s[0] == '-') == (i < 0)
    ensures i < 0 ==> IsCanonicalNat(s[1..]) && s[1..] != "0"
    ensures i >= 0 ==> IsCanonicalNat(s)
  {
    if i < 0 then "-" + NatToDecimal(-i) else NatToDecimal(i)
  }

  /** No character of a rendered integer is anything but a digit or `-`. */
  lemma IntToDecimalChars(i: int, k: nat)
    requires k < |IntToDecimal(i)|
    ensures IsDigit(IntToDecimal(i)[k]) || (k == 0 && IntToDecimal(i)[k] == '-')
  {
  }

  /** The value of a run of digits, read most significant first. */
  function DigitsValue(s: string): nat
    requires AllDigits(s)
  {
    if s == [] then 0 else 10 * DigitsValue(s[..|s| - 1]) + DigitValue(s[|s| - 1])
  }

  /** Strict parse: `Some` exactly for the canonical renderings. */
  function ParseInt(s: string): (r: Option<int>)
    ensures r.Some? ==> |s| > 0
  {
    if |s| > 0 && s[0] == '-' then
      if IsCanonicalNat(s[1..]) && s[1..] != "0" then Some(-(DigitsValue(s[1..]) as int)) else None
    else if IsCanonicalNat(s) then Some(DigitsValue(s))
    else None
  }

  lemma {:induction false} DigitsValueOfNatToDecimal(n: nat)
    ensures DigitsValue(NatToDecimal(n)) == n
    decreases n
  {
    if n >= 10 {
      var s := NatToDecimal(n);
      assert s[..|s| - 1] == NatToDecimal(n / 10);
      DigitsValueOfNatToDecimal(n / 10);
    }
  }

  lemma {:induction false} DigitsValuePositive(s: string)
    requires |s| > 0 && AllDigits(s) && s[0] != '0'
    ensures DigitsValue(s) > 0
  {
    if |s| > 1 {
      DigitsValuePositive(s[..|s| - 1]);
    }
  }

  lemma {:induction false} NatToDecimalOfDigitsValue(s: string)
    requires IsCanonicalNat(s)
    ensures NatToDecimal(DigitsValue(s)) == s
  {
    if |s| > 1 {
      var front := s[..|s| - 1];
      DigitsValuePositive(front);
      NatToDecimalOfDigitsValue(front);
      var v := DigitsValue(s);
      assert v / 10 == DigitsValue(front) && v % 10 == DigitValue(s[|s| - 1]);
      assert s == front + [s[|s| - 1]];
    }
  }

  /** Parsing a rendered integer gives the integer back. */
  lemma ParseIntToDecimal(i: int)
    ensures ParseInt(IntToDecimal(i)) == Some(i)
  {
    var s := IntToDecimal(i);
    if i < 0 {
      assert s[1..] == NatToDecimal(-i);
      DigitsValueOfNatToDecimal(-i);
    } else {
      DigitsValueOfNatToDecimal(i);
    }
  }

  /** Whatever `ParseInt` accepts is the rendering of what it returns. */
  lemma ToDecimalOfParseInt(s: string, i: int)
    requires ParseInt(s) == Some(i)
    ensures IntToDecimal(i) == s
  {
    if s[0] == '-' {
      NatToDecimalOfDigitsValue(s[1..]);
      DigitsValuePositive(s[1..]);
      assert s == "-" + s[1..];
    } else {
      NatToDecimalOfDigitsValue(s);
    }
  }
}
