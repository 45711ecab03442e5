/** Python's `str()` of an integer (decimal digits, a leading `-` when negative)
    and the matching parser, with the length facts the validators rely on. */
module Text {
  import opened Wrappers

  function Pow10(k: nat): (p: nat)
    ensures p >= 1
  {
    if k == 0 then 1 else 10 * Pow10(k - 1)
  }

  predicate IsDigit(c: char) {
    '0' <= c <= '9'
  }

  predicate AllDigits(s: string) {
    forall i :: 0 <= i < |s| ==> IsDigit(s[i])
  }

  function DigitChar(d: nat): (c: char)
    requires d < 10
    ensures IsDigit(c)
  {
    ('0' as int + d) as char
  }

  function DigitValue(c: char): (d: nat)
    requires IsDigit(c)
    ensures d < 10
  {
    c as int - '0' as int
  }

  /** The decimal digits of `n`, most significant first, without leading zeros. */
  function NatToDecimal(n: nat): (s: string)
    ensures |s| >= 1 && AllDigits(s)
    ensures |s| > 1 ==> s[0] != '0'
  {
    if n < 10 then [DigitChar(n)] else NatToDecimal(n / 10) + [DigitChar(n % 10)]
  }

  /** `str(v)` for a Python `int`. */
  function DecimalString(v: int): (s: string)
    ensures |s| == |NatToDecimal(if v < 0 then -v else v)| + (if v < 0 then 1 else 0)
    ensures v >= 0 ==> AllDigits(s)
    ensures v < 0 ==> s[0] == '-' && AllDigits(s[1..])
  {
    if v < 0 then "-" + NatToDecimal(-v) else NatToDecimal(v)
  }

  /** The value of a non-empty string of decimal digits. */
  function ParseNat(s: string): nat
    requires |s| >= 1 && AllDigits(s)
  {
    if |s| == 1 then DigitValue(s[0])
    else 10 * ParseNat(s[..|s| - 1]) + DigitValue(s[|s| - 1])
  }

  /** `int(s)` restricted to an optional `-` followed by decimal digits. */
  function ParseInt(s: string): Option<int>
  {
    if |s| >= 2 && s[0] == '-' && AllDigits(s[1..]) then Some(-(ParseNat(s[1..]) as int))
    else if |s| >= 1 && AllDigits(s) then Some(ParseNat(s))
    else None
  }

  lemma {:induction false} ParseNatRoundTrip(n: nat)
    ensures ParseNat(NatToDecimal(n)) == n
  {
    if n >= 10 {
      var s := NatToDecimal(n);
      assert s[..|s| - 1] == NatToDecimal(n / 10);
      ParseNatRoundTrip(n / 10);
      assert DigitValue(s[|s| - 1]) == n % 10;
    }
  }

  /** Parsing what `str` printed gives the integer back. */
  lemma ParseIntRoundTrip(v: int)
    ensures ParseInt(DecimalString(v)) == Some(v)
  {
    var s := DecimalString(v);
    if v < 0 {
      assert s[1..] == NatToDecimal(-v);
      ParseNatRoundTrip(-v);
    } else {
      ParseNatRoundTrip(v);
    }
  }

  /** `str(v)` is injective. */
  lemma DecimalStringInjective(v: int, w: int)
    ensures DecimalString(v) == DecimalString(w) ==> v == w
  {
    ParseIntRoundTrip(v);
    ParseIntRoundTrip(w);
  }

  /** A natural number has at most `k` digits exactly when it is below 10^k. */
  lemma {:induction false} DecimalLengthBound(n: nat, k: nat)
    requires k >= 1
    ensures |NatToDecimal(n)| <= k <==> n < Pow10(k)
  {
    if n >= 10 {
      if k == 1 {
        assert Pow10(1) == 10;
      } else {
        DecimalLengthBound(n / 10, k - 1);
        assert n / 10 < Pow10(k - 1) <==> n < 10 * Pow10(k - 1);
      }
    } else {
      Pow10AtLeast10(k);
    }
  }

  lemma {:induction false} Pow10AtLeast10(k: nat)
    requires k >= 1
    ensures Pow10(k) >= 10
  {
    if k > 1 {
      Pow10AtLeast10(k - 1);
    }
  }

  /** A natural number has exactly `k` digits exactly when 10^(k-1) <= n < 10^k
      (with 0 counted as the one-digit number "0"). */
  lemma DecimalLengthExact(n: nat, k: nat)
    requires k >= 1
    ensures |NatToDecimal(n)| == k <==> (k == 1 || Pow10(k - 1) <= n) && n < Pow10(k)
  {
    DecimalLengthBound(n, k);
    if k > 1 {
      DecimalLengthBound(n, k - 1);
    }
  }
}
