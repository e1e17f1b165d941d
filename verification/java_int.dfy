/**
 Java's `Integer.parseInt` on decimal text, which the load tester applies to the
 values of its numeric options: an optional sign followed by at least one digit,
 whose value must fit a signed 32-bit int. Anything else is a
 NumberFormatException, modelled as `None`.
 */
module JavaInt {
  import opened FlightTypes

  const MinInt: int := -0x8000_0000
  const MaxInt: int := 0x7fff_ffff

  predicate InRange(n: int) {
    MinInt <= n <= MaxInt
  }

  predicate IsDigit(c: char) {
    '0' <= c <= '9'
  }

  predicate AllDigits(s: string) {
    forall i :: 0 <= i < |s| ==> IsDigit(s[i])
  }

  /** The value of a run of decimal digits, most significant first. */
  function DigitsValue(s: string): nat
    requires AllDigits(s)
  {
    if |s| == 0 then 0
    else DigitsValue(s[..|s| - 1]) * 10 + (s[|s| - 1] as int - '0' as int)
  }

  /** The integer a decimal string denotes, or `None` where Java throws. */
  function ParseInt(s: string): (r: Option<int>)
    ensures r.Some? ==> InRange(r.value)
    ensures r.Some? ==> |s| > 0 && forall i :: 0 < i < |s| ==> IsDigit(s[i])
    ensures r.Some? && s[0] != '-' && s[0] != '+' ==> IsDigit(s[0])
    ensures r.Some? && s[0] == '-' ==> r.value <= 0
    ensures r.Some? && s[0] != '-' ==> r.value >= 0
    ensures s == "" || s == "-" || s == "+" ==> r.None?
  {
    if |s| == 0 then None
    else
      var signed := s[0] == '-' || s[0] == '+';
      var digits := if signed then s[1..] else s;
      if |digits| == 0 || !AllDigits(digits) then None
      else
        assert forall i :: 0 < i < |s| ==> s[i] == (if signed then digits[i - 1] else digits[i]);
        var magnitude: int := DigitsValue(digits);
        var v := if s[0] == '-' then -magnitude else magnitude;
        if InRange(v) then Some(v) else None
  }

  /** The decimal text of a natural number, without leading zeros. */
  function Digits(n: nat): string
  {
    var last := ['0' + (n % 10) as char];
    if n < 10 then last else Digits(n / 10) + last
  }

  /** Decimal text of any integer, with a minus sign for negatives. */
  function Decimal(n: int): string
  {
    if n < 0 then "-" + Digits(-n) else Digits(n)
  }

  lemma {:induction false} DigitsDenoteTheirValue(n: nat)
    ensures |Digits(n)| > 0 && AllDigits(Digits(n))
    ensures DigitsValue(Digits(n)) == n
  {
    var d := Digits(n);
    if n >= 10 {
      DigitsDenoteTheirValue(n / 10);
      assert d[..|d| - 1] == Digits(n / 10);
    }
  }

  /**
   Every optional sign followed by a non-empty run of digits is accepted when
   its value fits 32 bits, and gives that value: a "+" sign and leading zeros
   are allowed, and "-0" is zero.
   */
  lemma ParseIntAcceptsSignedDigits(sign: string, d: string)
    requires sign in {"", "+", "-"} && |d| > 0 && AllDigits(d)
    ensures var m: int := DigitsValue(d);
            var v := if sign == "-" then -m else m;
            ParseInt(sign + d) == if InRange(v) then Some(v) else None
  {
    if sign != "" {
      assert (sign + d)[1..] == d;
    } else {
      assert sign + d == d;
    }
  }

  /** A leading zero does not change the value of a run of digits. */
  lemma {:induction false} LeadingZeroIgnored(d: string)
    requires AllDigits(d)
    ensures AllDigits("0" + d) && DigitsValue("0" + d) == DigitsValue(d)
  {
    var z := "0" + d;
    if |d| > 0 {
      assert z[..|z| - 1] == "0" + d[..|d| - 1];
      LeadingZeroIgnored(d[..|d| - 1]);
    } else {
      assert DigitsValue(z) == DigitsValue(z[..0]) * 10 + 0;
    }
  }

  /**
   Parsing the decimal text of an integer gives that integer back when it fits
   in 32 bits, and a parse error (not a wrapped value) when it does not.
   */
  lemma ParseIntRoundTrip(n: int)
    ensures ParseInt(Decimal(n)) == if InRange(n) then Some(n) else None
  {
    if n < 0 {
      DigitsDenoteTheirValue(-n);
      assert ("-" + Digits(-n))[1..] == Digits(-n);
    } else {
      DigitsDenoteTheirValue(n);
    }
  }
}
