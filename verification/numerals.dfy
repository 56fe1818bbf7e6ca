/** Decimal rendering of integers, as Go's `fmt.Sprintf("%d", k)` produces it,
    together with the parser that undoes it. */
module Numerals {

  predicate IsDigit(c: char) {
    '0' <= c <= '9'
  }

  function DigitChar(d: nat): (c: char)
    requires d < 10
    ensures IsDigit(c)
  {
    ('0' as int + d) as char
  }

  function DigitValue(c: char): nat {
    if IsDigit(c) then c as int - '0' as int else 0
  }

  /** The decimal digits of `n`, most significant first, without leading zeros. */
  function Digits(n: nat): (s: string)
    ensures |s| > 0
    ensures forall i :: 0 <= i < |s| ==> IsDigit(s[i])
    decreases n
  {
    if n < 10 then [DigitChar(n)] else Digits(n / 10) + [DigitChar(n % 10)]
  }

  /** `fmt.Sprintf("%d", k)`: a minus sign for negative values, then the digits
      of the magnitude. */
  function Decimal(k: int): (s: string)
    ensures |s| > 0
    ensures s[0] == '-' <==> k < 0
  {
    if k < 0 then "-" + Digits(-k) else Digits(k)
  }

  /** Reads a run of decimal digits, most significant first. */
  function ParseDigits(s: string): nat
    decreases |s|
  {
    if |s| == 0 then 0 else ParseDigits(s[..|s| - 1]) * 10 + DigitValue(s[|s| - 1])
  }

  /** Reads an optionally negative decimal numeral. */
  function ParseDecimal(s: string): int {
    if |s| > 0 && s[0] == '-' then -(ParseDigits(s[1..]) as int) else ParseDigits(s)
  }

  lemma {:induction false} DigitsRoundTrip(n: nat)
    ensures ParseDigits(Digits(n)) == n
    decreases n
  {
    if n >= 10 {
      DigitsRoundTrip(n / 10);
      var s := Digits(n);
      assert s[..|s| - 1] == Digits(n / 10);
    }
  }

  /** Parsing undoes rendering. */
  lemma DecimalRoundTrip(k: int)
    ensures ParseDecimal(Decimal(k)) == k
  {
    if k < 0 {
      DigitsRoundTrip(-k);
      assert Decimal(k)[1..] == Digits(-k);
    } else {
      DigitsRoundTrip(k);
    }
  }

  /** Distinct integers render to distinct strings. */
  lemma DecimalInjective()
    ensures forall a, b :: Decimal(a) == Decimal(b) ==> a == b
  {
    forall a, b | Decimal(a) == Decimal(b)
      ensures a == b
    {
      DecimalRoundTrip(a);
      DecimalRoundTrip(b);
    }
  }

  /** Rendering a set of integers yields as many distinct strings as there are
      integers. */
  lemma {:induction false} DecimalImageSize(ks: set<int>)
    ensures |set k | k in ks :: Decimal(k)| == |ks|
    decreases |ks|
  {
    if |ks| > 0 {
      var none: set<int> := {};
      assert (forall y :: y !in ks) ==> ks == none;
      var x :| x in ks;
      var rest := ks - {x};
      DecimalImageSize(rest);
      var image := set k | k in ks :: Decimal(k);
      var restImage := set k | k in rest :: Decimal(k);
      assert image == restImage + {Decimal(x)};
      assert Decimal(x) !in restImage by {
        DecimalInjective();
      }
    }
  }
}
