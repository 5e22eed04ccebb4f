/** Minimum, maximum, powers and the decimal numerals of natural numbers. */
module Numerals {
  function Power(b: nat, n: nat): (p: nat)
    ensures b > 0 ==> p > 0
  {
    if n == 0 then 1 else b * Power(b, n - 1)
  }

  function Min(a: int, b: int): int {
    if a <= b then a else b
  }

  function Max(a: int, b: int): int {
    if a <= b then b else a
  }

  function Digit(d: nat): char
    requires d < 10
  {
    '0' + d as char
  }

  /** The numeral without leading zeros. */
  function Numeral(n: nat): (s: string)
    ensures s != ""
  {
    if n < 10 then [Digit(n)] else Numeral(n / 10) + [Digit(n % 10)]
  }

  /** The last `width` digits. */
  function Padded(n: nat, width: nat): (s: string)
    ensures |s| == width
  {
    if width == 0 then "" else Padded(n / 10, width - 1) + [Digit(n % 10)]
  }

  function Zeros(count: nat): string {
    seq(count, _ => '0')
  }

  predicate IsNumeral(s: string) {
    forall i :: 0 <= i < |s| ==> '0' <= s[i] <= '9'
  }

  /** What a string of digits stands for. */
  function Amount(s: string): int {
    if s == "" then 0 else 10 * Amount(s[..|s| - 1]) + (s[|s| - 1] as int - '0' as int)
  }

  lemma {:induction false} NumeralMeaning(n: nat)
    ensures IsNumeral(Numeral(n)) && Amount(Numeral(n)) == n
    ensures Numeral(n)[0] == '0' <==> n == 0
  {
    if n >= 10 {
      NumeralMeaning(n / 10);
      var s, last := Numeral(n / 10), Digit(n % 10);
      assert (s + [last])[..|s|] == s;
    } else {
      assert [Digit(n)][..0] == "";
    }
  }

  /** A nonzero number followed by exactly `width` further digits. */
  lemma {:induction false} NumeralSplit(high: nat, low: nat, width: nat)
    requires high > 0 && low < Power(10, width)
    ensures Numeral(high * Power(10, width) + low) == Numeral(high) + Padded(low, width)
  {
    if width == 0 {
      assert Numeral(high) + "" == Numeral(high);
    } else {
      var p := Power(10, width - 1);
      var n := high * Power(10, width) + low;
      assert high * (10 * p) == 10 * (high * p);
      assert n == 10 * (high * p + low / 10) + low % 10;
      assert high * p >= 1;
      assert n / 10 == high * p + low / 10 && n % 10 == low % 10;
      NumeralSplit(high, low / 10, width - 1);
    }
  }

  lemma {:induction false} PaddedIsNumeral(n: nat, width: nat)
    requires width > 0 && n < Power(10, width)
    ensures |Numeral(n)| <= width && Padded(n, width) == Zeros(width - |Numeral(n)|) + Numeral(n)
  {
    if width == 1 {
      assert Power(10, 1) == 10 * Power(10, 0);
      assert Padded(n, 1) == Padded(n / 10, 0) + [Digit(n)];
      assert Zeros(0) == "";
    } else {
      assert n / 10 < Power(10, width - 1);
      PaddedIsNumeral(n / 10, width - 1);
      if n < 10 {
        assert Zeros(width - 2) + [Digit(0)] == Zeros(width - 1);
      }
    }
  }

  /** A numeral has the digits that the size of its number demands. */
  lemma {:induction false} NumeralLength(n: nat, width: nat)
    ensures |Numeral(n)| > width <==> n >= Power(10, width) || width == 0
  {
    if width > 0 {
      if n >= 10 {
        NumeralLength(n / 10, width - 1);
        assert Power(10, width) == 10 * Power(10, width - 1);
      } else {
        assert Power(10, width) == 10 * Power(10, width - 1) >= 10;
      }
    }
  }

  lemma {:induction false} PaddedZero(width: nat)
    ensures Padded(0, width) == Zeros(width)
  {
    if width > 0 {
      PaddedZero(width - 1);
      assert Zeros(width - 1) + ['0'] == Zeros(width);
    }
  }
}
