/** Texts ordered by length and then by their characters. */
module TextOrder {
  import opened Numerals

  /** The order of texts of one length. */
  predicate Precedes(s: string, t: string) {
    s != "" && t != "" && (s[0] < t[0] || (s[0] == t[0] && Precedes(s[1..], t[1..])))
  }

  predicate Below(s: string, t: string) {
    |s| < |t| || (|s| == |t| && Precedes(s, t))
  }

  predicate AtMost(s: string, t: string) {
    s == t || Below(s, t)
  }

  lemma {:induction false} NotBelowItself(s: string)
    ensures !Below(s, s)
  {
    if s != "" { NotBelowItself(s[1..]); }
  }

  lemma {:induction false} BelowTransitive(a: string, b: string, c: string)
    requires Below(a, b) && Below(b, c)
    ensures Below(a, c)
    decreases |a|
  {
    if |a| == |c| && a[0] == b[0] == c[0] { BelowTransitive(a[1..], b[1..], c[1..]); }
  }

  /** The beginnings of two texts decide, if they are of one length. */
  lemma {:induction false} BelowAppend(a: string, b: string, c: string, d: string)
    requires Below(a, b) && |c| <= |d|
    ensures Below(a + c, b + d)
    decreases |a|
  {
    if |a| == |b| && |c| == |d| {
      assert (a + c)[1..] == a[1..] + c && (b + d)[1..] == b[1..] + d;
      if a[0] == b[0] { BelowAppend(a[1..], b[1..], c, d); }
    }
  }

  lemma {:induction false} BelowPrepend(a: string, c: string, d: string)
    requires Below(c, d)
    ensures Below(a + c, a + d)
  {
    if a == "" {
      assert a + c == c && a + d == d;
    } else {
      assert (a + c)[1..] == a[1..] + c && (a + d)[1..] == a[1..] + d;
      BelowPrepend(a[1..], c, d);
    }
  }

  /** Texts in a row are in order if their parts are, and strictly if one part is. */
  lemma ConcatAtMost(a: string, b: string, c: string, d: string)
    requires AtMost(a, b) && AtMost(c, d)
    ensures AtMost(a + c, b + d)
    ensures Below(a, b) || Below(c, d) ==> Below(a + c, b + d)
  {
    hide Precedes;
    if Below(a, b) {
      BelowAppend(a, b, c, d);
    } else if Below(c, d) {
      BelowPrepend(a, c, d);
    }
  }

  lemma AtMostTransitive(a: string, b: string, c: string)
    requires AtMost(a, b) && AtMost(b, c)
    ensures AtMost(a, c)
    ensures Below(a, b) || Below(b, c) ==> Below(a, c)
  {
    hide Below;
    if a != b && b != c { BelowTransitive(a, b, c); }
  }

  // ---------- numerals ----------

  lemma {:induction false} NumeralIncreases(m: nat, n: nat)
    requires m < n
    ensures Below(Numeral(m), Numeral(n))
    decreases n
  {
    if m >= 10 {
      var last, last' := [Digit(m % 10)], [Digit(n % 10)];
      if m / 10 < n / 10 {
        NumeralIncreases(m / 10, n / 10);
        BelowAppend(Numeral(m / 10), Numeral(n / 10), last, last');
      } else {
        assert m % 10 < n % 10;
        BelowPrepend(Numeral(m / 10), last, last');
      }
    }
  }

  /** The numeral of a sum is shorter than, or as long as and before, the two numerals in a row. */
  lemma SumBelow(a: nat, b: nat)
    ensures Below(Numeral(a + b), Numeral(a) + Numeral(b))
  {
    if a > 0 {
      var width := |Numeral(b)|;
      NumeralLength(b, width);
      PaddedIsNumeral(b, width);
      assert Zeros(0) + Numeral(b) == Numeral(b);
      NumeralSplit(a, b, width);
      TimesPower(a, width);
      hide Numeral, Below;
      NumeralIncreases(a + b, a * Power(10, width) + b);
    }
  }

  lemma TimesPower(a: nat, width: nat)
    requires a > 0 && width > 0
    ensures a * Power(10, width) > a
  {
    assert Power(10, width) == 10 * Power(10, width - 1);
    TimesAtLeast(a, Power(10, width));
  }

  lemma {:induction false} TimesAtLeast(a: nat, x: nat)
    requires x >= 2
    ensures a * x >= 2 * a
  {
    if x > 2 {
      TimesAtLeast(a, x - 1);
      assert a * x == a * (x - 1) + a;
    }
  }
}
