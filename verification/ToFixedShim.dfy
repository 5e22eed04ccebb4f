/** From a double to its text with a fixed number of decimals. The numeral printed is that of the
    integer nearest to the scaled value, ties going to the larger one. */
module ToFixedShim {
  import opened Numerals
  import opened Outcomes
  import opened ToFixed

  const TEN_TO_21 := 1_000_000_000_000_000_000_000.0

  datatype Double = NaN | Infinity(negative: bool) | Finite(negative: bool, mantissa: nat, exponent: int)

  /** Finite doubles carry 53 significant bits, or fewer at the least exponent. */
  predicate IsDouble(x: Double) {
    x.Finite? ==>
      x.mantissa < DOUBLE_LIMIT && x.exponent >= -1074 && (x.mantissa >= DOUBLE_LIMIT / 2 || x.exponent == -1074)
  }

  /** Powers of two with any exponent. */
  function TwoTo(k: int): (r: real)
    ensures r > 0.0
    decreases if k < 0 then -k else k
  {
    if k == 0 then 1.0 else if k > 0 then 2.0 * TwoTo(k - 1) else TwoTo(k + 1) / 2.0
  }

  function Times(a: real, b: real): real {
    a * b
  }

  function Magnitude(x: Double): real
    requires x.Finite?
  {
    Times(x.mantissa as real, TwoTo(x.exponent))
  }

  // ---------- powers of two ----------

  lemma TwoToNext(k: int)
    ensures TwoTo(k + 1) == 2.0 * TwoTo(k)
  {
  }

  lemma {:induction false} TwoToSum(a: int, b: int)
    ensures TwoTo(a + b) == Times(TwoTo(a), TwoTo(b))
    decreases if b < 0 then -b else b
  {
    if b == 0 {
      assert TwoTo(0) == 1.0;
    } else {
      hide TwoTo, Times;
      if b > 0 {
        TwoToSum(a, b - 1);
        TwoToNext(a + b - 1);
        TwoToNext(b - 1);
        ProductOfDouble(TwoTo(a), TwoTo(b - 1));
      } else {
        TwoToSum(a, b + 1);
        TwoToNext(a + b);
        TwoToNext(b);
        ProductOfDouble(TwoTo(a), TwoTo(b));
      }
    }
  }

  lemma ProductOfDouble(a: real, b: real)
    ensures Times(a, 2.0 * b) == 2.0 * Times(a, b)
  {
  }

  lemma {:induction false} TwoToIsPower(k: nat)
    ensures TwoTo(k) == Power(2, k) as real
  {
    if k > 0 { TwoToIsPower(k - 1); }
  }

  lemma {:induction false} TwoToIncreases(a: int, b: int)
    requires a <= b
    ensures TwoTo(a) <= TwoTo(b)
    decreases b - a
  {
    if a < b {
      TwoToIncreases(a, b - 1);
      TwoToNext(b - 1);
    }
  }

  lemma ExponentUnique(x: real, a: int, b: int)
    requires TwoTo(a) <= x < TwoTo(a + 1) && TwoTo(b) <= x < TwoTo(b + 1)
    ensures a == b
  {
    if a < b { TwoToIncreases(a + 1, b); }
    if b < a { TwoToIncreases(b + 1, a); }
  }

  /** The binary logarithm rounded down, for numbers from one on. */
  method Log(x: real) returns (n: nat)
    ensures x >= 1.0 ==> TwoTo(n) <= x < TwoTo(n + 1)
    ensures x < 1.0 ==> n == 0
  {
    assert TwoTo(0) == 1.0 && Times(x, 1.0) == x;
    hide TwoTo, Times;
    n := 0;
    var x2 := x;
    while x2 >= 4096.0
      invariant Times(x2, TwoTo(n)) == x && (x >= 1.0 ==> x2 >= 1.0) && (x < 1.0 ==> n == 0 && x2 == x)
      decreases x2
    {
      Shift(x2, n, 12);
      n := n + 12;
      x2 := x2 / 4096.0;
    }
    while x2 >= 2.0
      invariant Times(x2, TwoTo(n)) == x && (x >= 1.0 ==> x2 >= 1.0) && (x < 1.0 ==> n == 0 && x2 == x)
      decreases x2
    {
      Shift(x2, n, 1);
      n := n + 1;
      x2 := x2 / 2.0;
    }
    TwoToNext(n);
    if x >= 1.0 { Between(x2, TwoTo(n)); }
  }

  lemma Between(x: real, p: real)
    requires 1.0 <= x < 2.0 && p > 0.0
    ensures p <= Times(x, p) < 2.0 * p
  {
  }

  lemma Shift(x: real, n: int, step: int)
    requires step == 1 || step == 12
    ensures Times(x / (if step == 1 then 2.0 else 4096.0), TwoTo(n + step)) == Times(x, TwoTo(n))
  {
    hide TwoTo, Times;
    TwoToSum(n, step);
    assert TwoTo(step) == if step == 1 then 2.0 else 4096.0 by { SmallPowers(); }
    Reassociate(x, if step == 1 then 2.0 else 4096.0, TwoTo(n));
  }

  lemma SmallPowers()
    ensures TwoTo(1) == 2.0 && TwoTo(12) == 4096.0
  {
    TwoToIsPower(1);
    TwoToIsPower(12);
    assert Power(2, 12) == 4096;
  }

  lemma Reassociate(x: real, d: real, p: real)
    requires d > 0.0
    ensures Times(x / d, Times(p, d)) == Times(x, p)
  {
    assert (x / d) * d == x;
    assert (x / d) * (p * d) == ((x / d) * d) * p;
  }

  // ---------- the shim ----------

  const LEAST := 1.0 / TEN_TO_21

  /** Numbers above 1e-21 but below 2^-69, for which the logarithm step of the code does not
      normalise. */
  predicate InGap(x: Double) {
    x.Finite? && LEAST < Magnitude(x) < TwoTo(-69)
  }

  predicate IsHuge(x: Double) {
    x.Infinity? || (x.Finite? && Magnitude(x) >= TEN_TO_21)
  }

  function Sign(x: Double): string {
    if x.Finite? && x.negative && x.mantissa > 0 then "-" else ""
  }

  /** The integer nearest to y, the larger one if two are. */
  function NearestLarger(y: real): int {
    (y + 0.5).Floor
  }

  function Distance(n: int, y: real): real {
    if n as real <= y then y - n as real else n as real - y
  }

  lemma NearestLargerMeaning(y: real, n: int)
    ensures Distance(NearestLarger(y), y) <= Distance(n, y)
    ensures Distance(n, y) <= Distance(NearestLarger(y), y) ==> n <= NearestLarger(y)
  {
    if n <= NearestLarger(y) - 1 { assert n as real <= NearestLarger(y) as real - 1.0; }
    if n >= NearestLarger(y) + 1 { assert n as real >= NearestLarger(y) as real + 1.0; }
  }

  /** The number whose nearest integer is printed. */
  function ScaledMagnitude(x: Double, f: nat): real
    requires x.Finite?
  {
    Times(Magnitude(x), Power(10, f) as real)
  }

  /** `text` is what the number prints as without formatting; `f` is the rounded-down argument. */
  method Format(h: Helpers, x: Double, f: int, text: string) returns (r: Result<string, string>)
    requires h.Valid() && IsDouble(x) && !InGap(x)
    modifies h.data
    ensures h.Valid()
    ensures r.Err? <==> f < 0 || f > 20
    ensures r.Err? ==> r.error == "Number.toFixed called with invalid number of decimals"
    ensures r.Ok? && x.NaN? ==> r.value == "NaN"
    ensures r.Ok? && IsHuge(x) ==> r.value == text
    ensures r.Ok? && x.Finite? && !IsHuge(x) ==>
              var n := NearestLarger(ScaledMagnitude(x, f)); n >= 0 && r.value == Sign(x) + FixedNumeral(n, f)
  {
    hide TwoTo, Times, Numeral, FixedNumeral, Power, Padded, NearestLarger;
    if f < 0 || f > 20 {
      return Err("Number.toFixed called with invalid number of decimals");
    }
    if x.NaN? { return Ok("NaN"); }
    if x.Infinity? || Magnitude(x) >= TEN_TO_21 { return Ok(text); }
    var s := Sign(x);
    var m := "0";
    ghost var n: nat := 0;
    if Magnitude(x) > LEAST {
      var k := Log(Times(Magnitude(x), Pow(2, 69, 1) as real));
      var e: int := k as int - 69;
      Normalised(x, k);
      var z := if e < 0 then Times(Magnitude(x), Pow(2, -e, 1) as real) else Magnitude(x) / Pow(2, e, 1) as real;
      z := Times(z, Pow(2, 52, 1) as real);
      Mantissa(x, e, z);
      e := 52 - e;
      m := Digits(h, z.Floor, e, f);
      n := Rounded(x.mantissa, e, f);
      RoundedIsNearest(x, f);
    } else {
      TinyRoundsToZero(x, f);
    }
    m := PlacePoint(s, m, f, n);
    return Ok(m);
  }

  lemma TinyRoundsToZero(x: Double, f: nat)
    requires x.Finite? && Magnitude(x) <= LEAST && f <= 20
    ensures NearestLarger(ScaledMagnitude(x, f)) == 0 && Numeral(0) == "0"
  {
    Capacity();
    PowerIncreases(10, f, 20);
    var p := Power(10, f) as real;
    assert 1.0 <= p <= 100_000_000_000_000_000_000.0;
    assert 0.0 <= Times(Magnitude(x), p) <= Times(LEAST, p) by {
      TimesMonotone(Magnitude(x), LEAST, p); MagnitudePositive(x); TimesMonotone(0.0, Magnitude(x), p);
    }
    assert Times(LEAST, p) <= 0.1 by { TimesMonotone(p, 100_000_000_000_000_000_000.0, LEAST); }
  }

  lemma MagnitudePositive(x: Double)
    requires x.Finite?
    ensures Magnitude(x) >= 0.0
  {
    TimesMonotone(0.0, x.mantissa as real, TwoTo(x.exponent));
  }

  lemma TimesMonotone(a: real, b: real, c: real)
    requires a <= b && c >= 0.0
    ensures Times(a, c) <= Times(b, c) && Times(0.0, c) == 0.0 && Times(a, c) == Times(c, a)
  {
    assert b * c == a * c + (b - a) * c;
  }

  // ---------- the binary exponent ----------

  lemma TimesAssociates(a: real, b: real, c: real)
    ensures Times(Times(a, b), c) == Times(a, Times(b, c))
  {
  }

  lemma Constants()
    ensures TwoTo(0) == 1.0 && TwoTo(70) > TEN_TO_21
    ensures TwoTo(52) == DOUBLE_LIMIT as real / 2.0 && TwoTo(53) == DOUBLE_LIMIT as real
  {
    Capacity();
    assert Power(2, 7) == 128 && Power(2, 12) == 0x1000 && Power(2, 1) == 2;
    PowerSum(2, 17, 23);
    PowerSum(2, 40, 12);
    PowerSum(2, 52, 1);
    PowerSum(2, 40, 23);
    PowerSum(2, 63, 7);
    TwoToIsPower(52);
    TwoToIsPower(53);
    TwoToIsPower(70);
  }

  lemma PowTwo(k: nat)
    ensures Pow(2, k, 1) as real == TwoTo(k)
  {
    PowIsPower(2, k, 1);
    TwoToIsPower(k);
  }

  lemma Below(mantissa: nat, exponent: int)
    requires mantissa < DOUBLE_LIMIT
    ensures Times(mantissa as real, TwoTo(exponent)) < TwoTo(exponent + 53)
  {
    Constants();
    TwoToSum(exponent, 53);
    hide TwoTo, Times;
    StrictlyMonotone(mantissa as real, TwoTo(53), TwoTo(exponent));
    TimesMonotone(TwoTo(53), TwoTo(53), TwoTo(exponent));
  }

  lemma AtLeast(mantissa: nat, exponent: int)
    requires mantissa >= DOUBLE_LIMIT / 2
    ensures Times(mantissa as real, TwoTo(exponent)) >= TwoTo(exponent + 52)
  {
    Constants();
    TwoToSum(exponent, 52);
    hide TwoTo, Times;
    TimesMonotone(TwoTo(52), mantissa as real, TwoTo(exponent));
  }

  lemma StrictlyMonotone(a: real, b: real, c: real)
    requires a < b && c > 0.0
    ensures Times(a, c) < Times(b, c)
  {
    assert b * c == a * c + (b - a) * c;
  }

  lemma ShiftedMagnitude(x: Double, k: int)
    requires x.Finite?
    ensures Times(Magnitude(x), TwoTo(k)) == Times(x.mantissa as real, TwoTo(x.exponent + k))
  {
    TwoToSum(x.exponent, k);
    hide TwoTo, Times;
    TimesAssociates(x.mantissa as real, TwoTo(x.exponent), TwoTo(k));
  }

  lemma ExponentRange(x: Double)
    requires IsDouble(x) && x.Finite? && !InGap(x) && LEAST < Magnitude(x) < TEN_TO_21
    ensures -121 <= x.exponent <= 17 && x.mantissa >= DOUBLE_LIMIT / 2
  {
    Below(x.mantissa, x.exponent);
    Constants();
    hide TwoTo, Times;
    if x.exponent < -121 { TwoToIncreases(x.exponent + 53, -69); }
    AtLeast(x.mantissa, x.exponent);
    if x.exponent > 17 { TwoToIncreases(70, x.exponent + 52); }
  }

  /** The logarithm step finds the exponent of the leading bit. */
  lemma Normalised(x: Double, k: int)
    requires IsDouble(x) && x.Finite? && !InGap(x) && LEAST < Magnitude(x) < TEN_TO_21
    requires var y := Times(Magnitude(x), Pow(2, 69, 1) as real); y >= 1.0 ==> TwoTo(k) <= y < TwoTo(k + 1)
    ensures -121 <= x.exponent <= 17 && x.mantissa >= DOUBLE_LIMIT / 2 && k - 69 == x.exponent + 52
  {
    hide Times, Pow;
    ExponentRange(x);
    PowTwo(69);
    ShiftedMagnitude(x, 69);
    Below(x.mantissa, x.exponent + 69);
    AtLeast(x.mantissa, x.exponent + 69);
    Constants();
    hide TwoTo;
    TwoToIncreases(0, x.exponent + 121);
    ExponentUnique(Times(Magnitude(x), TwoTo(69)), k, x.exponent + 121);
  }

  lemma DivideByTwoTo(y: real, k: int)
    ensures y / TwoTo(k) == Times(y, TwoTo(-k))
  {
    TwoToSum(k, -k);
    assert TwoTo(0) == 1.0;
    hide TwoTo;
    var p, q := TwoTo(k), TwoTo(-k);
    assert p * q == 1.0;
    assert (y * q) * p == y;
  }

  /** Scaling by the exponent leaves the mantissa. */
  lemma Mantissa(x: Double, e: int, z: real)
    requires x.Finite? && e == x.exponent + 52
    requires z == Times(if e < 0 then Times(Magnitude(x), Pow(2, -e, 1) as real)
                        else Magnitude(x) / Pow(2, e, 1) as real, Pow(2, 52, 1) as real)
    ensures z == x.mantissa as real
  {
    hide TwoTo, Times, Pow, Magnitude;
    PowTwo(52);
    if e < 0 {
      PowTwo(-e);
    } else {
      PowTwo(e);
      DivideByTwoTo(Magnitude(x), e);
    }
    Constants();
    TwoToSum(-e, 52);
    TimesAssociates(Magnitude(x), TwoTo(-e), TwoTo(52));
    ShiftedMagnitude(x, -e + 52);
    TimesOne(x.mantissa as real);
  }

  lemma TimesOne(a: real)
    ensures Times(a, 1.0) == a && Times(1.0, a) == a
  {
  }

  // ---------- rounding ----------

  lemma RoundedIsNearest(x: Double, f: nat)
    requires x.Finite?
    ensures NearestLarger(ScaledMagnitude(x, f)) == Rounded(x.mantissa, -x.exponent, f)
  {
    var v := Scaled(x.mantissa, f);
    ScaledMagnitudeIs(x, f);
    if x.exponent < 0 {
      TwoToIsPower(-x.exponent - 1);
      hide TwoTo, Times, Power, Scaled;
      HalfScaled(v, Power(2, -x.exponent - 1), x.exponent);
    } else {
      TwoToIsPower(x.exponent);
      hide TwoTo, Times, Power;
      WholeScaled(x.mantissa, Power(2, x.exponent), Power(10, f));
    }
  }

  lemma ScaledMagnitudeIs(x: Double, f: nat)
    requires x.Finite?
    ensures ScaledMagnitude(x, f) == Times(Scaled(x.mantissa, f) as real, TwoTo(x.exponent))
  {
    hide TwoTo, Power;
    var a, b, c := x.mantissa as real, TwoTo(x.exponent), Power(10, f) as real;
    assert (a * b) * c == (a * c) * b;
    assert Scaled(x.mantissa, f) as real == a * c;
  }

  lemma WholeScaled(mantissa: nat, power: nat, ten: nat)
    ensures Times((mantissa * ten) as real, power as real) == (mantissa * power * ten) as real
    ensures NearestLarger((mantissa * power * ten) as real) == mantissa * power * ten
  {
    assert (mantissa * ten) * power == mantissa * power * ten;
    RealProduct(mantissa * ten, power);
  }

  lemma RealProduct(a: int, b: int)
    ensures (a as real) * (b as real) == (a * b) as real
  {
  }

  lemma HalfScaled(v: nat, p: nat, exponent: int)
    requires exponent < 0 && TwoTo(-exponent - 1) == p as real && p > 0
    ensures NearestLarger(Times(v as real, TwoTo(exponent))) == (v + p) / (2 * p)
  {
    hide TwoTo, Times;
    var y, d := Times(v as real, TwoTo(exponent)), 2 * p;
    ScaledBack(v, p, exponent);
    HalfQuotient(v, p);
    HalfNearest(y, v, p, (v + p) / d);
  }

  lemma ScaledBack(v: nat, p: nat, exponent: int)
    requires exponent < 0 && TwoTo(-exponent - 1) == p as real
    ensures Times(Times(v as real, TwoTo(exponent)), (2 * p) as real) == v as real
  {
    TwoToNext(-exponent - 1);
    TwoToSum(exponent, -exponent);
    assert TwoTo(0) == 1.0;
    hide TwoTo, Times;
    TimesAssociates(v as real, TwoTo(exponent), TwoTo(-exponent));
    TimesOne(v as real);
  }

  lemma HalfQuotient(v: nat, p: nat)
    requires p > 0
    ensures var n, d := (v + p) / (2 * p), 2 * p; n * d <= v + p < n * d + d
  {
  }

  lemma HalfNearest(y: real, v: nat, p: nat, n: nat)
    requires p > 0 && Times(y, (2 * p) as real) == v as real && n * (2 * p) <= v + p < n * (2 * p) + 2 * p
    ensures NearestLarger(y) == n
  {
    hide Times;
    var d := 2 * p;
    TimesSum(y, 0.5, d as real);
    TimesIs(n, d);
    TimesIs(n + 1, d);
    if y + 0.5 < n as real {
      StrictlyMonotone(y + 0.5, n as real, d as real);
      assert false;
    }
    if y + 0.5 >= n as real + 1.0 {
      TimesMonotone((n + 1) as real, y + 0.5, d as real);
      assert false;
    }
  }

  lemma TimesSum(a: real, b: real, c: real)
    ensures Times(a + b, c) == Times(a, c) + Times(b, c) && Times(0.5, c) == c / 2.0
  {
  }

  lemma TimesIs(n: int, d: int)
    ensures Times(n as real, d as real) == (n * d) as real && (n + 1) * d == n * d + d
  {
  }
}
