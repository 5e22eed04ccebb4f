/** What the text of `toFixed` says of the number, and the answers the shim itself asks for. */
module ToFixedAnswers {
  import opened Numerals
  import opened ToFixed
  import opened ToFixedShim

  /** The number a finite double stands for. */
  ghost function Number(x: Double): real
    requires x.Finite?
  {
    if x.negative then 0.0 - x.mantissa as real * TwoTo(x.exponent) else x.mantissa as real * TwoTo(x.exponent)
  }

  /** Finite doubles have 53 significant bits, with a leading one unless they are subnormal. */
  lemma DoublesAre(x: Double)
    ensures IsDouble(x) <==>
            (x.Finite? ==>
               && x.exponent >= -1074 && x.mantissa < 0x20_0000_0000_0000
               && (x.mantissa < 0x10_0000_0000_0000 ==> x.exponent == -1074))
  {
  }

  lemma MantissaPositive(x: Double)
    requires x.Finite?
    ensures Magnitude(x) == x.mantissa as real * TwoTo(x.exponent) >= 0.0
    ensures Magnitude(x) > 0.0 <==> x.mantissa > 0
  {
    MagnitudePositive(x);
    if x.mantissa > 0 { StrictlyMonotone(0.0, x.mantissa as real, TwoTo(x.exponent)); }
  }

  /** There is a sign exactly for negative numbers, and none before a zero. */
  lemma SignIff(x: Double)
    ensures Sign(x) == if x.Finite? && Number(x) < 0.0 then "-" else ""
  {
    hide TwoTo;
    if x.Finite? { MantissaPositive(x); }
  }

  /** Numbers from 10^21 on, and the infinite ones, are printed without formatting; those below
      2^-69 are not normalised unless they are no more than 10^-21. */
  lemma RangesAre(x: Double)
    ensures IsHuge(x) <==>
            x.Infinity? || (x.Finite? && (Number(x) <= -1_000_000_000_000_000_000_000.0
                                          || Number(x) >= 1_000_000_000_000_000_000_000.0))
    ensures InGap(x) <==>
            x.Finite? && (var y := if x.negative then 0.0 - Number(x) else Number(x);
                          y > 1.0 / 1_000_000_000_000_000_000_000.0 && y < 1.0 / 590_295_810_358_705_651_712.0)
  {
    TwoToMinus69();
    hide TwoTo;
    if x.Finite? { MantissaPositive(x); }
  }

  lemma TwoToMinus69()
    ensures TwoTo(-69) == 1.0 / 590_295_810_358_705_651_712.0
  {
    Powers();
    TwoToIsPower(69);
    DivideByTwoTo(1.0, 69);
    assert 1.0 / TwoTo(69) == 1.0 / 590_295_810_358_705_651_712.0;
  }

  lemma Powers()
    ensures Power(2, 69) == 590_295_810_358_705_651_712 && Power(2, 65) == 36_893_488_147_419_103_232
    ensures Power(2, 52) == 4_503_599_627_370_496 && Power(2, 51) == 2_251_799_813_685_248 && Power(2, 7) == 128
    ensures Power(2, 53) == 9_007_199_254_740_992 && Power(10, 7) == 10_000_000
  {
    hide Power;
    SmallPowersOf();
    PowerSum(2, 6, 7);
    PowerSum(2, 13, 13);
    PowerSum(2, 26, 26);
    PowerSum(2, 52, 13);
    PowerSum(2, 65, 4);
    PowerSum(2, 51, 1);
    PowerSum(2, 52, 1);
  }

  lemma SmallPowersOf()
    ensures Power(2, 1) == 2 && Power(2, 4) == 16 && Power(2, 6) == 64 && Power(2, 7) == 128
    ensures Power(10, 7) == 10_000_000
  {
  }

  /** The widths that the limbs and their intermediate values live in. */
  lemma Widths()
    ensures BASE == Power(10, 7) && SIZE == 6 && DOUBLE_LIMIT == Power(2, 53)
  {
    Powers();
  }

  lemma {:induction false} PaddedAmount(n: nat, width: nat)
    requires n < Power(10, width)
    ensures IsNumeral(Padded(n, width)) && Amount(Padded(n, width)) == n
  {
    if width > 0 {
      PaddedAmount(n / 10, width - 1);
      var most := Padded(n / 10, width - 1);
      assert (most + [Digit(n % 10)])[..|most|] == most;
    }
  }

  /** The text has the integer part without leading zeros and, if any are asked for, a point and
      exactly `f` decimals; its digits are those of `n`. */
  ghost predicate Reads(text: string, whole: nat, decimals: string, n: nat, f: nat) {
    && text == Numeral(whole) + "." + decimals && |decimals| == f && IsNumeral(decimals)
    && whole * Power(10, f) + Amount(decimals) == n
  }

  lemma FixedNumeralMeans(n: nat, f: nat)
    ensures if f == 0 then FixedNumeral(n, f) == Numeral(n)
            else exists whole: nat, decimals: string :: Reads(FixedNumeral(n, f), whole, decimals, n, f)
  {
    hide Numeral, Padded, Amount, IsNumeral, Power;
    if f > 0 {
      var p := Power(10, f);
      Parts(n, p);
      PaddedAmount(n % p, f);
      assert Reads(FixedNumeral(n, f), n / p, Padded(n % p, f), n, f);
    }
  }

  lemma Parts(n: nat, p: nat)
    requires p > 0
    ensures n / p * p + n % p == n && n % p < p
  {
  }

  /** What the shim prints for a double that is neither huge nor in the gap. */
  ghost function Printed(x: Double, f: nat): string
    requires x.Finite?
  {
    var n := NearestLarger(ScaledMagnitude(x, f));
    Sign(x) + if n >= 0 then FixedNumeral(n, f) else ""
  }

  lemma Quotient(v: nat, half: nat, q: nat)
    requires half > 0 && q * (2 * half) <= v + half < (q + 1) * (2 * half)
    ensures (v + half) / (2 * half) == q
  {
    var d := 2 * half;
    RemainderUnique(v + half, q, v + half - q * d, d);
  }

  lemma PrintedIs(x: Double, f: nat, half: nat, n: nat)
    requires x.Finite? && x.exponent < 0 && half == Power(2, -x.exponent - 1)
    requires n * (2 * half) <= x.mantissa * Power(10, f) + half < (n + 1) * (2 * half)
    ensures Printed(x, f) == (if x.negative && x.mantissa > 0 then "-" else "") + FixedNumeral(n, f)
  {
    hide NearestLarger, ScaledMagnitude, Power, FixedNumeral;
    RoundedIsNearest(x, f);
    Quotient(x.mantissa * Power(10, f), half, n);
  }

  /** The doubles next to 0.00008, 0.9 and 1.255 with 3, 0 and 2 decimals. */
  lemma KnownAnswers()
    ensures Printed(Finite(false, 5_902_958_103_587_057, -66), 3) == "0.000"
    ensures Printed(Finite(false, 8_106_479_329_266_893, -53), 0) == "1"
    ensures Printed(Finite(true, 8_106_479_329_266_893, -53), 0) == "-1"
    ensures Printed(Finite(false, 5_652_017_532_349_972, -52), 2) == "1.25"
  {
    Powers();
    SmallNumerals();
    hide Printed, Power, FixedNumeral;
    PrintedIs(Finite(false, 5_902_958_103_587_057, -66), 3, 36_893_488_147_419_103_232, 0);
    PrintedIs(Finite(false, 8_106_479_329_266_893, -53), 0, 4_503_599_627_370_496, 1);
    PrintedIs(Finite(true, 8_106_479_329_266_893, -53), 0, 4_503_599_627_370_496, 1);
    PrintedIs(Finite(false, 5_652_017_532_349_972, -52), 2, 2_251_799_813_685_248, 125);
  }

  lemma SmallNumerals()
    ensures Power(10, 3) == 1000 && Power(10, 2) == 100 && Power(10, 0) == 1
    ensures FixedNumeral(0, 3) == "0.000" && FixedNumeral(1, 0) == "1" && FixedNumeral(125, 2) == "1.25"
  {
    assert Padded(0, 3) == "000" && Padded(25, 2) == "25" && Numeral(0) == "0" && Numeral(1) == "1";
  }

  /** 1000000000000000128 keeps all its digits. */
  lemma LargeAnswer()
    ensures Printed(Finite(false, 7_812_500_000_000_001, 7), 0) == Numeral(1_000_000_000_000_000_128)
  {
    hide NearestLarger, ScaledMagnitude, Numeral;
    RoundedIsNearest(Finite(false, 7_812_500_000_000_001, 7), 0);
    assert Power(2, 7) == 128 && Power(10, 0) == 1;
  }
}
