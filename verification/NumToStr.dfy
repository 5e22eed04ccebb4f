/** Integers printed with a separator between groups of three digits. */
module NumToStr {
  import opened Numerals

  /** The decimal text of an integer. */
  function Decimal(n: int): string {
    if n < 0 then "-" + Numeral(-n) else Numeral(n)
  }

  /** A separator stands before each digit, the first one excepted, from which on the number of
      digits left is a multiple of three. */
  predicate SeparatorBefore(total: nat, k: nat) {
    0 < k < total && (total - k) % 3 == 0
  }

  /** The first `k` digits of `digits` with their separators. */
  function Spread(digits: string, k: nat, sep: char): string
    requires k <= |digits|
  {
    if k == 0 then ""
    else Spread(digits, k - 1, sep) + (if SeparatorBefore(|digits|, k - 1) then [sep] else "") + [digits[k - 1]]
  }

  /** Groups of three digits from the right. */
  function Grouped(digits: string, sep: char): string {
    if |digits| <= 3 then digits else Grouped(digits[..|digits| - 3], sep) + [sep] + digits[|digits| - 3..]
  }

  function Without(s: string, sep: char): string {
    if s == "" then "" else Without(s[..|s| - 1], sep) + if s[|s| - 1] == sep then "" else [s[|s| - 1]]
  }

  lemma CommaDue(total: nat, k: nat, commaIndex: int)
    requires k < total && 0 <= commaIndex <= 3 && (total - k + commaIndex) % 3 == 0
    requires if k == 0 then commaIndex != 3 else commaIndex > 0
    ensures SeparatorBefore(total, k) <==> commaIndex == 3
    ensures (total - k - 1 + (if commaIndex == 3 then 0 else commaIndex) + 1) % 3 == 0
  {
  }

  method Num2Str(n: int, sep: char) returns (r: string)
    ensures r == (if n < 0 then "-" else "")
            + Spread(Numeral(if n < 0 then -n else n), |Numeral(if n < 0 then -n else n)|, sep)
  {
    hide Numeral, SeparatorBefore;
    var s := Decimal(n);
    var startOffset := 0;
    r := "";
    if n < 0 {
      startOffset := 1;
      r := r + "-";
    }
    ghost var digits := s[startOffset..];
    assert digits == Numeral(if n < 0 then -n else n);
    ghost var sign := r;
    var l := |s|;
    var commaIndex := 3 - (l - startOffset) % 3;
    if commaIndex == 3 { commaIndex := 0; }
    var i := startOffset;
    while i < l
      invariant startOffset <= i <= l && 0 <= commaIndex <= 3
      invariant (l - i + commaIndex) % 3 == 0
      invariant i == startOffset ==> commaIndex != 3
      invariant i > startOffset ==> commaIndex > 0
      invariant r == sign + Spread(digits, i - startOffset, sep)
    {
      CommaDue(|digits|, i - startOffset, commaIndex);
      if commaIndex == 3 {
        r := r + [sep];
        commaIndex := 0;
      }
      commaIndex := commaIndex + 1;
      assert s[i] == digits[i - startOffset];
      r := r + [s[i]];
      i := i + 1;
      assert r == sign + Spread(digits, i - startOffset, sep);
    }
  }

  lemma WithoutConcat(a: string, b: string, sep: char)
    ensures Without(a + b, sep) == Without(a, sep) + Without(b, sep)
    decreases |b|
  {
    if b == "" {
      assert a + b == a;
    } else {
      assert (a + b)[..|a + b| - 1] == a + b[..|b| - 1];
      WithoutConcat(a, b[..|b| - 1], sep);
    }
  }

  lemma WithoutNothing(sep: char)
    ensures Without("", sep) == ""
  {
  }

  lemma WithoutOne(c: char, sep: char)
    ensures Without([c], sep) == if c == sep then "" else [c]
  {
    assert Without([c][..0], sep) == "";
  }

  lemma {:induction false} WithoutSpread(digits: string, k: nat, sep: char)
    requires k <= |digits| && sep !in digits
    ensures Without(Spread(digits, k, sep), sep) == digits[..k]
  {
    hide Without, SeparatorBefore;
    if k > 0 {
      WithoutSpread(digits, k - 1, sep);
      var head, gap := Spread(digits, k - 1, sep), if SeparatorBefore(|digits|, k - 1) then [sep] else "";
      WithoutOne(sep, sep);
      WithoutOne(digits[k - 1], sep);
      WithoutNothing(sep);
      WithoutConcat(head, gap, sep);
      WithoutConcat(head + gap, [digits[k - 1]], sep);
      assert digits[k - 1] in digits;
    } else {
      WithoutNothing(sep);
    }
  }

  /** Removing the separators gives back the plain decimal text. */
  lemma SeparatorsRemoved(n: int, sep: char)
    requires sep != '-' && !('0' <= sep <= '9')
    ensures var digits := Numeral(if n < 0 then -n else n);
            Without((if n < 0 then "-" else "") + Spread(digits, |digits|, sep), sep) == Decimal(n)
  {
    var sign, digits := if n < 0 then "-" else "", Numeral(if n < 0 then -n else n);
    NumeralMeaning(if n < 0 then -n else n);
    hide Numeral;
    WithoutSpread(digits, |digits|, sep);
    WithoutConcat(sign, Spread(digits, |digits|, sep), sep);
    assert Without("-", sep) == "-" && digits[..|digits|] == digits;
  }

  /** Counting from the left places the separators where grouping from the right does. */
  lemma {:induction false} SpreadIsGrouped(digits: string, sep: char)
    ensures Spread(digits, |digits|, sep) == Grouped(digits, sep)
    decreases |digits|
  {
    if |digits| <= 3 {
      SpreadShort(digits, |digits|, sep);
    } else {
      var cut := |digits| - 3;
      SpreadIsGrouped(digits[..cut], sep);
      SpreadOfPrefix(digits, cut, sep);
      SpreadThree(digits, cut, sep);
    }
  }

  /** A separator stands before the last three digits. */
  lemma SpreadThree(digits: string, cut: nat, sep: char)
    requires cut > 0 && |digits| == cut + 3
    ensures Spread(digits, |digits|, sep) == Spread(digits, cut, sep) + [sep] + digits[cut..]
  {
    var front := Spread(digits, cut, sep) + [sep];
    assert Spread(digits, cut + 1, sep) == front + [digits[cut]];
    assert Spread(digits, cut + 2, sep) == front + [digits[cut]] + "" + [digits[cut + 1]];
    assert Spread(digits, cut + 3, sep) == front + [digits[cut]] + "" + [digits[cut + 1]] + "" + [digits[cut + 2]];
    hide Spread;
    assert digits[cut..] == [digits[cut], digits[cut + 1], digits[cut + 2]];
  }

  lemma {:induction false} SpreadShort(digits: string, k: nat, sep: char)
    requires k <= |digits| <= 3
    ensures Spread(digits, k, sep) == digits[..k]
  {
    if k > 0 { SpreadShort(digits, k - 1, sep); }
  }

  lemma {:induction false} SpreadOfPrefix(digits: string, k: nat, sep: char)
    requires k <= |digits| - 3
    ensures Spread(digits, k, sep) == Spread(digits[..|digits| - 3], k, sep)
  {
    hide SeparatorBefore;
    if k > 0 {
      SpreadOfPrefix(digits, k - 1, sep);
      ThreeFewer(|digits|, k - 1);
    }
  }

  lemma ThreeFewer(count: nat, i: nat)
    requires i + 3 < count
    ensures SeparatorBefore(count, i) == SeparatorBefore(count - 3, i)
  {
  }

  /** Numbers of up to three digits, of seven, and a negative one. */
  lemma GroupedExamples()
    ensures Spread("123", 3, ',') == "123" && Spread("1234567", 7, ',') == "1,234,567"
    ensures Decimal(-12) == "-12" && Spread("12", 2, ',') == "12"
  {
    hide Spread;
    SpreadShort("123", 3, ',');
    SpreadShort("12", 2, ',');
    assert "123"[..3] == "123" && "12"[..2] == "12";
    assert "1234567"[..4] == "1234" && "1234567"[4..] == "567" && "1234"[..1] == "1" && "1234"[1..] == "234";
    SpreadIsGrouped("1234567", ',');
    assert Grouped("1234", ',') == Grouped("1", ',') + "," + "234";
    assert Numeral(12) == "1" + "2";
  }
}
