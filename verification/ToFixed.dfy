/** `Number.prototype.toFixed` as the shim computes it: six limbs of seven decimal digits. */
module ToFixed {
  import opened Numerals

  const BASE: nat := 10_000_000
  const SIZE := 6
  const DOUBLE_LIMIT: nat := 0x20_0000_0000_0000

  /** The natural numbers that a double holds exactly. */
  type Exact = n: nat | n < DOUBLE_LIMIT

  /** What the limbs stand for, least significant limb first. */
  function Value(limbs: seq<Exact>): nat {
    if limbs == [] then 0 else limbs[0] + BASE * Value(limbs[1..])
  }

  predicate Small(limbs: seq<Exact>) {
    forall i :: 0 <= i < |limbs| ==> limbs[i] < BASE
  }

  // ---------- powers ----------

  lemma {:induction false} PowerSum(b: nat, m: nat, n: nat)
    ensures Power(b, m + n) == Power(b, m) * Power(b, n)
  {
    if m > 0 {
      PowerSum(b, m - 1, n);
      assert Power(b, m + n) == b * Power(b, m - 1 + n);
      Associate(b, Power(b, m - 1), Power(b, n));
    }
  }

  lemma Associate(a: int, b: int, c: int)
    ensures a * (b * c) == (a * b) * c
  {
  }

  lemma {:induction false} PowerOfSquare(b: nat, n: nat)
    ensures Power(b * b, n) == Power(b, 2 * n)
  {
    if n > 0 {
      PowerOfSquare(b, n - 1);
      assert Power(b, 2 * n) == b * Power(b, 2 * n - 1) && Power(b, 2 * n - 1) == b * Power(b, 2 * n - 2);
      Associate(b, b, Power(b, 2 * n - 2));
    }
  }

  /** Fast exponentiation with an accumulator. */
  function Pow(x: nat, n: nat, acc: nat): (r: nat)
    ensures x > 0 && acc > 0 ==> r > 0
    decreases n
  {
    if n == 0 then acc else if n % 2 == 1 then Pow(x, n - 1, acc * x) else Pow(x * x, n / 2, acc)
  }

  lemma {:induction false} PowIsPower(x: nat, n: nat, acc: nat)
    ensures Pow(x, n, acc) == acc * Power(x, n)
    decreases n
  {
    if n == 0 {
    } else if n % 2 == 1 {
      PowIsPower(x, n - 1, acc * x);
      Associate(acc, x, Power(x, n - 1));
    } else {
      PowIsPower(x * x, n / 2, acc);
      PowerOfSquare(x, n / 2);
    }
  }

  // ---------- numbers in limbs ----------

  lemma {:induction false} ValueConcat(low: seq<Exact>, high: seq<Exact>)
    ensures Value(low + high) == Value(low) + Power(BASE, |low|) * Value(high)
  {
    if low == [] {
      assert low + high == high;
    } else {
      assert (low + high)[1..] == low[1..] + high;
      ValueConcat(low[1..], high);
      Associate(BASE, Power(BASE, |low| - 1), Value(high));
      Distribute(BASE, Value(low[1..]), Power(BASE, |low| - 1) * Value(high));
    }
  }

  lemma Distribute(a: int, b: int, c: int)
    ensures a * (b + c) == a * b + a * c
  {
  }

  lemma {:induction false} ValueBound(limbs: seq<Exact>)
    requires Small(limbs)
    ensures Value(limbs) < Power(BASE, |limbs|)
  {
    if limbs != [] {
      ValueBound(limbs[1..]);
      var high, p := Value(limbs[1..]), Power(BASE, |limbs| - 1);
      Distribute(BASE, high, 1);
      assert BASE * (high + 1) <= BASE * p;
    }
  }

  lemma ValueSnoc(limbs: seq<Exact>, limb: Exact)
    ensures Value(limbs + [limb]) == Value(limbs) + Power(BASE, |limbs|) * limb
  {
    ValueConcat(limbs, [limb]);
    assert Value([limb]) == limb;
  }

  lemma QuotientsOrdered(q: nat, r: nat, q': nat, r': nat, m: nat)
    requires q * m + r == q' * m + r' && r' < m
    ensures q <= q'
  {
    if q > q' {
      Monotone(q' + 1, q, m);
      Distribute(m, q', 1);
      assert false;
    }
  }

  lemma Monotone(a: nat, b: nat, m: nat)
    requires a <= b
    ensures a * m <= b * m
  {
    assert b * m == a * m + (b - a) * m;
  }

  lemma RemainderUnique(a: nat, q: nat, r: nat, m: nat)
    requires a == q * m + r && r < m
    ensures a % m == r && a / m == q
  {
    var q', r' := a / m, a % m;
    assert a == q' * m + r';
    QuotientsOrdered(q, r, q', r', m);
    QuotientsOrdered(q', r', q, r, m);
  }

  /** One limb of a multiplication: the carried sum splits into a limb and the next carry. */
  lemma MultiplyStep(done: nat, p: nat, carry: nat, n: nat, limb: nat, past: nat, c: nat)
    requires done + p * carry == n * past + c
    ensures var c2 := carry + n * limb;
            done + p * (c2 % BASE) + (BASE * p) * (c2 / BASE) == n * (past + p * limb) + c
  {
    var c2 := carry + n * limb;
    var q, r := c2 / BASE, c2 % BASE;
    assert c2 == BASE * q + r;
    calc {
      done + p * r + (BASE * p) * q;
      { Associate(p, BASE, q); Distribute(p, BASE * q, r); }
      done + p * c2;
      { Distribute(p, carry, n * limb); }
      done + p * carry + p * (n * limb);
      { assert p * (n * limb) == n * (p * limb) by { Associate(p, n, limb); Associate(n, p, limb); } }
      n * past + c + n * (p * limb);
      { Distribute(n, past, p * limb); }
      n * (past + p * limb) + c;
    }
  }

  /** One limb of a division: the remainder brought down splits into a limb and the next
      remainder. */
  lemma DivideStep(n: nat, high: nat, rest: nat, limb: nat, past: nat)
    requires n > 0 && high * n + rest == past
    ensures var c := rest * BASE + limb;
            ((c / n) + BASE * high) * n + c % n == limb + BASE * past
  {
    var c := rest * BASE + limb;
    var q, r := c / n, c % n;
    assert c == q * n + r;
    calc {
      (q + BASE * high) * n + r;
      { Distribute(n, q, BASE * high); }
      q * n + (BASE * high) * n + r;
      { Associate(BASE, high, n); }
      c + BASE * (high * n);
      { Distribute(BASE, high * n, rest); }
      limb + BASE * past;
    }
  }

  lemma LimbFits(rest: nat, limb: nat, n: nat)
    requires rest < n && limb < BASE
    ensures (rest * BASE + limb) / n < BASE && rest * BASE + limb < n * BASE
  {
    var c := rest * BASE + limb;
    assert c < (rest + 1) * BASE;
    Monotone(rest + 1, n, BASE);
    QuotientBelow(c, n, BASE);
  }

  lemma QuotientBelow(c: nat, n: nat, bound: nat)
    requires n > 0 && c < n * bound
    ensures c / n < bound
  {
    var q := c / n;
    assert q * n <= c;
    if q >= bound {
      Monotone(bound, q, n);
      assert false;
    }
  }

  /** The loop of a multiplication by `n` plus `c` after the limbs `past` became `low`. */
  ghost predicate Carries(low: seq<Exact>, carry: nat, past: seq<Exact>, n: nat, c: nat) {
    Value(low) + Power(BASE, |low|) * carry == n * Value(past) + c
  }

  lemma SmallSnoc(limbs: seq<Exact>, limb: Exact)
    ensures Small(limbs + [limb]) <==> Small(limbs) && limb < BASE
  {
    assert (limbs + [limb])[..|limbs|] == limbs;
    assert Small(limbs + [limb]) ==> forall i :: 0 <= i < |limbs| ==> (limbs + [limb])[i] == limbs[i];
    assert (limbs + [limb])[|limbs|] == limb;
  }

  lemma SmallParts(limbs: seq<Exact>)
    ensures Small([]) && (Small(limbs) ==> forall i :: 0 <= i < |limbs| ==> limbs[i] < BASE)
  {
  }

  lemma CarryStep(low: seq<Exact>, carry: nat, past: seq<Exact>, n: nat, c: nat, limb: Exact, c2: nat)
    requires Carries(low, carry, past, n, c) && |low| == |past| && c2 == carry + n * limb
    ensures Carries(low + [c2 % BASE], c2 / BASE, past + [limb], n, c)
  {
    MultiplyStep(Value(low), Power(BASE, |low|), carry, n, limb, Value(past), c);
    ValueSnoc(past, limb);
    ValueSnoc(low, c2 % BASE);
  }

  lemma CarryEnd(low: seq<Exact>, carry: nat, past: seq<Exact>, n: nat, c: nat)
    requires Carries(low, carry, past, n, c) && Small(low)
    ensures Value(low) == (n * Value(past) + c) % Power(BASE, |low|)
  {
    hide Value, Power;
    ValueBound(low);
    var product, p := n * Value(past) + c, Power(BASE, |low|);
    assert product == carry * p + Value(low);
    RemainderUnique(product, carry, Value(low), p);
  }

  /** The loop of a division by `n` after the limbs `past` became `high`. */
  ghost predicate Divides(high: seq<Exact>, rest: nat, past: seq<Exact>, n: nat) {
    Value(high) * n + rest == Value(past)
  }

  lemma DivisionFits(rest: nat, limb: nat, n: nat)
    requires rest < n <= 0x80_0000 && limb < BASE
    ensures rest * BASE + limb < DOUBLE_LIMIT && (rest * BASE + limb) / n < BASE
  {
    LimbFits(rest, limb, n);
  }

  lemma DivisionStep(high: seq<Exact>, rest: nat, past: seq<Exact>, n: nat, limb: Exact, quotient: Exact)
    requires n > 0 && Divides(high, rest, past, n) && quotient == (rest * BASE + limb) / n
    ensures Divides([quotient] + high, (rest * BASE + limb) % n, [limb] + past, n)
  {
    DivideStep(n, Value(high), rest, limb, Value(past));
    assert ([quotient] + high)[1..] == high && ([limb] + past)[1..] == past;
  }

  lemma DivisionEnd(high: seq<Exact>, rest: nat, past: seq<Exact>, n: nat)
    requires Divides(high, rest, past, n) && rest < n
    ensures Value(high) == Value(past) / n
  {
    RemainderUnique(Value(past), Value(high), rest, n);
  }

  class Helpers {
    const data: array<Exact>

    ghost predicate Valid()
      reads this, data
    {
      data.Length == SIZE && Small(data[..])
    }

    ghost function Number(): nat
      reads this, data
    {
      Value(data[..])
    }

    constructor ()
      ensures Valid() && fresh(data) && Number() == 0
    {
      data := new Exact[SIZE](_ => 0);
      new;
      ZeroValue(data[..]);
    }

    /** Multiplies by `n` and adds `c`, modulo what six limbs can hold. Every intermediate is
        exact in a double. */
    method Multiply(n: Exact, c: Exact)
      requires Valid() && n <= BASE && c + n * (BASE - 1) < DOUBLE_LIMIT
      modifies data
      ensures Valid() && Number() == (n * old(Number()) + c) % Power(BASE, SIZE)
    {
      hide Value, Power, Carries, Small;
      ghost var before := data[..];
      SmallParts(before);
      assert Carries([], c, [], n, c) by { EmptyCarries(n, c); }
      var c2: Exact, i := c, 0;
      while i < SIZE
        invariant 0 <= i <= SIZE && Small(data[..i]) && data[i..] == before[i..]
        invariant i == 0 ==> c2 == c
        invariant i > 0 ==> c2 <= 1_000_000_000
        invariant Carries(data[..i], c2, before[..i], n, c)
      {
        ghost var low, past := data[..i], before[..i];
        var limb := data[i];
        assert limb == before[i] by { assert data[i..][0] == before[i..][0]; }
        MultiplyFits(n, c, c2, limb, i == 0);
        ghost var carry := c2;
        c2 := c2 + n * limb;
        CarryStep(low, carry, past, n, c, limb, c2);
        SmallSnoc(low, c2 % BASE);
        data[i] := c2 % BASE;
        assert data[..i] == low && data[..i + 1] == low + [c2 % BASE] && before[..i + 1] == past + [limb];
        c2 := c2 / BASE;
        i := i + 1;
      }
      assert data[..SIZE] == data[..] && before[..SIZE] == before;
      CarryEnd(data[..], c2, before, n, c);
    }

    /** Divides by `n`, rounding down. Every intermediate is exact in a double. */
    method Divide(n: Exact)
      requires Valid() && 0 < n <= 0x80_0000
      modifies data
      ensures Valid() && Number() == old(Number()) / n
    {
      hide Value, Divides;
      ghost var before := data[..];
      var i, c: Exact := SIZE, 0;
      ghost var rest: nat := 0;
      assert data[SIZE..] == [] && before[SIZE..] == [];
      EmptyDivides(n);
      while i > 0
        invariant 0 <= i <= SIZE && data[..i] == before[..i] && Small(data[i..])
        invariant c == rest * BASE && rest < n
        invariant Divides(data[i..], rest, before[i..], n)
      {
        i := i - 1;
        ghost var high, past := data[i + 1..], before[i + 1..];
        assert data[i] == before[i] by { assert data[..i + 1][i] == before[..i + 1][i]; }
        DivisionFits(rest, before[i], n);
        c := c + data[i];
        data[i] := c / n;
        assert data[i + 1..] == high && data[i..] == [data[i]] + high && before[i..] == [before[i]] + past;
        DivisionStep(high, rest, past, n, before[i], data[i]);
        rest := c % n;
        c := (c % n) * BASE;
      }
      assert data[0..] == data[..] && before[0..] == before;
      DivisionEnd(data[..], rest, before, n);
    }

    /** The decimal numeral of the number in the limbs. */
    method NumToString() returns (s: string)
      requires Valid()
      ensures s == Numeral(Number())
    {
      hide Value, Numeral, Padded;
      var i := SIZE;
      s := "";
      assert data[SIZE..] == [];
      while i > 0
        invariant 0 <= i <= SIZE
        invariant i == SIZE ==> s == ""
        invariant i < SIZE ==> Printed(s, data[i..], i)
      {
        i := i - 1;
        ghost var high := data[i + 1..];
        assert data[i..] == [data[i]] + high;
        PrintedStep(s, high, data[i], i);
        if s != "" || i == 0 || data[i] != 0 {
          var t := Numeral(data[i]);
          PaddedIsNumeral(data[i], 7);
          if s == "" {
            s := t;
          } else {
            s := s + "0000000"[..7 - |t|] + t;
          }
        }
      }
      assert data[0..] == data[..];
      hide Printed;
      PrintedEnd(s, data[..]);
    }
  }

  /** What `NumToString` holds when the limbs below index `i` are left: nothing while all limbs
      seen are zero, else their numeral. */
  ghost predicate Printed(s: string, high: seq<Exact>, i: nat) {
    if s == "" then Value(high) == 0 && i > 0 else s == Numeral(Value(high)) && (i > 0 ==> Value(high) > 0)
  }

  lemma PrintedStep(s: string, high: seq<Exact>, limb: Exact, i: nat)
    requires limb < BASE && (if high == [] then s == "" else Printed(s, high, i + 1))
    ensures |Numeral(limb)| <= 7
    ensures var s' := if s == "" && i > 0 && limb == 0 then s
                      else if s == "" then Numeral(limb)
                      else s + "0000000"[..7 - |Numeral(limb)|] + Numeral(limb);
            Printed(s', [limb] + high, i)
  {
    hide Numeral, Padded, Power;
    assert ([limb] + high)[1..] == high;
    PadLimb(limb);
    assert Value([limb] + high) == limb + BASE * Value(high);
    if s != "" {
      assert |s + Padded(limb, 7)| > 0;
      AppendLimb(Value(high), limb);
      assert s + "0000000"[..7 - |Numeral(limb)|] + Numeral(limb) == s + Padded(limb, 7);
    }
  }

  lemma PadLimb(limb: nat)
    requires limb < BASE
    ensures |Numeral(limb)| <= 7 && "0000000"[..7 - |Numeral(limb)|] + Numeral(limb) == Padded(limb, 7)
  {
    assert Power(10, 7) == BASE;
    hide Numeral, Padded;
    PaddedIsNumeral(limb, 7);
    assert "0000000"[..7 - |Numeral(limb)|] == Zeros(7 - |Numeral(limb)|);
  }

  lemma AppendLimb(high: nat, limb: nat)
    requires high > 0 && limb < BASE
    ensures Numeral(limb + BASE * high) == Numeral(high) + Padded(limb, 7)
  {
    assert Power(10, 7) == BASE;
    hide Numeral, Padded;
    NumeralSplit(high, limb, 7);
  }

  lemma PrintedEnd(s: string, limbs: seq<Exact>)
    requires Printed(s, limbs, 0)
    ensures s == Numeral(Value(limbs))
  {
  }

  /** The carried sum of a step of `Multiply` is exact, and so is every later one. */
  lemma MultiplyFits(n: nat, c: nat, carry: nat, limb: nat, first: bool)
    requires n <= BASE && c + n * (BASE - 1) < DOUBLE_LIMIT && limb < BASE
    requires if first then carry == c else carry <= 1_000_000_000
    ensures carry + n * limb < DOUBLE_LIMIT && (carry + n * limb) / BASE <= 1_000_000_000
  {
    Monotone(limb, BASE - 1, n);
  }

  lemma EmptyCarries(n: nat, c: nat)
    ensures Carries([], c, [], n, c)
  {
  }

  lemma EmptyDivides(n: nat)
    ensures Divides([], 0, [], n)
  {
  }

  lemma {:induction false} ZeroValue(limbs: seq<Exact>)
    requires forall i :: 0 <= i < |limbs| ==> limbs[i] == 0
    ensures Value(limbs) == 0
  {
    if limbs != [] { ZeroValue(limbs[1..]); }
  }

  // ---------- rounding ----------

  function Scaled(z: nat, k: nat): nat {
    z * Power(10, k)
  }

  /** z / 2^e * 10^f rounded to the nearest integer, halves up. */
  function Rounded(z: nat, e: int, f: nat): nat {
    if e > 0 then (Scaled(z, f) + Power(2, e - 1)) / (2 * Power(2, e - 1))
    else z * Power(2, -e) * Power(10, f)
  }

  lemma DivideTwice(v: nat, a: nat, b: nat)
    requires a > 0 && b > 0
    ensures a * b > 0 && v / a / b == v / (a * b)
  {
    var q, r := v / a, v % a;
    var q', r' := q / b, q % b;
    assert v == q * a + r;
    assert q == q' * b + r';
    Monotone(1, a, b);
    Monotone(r' + 1, b, a);
    Flatten(q', b, r', a);
    RemainderUnique(v, q', r' * a + r, a * b);
  }

  lemma Flatten(q: int, b: int, r: int, a: int)
    ensures (q * b + r) * a == q * (a * b) + r * a && (r + 1) * a == r * a + a && b * a == a * b
  {
  }

  lemma HalfUp(v: nat, p: nat)
    requires p > 0
    ensures (v / p + 1) / 2 == (v + p) / (2 * p)
  {
    DivideTwice(v + p, p, 2);
    RemainderUnique(v + p, v / p + 1, v % p, p);
  }

  lemma ModuloFits(v: nat, limit: nat)
    requires v < limit
    ensures v % limit == v
  {
    RemainderUnique(v, 0, v, limit);
  }

  lemma Capacity()
    ensures Power(BASE, SIZE) == 1_000_000_000_000_000_000_000_000_000_000_000_000_000_000
    ensures Power(10, 20) == 100_000_000_000_000_000_000 && Power(10, 7) == BASE
    ensures Power(2, 17) == 0x2_0000 && Power(2, 23) == 0x80_0000
  {
    assert BASE * BASE == 100_000_000_000_000;
    assert Power(BASE, 2) == BASE * (BASE * Power(BASE, 0));
    assert Power(BASE, 4) == BASE * (BASE * Power(BASE, 2));
    assert Power(BASE, 6) == BASE * (BASE * Power(BASE, 4));
    assert Power(2, 8) == 0x100 && Power(2, 1) == 2 && Power(2, 6) == 0x40;
    PowerSum(2, 8, 8);
    PowerSum(2, 16, 1);
    PowerSum(2, 17, 6);
  }

  lemma {:induction false} PowerIncreases(b: nat, m: nat, n: nat)
    requires b > 0 && m <= n
    ensures Power(b, m) <= Power(b, n)
    decreases n
  {
    if m < n {
      PowerIncreases(b, m, n - 1);
      Monotone(1, b, Power(b, n - 1));
    }
  }

  /** The numbers scaled by powers of ten fit in six limbs. */
  lemma ScaledFits(z: nat, k: nat)
    requires z < DOUBLE_LIMIT && k <= 20
    ensures Scaled(z, k) + 1 < Power(BASE, SIZE)
  {
    Capacity();
    PowerIncreases(10, k, 20);
    hide Power;
    Monotone(z, DOUBLE_LIMIT, Power(10, k));
    assert DOUBLE_LIMIT * Power(10, k) <= DOUBLE_LIMIT * Power(10, 20);
  }

  /** Multiplying the scaled number by a further power of ten overflows nothing. */
  lemma ScaleStep(z: nat, k: nat, more: nat, n: nat)
    requires z < DOUBLE_LIMIT && k + more <= 20 && n == Power(10, more)
    ensures (n * Scaled(z, k) + 0) % Power(BASE, SIZE) == Scaled(z, k + more)
  {
    ScaleProduct(z, k, more);
    ScaledFits(z, k + more);
    hide Power, Scaled;
    ModuloFits(Scaled(z, k + more), Power(BASE, SIZE));
  }

  lemma ScaleProduct(z: nat, k: nat, more: nat)
    ensures Power(10, more) * Scaled(z, k) == Scaled(z, k + more)
  {
    PowerSum(10, k, more);
    hide Power;
    Associate(z, Power(10, k), Power(10, more));
  }

  lemma SevenDigits(z: nat, k: nat)
    requires z < DOUBLE_LIMIT && k + 7 <= 20
    ensures (10_000_000 * Scaled(z, k) + 0) % Power(BASE, SIZE) == Scaled(z, k + 7)
  {
    Capacity();
    hide Power, Scaled;
    ScaleStep(z, k, 7, 10_000_000);
  }

  lemma LastDigits(z: nat, f: nat, j: nat)
    requires z < DOUBLE_LIMIT && j <= f <= 20 && j < 7
    ensures Pow(10, j, 1) <= BASE && (Pow(10, j, 1) * Scaled(z, f - j) + 0) % Power(BASE, SIZE) == Scaled(z, f)
  {
    Capacity();
    hide Power, Scaled;
    PowIsPower(10, j, 1);
    PowerIncreases(10, j, 7);
    ScaleStep(z, f - j, j, Pow(10, j, 1));
  }

  /** Multiplies by a power of ten in steps of seven digits. */
  method ScaleUp(h: Helpers, f: nat, ghost z: nat)
    requires h.Valid() && f <= 20 && z < DOUBLE_LIMIT && h.Number() == z
    modifies h.data
    ensures h.Valid() && h.Number() == Scaled(z, f)
  {
    assert Scaled(z, 0) == z;
    hide Power, Scaled, Value, Pow;
    var j := f;
    while j >= 7
      invariant 0 <= j <= f && h.Valid() && h.Number() == Scaled(z, f - j)
    {
      SevenDigits(z, f - j);
      h.Multiply(10_000_000, 0);
      j := j - 7;
    }
    LastDigits(z, f, j);
    h.Multiply(Pow(10, j, 1), 0);
  }

  /** Divides by a power of two in chunks of 23 bits, which amounts to one division. */
  method ShiftDown(h: Helpers, bits: nat)
    requires h.Valid()
    modifies h.data
    ensures h.Valid() && h.Number() == old(h.Number()) / Power(2, bits)
  {
    Capacity();
    assert Power(2, 0) == 1;
    ghost var v := h.Number();
    hide Power;
    var j := bits;
    while j >= 23
      invariant 0 <= j <= bits && h.Valid() && h.Number() == v / Power(2, bits - j)
    {
      h.Divide(0x80_0000);
      DivideTwice(v, Power(2, bits - j), Power(2, 23));
      PowerSum(2, bits - j, 23);
      j := j - 23;
    }
    PowerIncreases(2, j, 23);
    h.Divide(Power(2, j));
    DivideTwice(v, Power(2, bits - j), Power(2, j));
    PowerSum(2, bits - j, j);
  }

  /** The digits that `toFixed` computes for a nonzero z / 2^e, before it places the point. */
  method Digits(h: Helpers, z: Exact, e: int, f: nat) returns (m: string)
    requires h.Valid() && 0 < z && -17 <= e && f <= 20
    modifies h.data
    ensures h.Valid() && m == Numeral(Rounded(z, e, f))
  {
    hide Power, Numeral, Value, Scaled, Rounded;
    h.Multiply(0, z);
    ModuloFits(z, Power(BASE, SIZE)) by { Capacity(); }
    if e > 0 {
      ScaleUp(h, f, z);
      ShiftDown(h, e - 1);
      h.Multiply(1, 1);
      h.Divide(2);
      HalvesRound(z, e, f);
      m := h.NumToString();
    } else {
      WholeRounds(z, e, f);
      h.Multiply(Power(2, -e), 0);
      m := h.NumToString();
      m := m + "0.00000000000000000000"[2..2 + f];
    }
  }

  /** Adding one to the quotient of half the divisor and halving it rounds halves up. */
  lemma HalvesRound(z: Exact, e: int, f: nat)
    requires e > 0 && f <= 20
    ensures (1 * (Scaled(z, f) / Power(2, e - 1)) + 1) % Power(BASE, SIZE) / 2 == Rounded(z, e, f)
  {
    ScaledFits(z, f);
    hide Power, Scaled;
    var v, p := Scaled(z, f), Power(2, e - 1);
    QuotientAtMost(v, p);
    ModuloFits(v / p + 1, Power(BASE, SIZE));
    HalfUp(v, p);
  }

  /** A multiple of a power of two is printed whole, with zeros for the decimals. */
  lemma WholeRounds(z: Exact, e: int, f: nat)
    requires 0 < z && -17 <= e <= 0 && f <= 20
    ensures Power(2, -e) <= 0x2_0000
    ensures Numeral((Power(2, -e) * z + 0) % Power(BASE, SIZE)) + "0.00000000000000000000"[2..2 + f]
            == Numeral(Rounded(z, e, f))
  {
    hide Power, Numeral;
    WholeFits(z, -e);
    ModuloFits(Power(2, -e) * z, Power(BASE, SIZE));
    TrailingZeros(z * Power(2, -e), f);
  }

  lemma QuotientAtMost(v: nat, p: nat)
    requires p > 0
    ensures v / p <= v
  {
    assert v == (v / p) * p + v % p;
    Monotone(1, p, v / p);
  }

  lemma WholeFits(z: nat, bits: nat)
    requires 0 < z < DOUBLE_LIMIT && bits <= 17
    ensures Power(2, bits) <= 0x2_0000 && 0 < Power(2, bits) * z < Power(BASE, SIZE)
  {
    Capacity();
    PowerIncreases(2, bits, 17);
    hide Power;
    Monotone(Power(2, bits), 0x2_0000, z);
    Monotone(1, Power(2, bits), z);
  }

  lemma TrailingZeros(n: nat, f: nat)
    requires n > 0 && f <= 20
    ensures Numeral(n) + "0.00000000000000000000"[2..2 + f] == Numeral(n * Power(10, f))
  {
    NumeralSplit(n, 0, f);
    PaddedZero(f);
    hide Numeral, Padded, Power;
    assert "0.00000000000000000000"[2..2 + f] == Zeros(f);
  }

  // ---------- the decimal point ----------

  /** The integer part of n / 10^f, the point, and exactly f decimals; no point for f zero. */
  function FixedNumeral(n: nat, f: nat): string {
    if f == 0 then Numeral(n) else Numeral(n / Power(10, f)) + "." + Padded(n % Power(10, f), f)
  }

  /** Puts the point into the numeral of `n`. */
  method PlacePoint(s: string, digits: string, f: nat, ghost n: nat) returns (m: string)
    requires digits == Numeral(n) && f <= 20
    ensures m == s + FixedNumeral(n, f)
  {
    m := digits;
    if f > 0 {
      var k := |m|;
      if k <= f {
        ShortNumeral(n, f);
        m := s + "0.0000000000000000000"[..f - k + 2] + m;
        assert m == s + ("0.0000000000000000000"[..f - k + 2] + digits);
      } else {
        LongNumeral(n, f);
        m := s + m[..k - f] + "." + m[k - f..];
        assert m == s + (digits[..k - f] + "." + digits[k - f..]);
      }
    } else {
      m := s + m;
    }
  }

  lemma ShortNumeral(n: nat, f: nat)
    requires f <= 20 && |Numeral(n)| <= f
    ensures "0.0000000000000000000"[..f - |Numeral(n)| + 2] + Numeral(n) == FixedNumeral(n, f)
  {
    NumeralLength(n, f);
    PaddedIsNumeral(n, f);
    hide Numeral, Padded, Power;
    RemainderUnique(n, 0, n, Power(10, f));
    LeadingZeros(f - |Numeral(n)|);
  }

  lemma LeadingZeros(count: nat)
    requires count <= 19
    ensures "0.0000000000000000000"[..count + 2] == Numeral(0) + "." + Zeros(count)
  {
  }

  lemma ZeroTimes(p: nat)
    ensures 0 * p == 0
  {
  }

  lemma LongNumeral(n: nat, f: nat)
    requires 0 < f < |Numeral(n)|
    ensures var k := |Numeral(n)| - f; Numeral(n)[..k] + "." + Numeral(n)[k..] == FixedNumeral(n, f)
  {
    NumeralLength(n, f);
    var p := Power(10, f);
    QuotientPositive(n, p);
    NumeralSplit(n / p, n % p, f);
    hide Power, Numeral, Padded;
    assert Numeral(n) == Numeral(n / p) + Padded(n % p, f);
  }

  lemma QuotientPositive(n: nat, p: nat)
    requires n >= p > 0
    ensures n / p > 0 && n == (n / p) * p + n % p
  {
    if n / p == 0 {
      ZeroTimes(p);
      assert false;
    }
  }
}
