/** Formatting a decimal number as a rupee amount: the decimal context rounds a number of more than 28 digits
    before it is quantised. */
module DecimalAmount {
  import opened Wrappers
  import opened Rounding
  import opened IndianFormat

  const PRECISION: nat := 28

  /** A decimal number: sign, digits and the power of ten of the last one. */
  datatype Decimal = Decimal(negative: bool, coefficient: nat, exponent: int)
  {
    predicate BelowZero() { negative && coefficient > 0 }

    function Magnitude(): (m: real)
      ensures m >= 0.0
    {
      NotNegative(coefficient as real, Scale(exponent));
      coefficient as real * Scale(exponent)
    }

    /** Digits beyond the context's precision. */
    function Excess(): int { |Digits(coefficient)| - PRECISION }
  }

  /** Ten to any power. */
  function Scale(e: int): (r: real)
    ensures r > 0.0
    decreases if e >= 0 then e else -e
  {
    if e == 0 then 1.0 else if e > 0 then 10.0 * Scale(e - 1) else Scale(e + 1) / 10.0
  }

  /** The unit of the last digit kept when `k` digits are rounded away. */
  function LastUnit(e: int, k: nat): (r: real)
    ensures r > 0.0
  {
    Scale(e + k)
  }

  /** abs() rounds to the context's precision, half to even. */
  function AbsInContext(d: Decimal): (m: real)
    ensures m >= 0.0
    ensures d.Excess() <= 0 ==> m == d.Magnitude()
  {
    if d.Excess() <= 0 then d.Magnitude()
    else
      var kept := LeadingDigits(d.coefficient, d.Excess());
      NotNegative(kept as real, LastUnit(d.exponent, d.Excess()));
      kept as real * LastUnit(d.exponent, d.Excess())
  }

  /** The digits left when the last k are rounded away. */
  function LeadingDigits(n: nat, k: nat): (kept: nat)
    ensures -0.5 <= kept as real - n as real / Pow10(k) as real <= 0.5
  {
    QuotientNotNegative(n as real, Pow10(k) as real);
    HalfEven(n as real / Pow10(k) as real)
  }

  lemma QuotientNotNegative(a: real, b: real)
    requires a >= 0.0 && b > 0.0
    ensures a / b >= 0.0
  {
  }

  function WithSign(d: Decimal, m: real): real { if d.BelowZero() then -m else m }

  /** Quantising needs no more digits than the decimal context has. */
  predicate Printable(d: Decimal, decimals: int) { |Digits(Units(AbsInContext(d), decimals))| <= PRECISION }

  method FmtInr(d: Decimal, decimals: int, sign: bool, width: int) returns (r: Option<string>)
    ensures r.Some? <==> Printable(d, decimals)
    ensures r.Some? ==> r.value == InrText(AbsInContext(d), d.BelowZero(), decimals, sign, width)
  {
    var n := Units(AbsInContext(d), decimals);
    if |Digits(n)| > PRECISION { return None; }
    var result := FmtUnits(n, decimals);
    if d.BelowZero() {
      result := "-" + result;
    } else if sign {
      result := "+" + result;
    }
    return Some(Pad(result, width));
  }

  method FmtUnits(n: nat, decimals: int) returns (r: string)
    ensures r == InrBody(n, decimals)
  {
    var (whole, frac) := TextOf(n, Places(decimals));
    var grouped := GroupIndian(whole);
    return if decimals > 0 then grouped + "." + (if frac.Some? then frac.value else "") else grouped;
  }

  // --- Powers of ten --------------------------------------------------------------------

  predicate IsProduct(a: real, b: real, c: real) { a * b == c }

  lemma PowersOfZero(e: int)
    ensures IsProduct(Scale(e), Pow10(0) as real, Scale(e + 0))
  {
  }

  lemma PowersStep(e: int, k: nat)
    requires k > 0
    ensures Pow10(k) as real == 10.0 * Pow10(k - 1) as real && Scale(e + k) == Scale(e + k - 1) * 10.0
  {
  }

  lemma ProductStep(a: real, p: real, b: real, q: real, c: real)
    requires IsProduct(a, p, b) && q == 10.0 * p && c == b * 10.0
    ensures IsProduct(a, q, c)
  {
    assert a * (10.0 * p) == (a * p) * 10.0;
  }

  lemma {:induction false} ScaleUp(e: int, k: nat)
    ensures IsProduct(Scale(e), Pow10(k) as real, Scale(e + k))
  {
    if k == 0 {
      PowersOfZero(e);
    } else {
      ScaleUp(e, k - 1);
      PowersStep(e, k);
      ProductStep(Scale(e), Pow10(k - 1) as real, Scale(e + k - 1), Pow10(k) as real, Scale(e + k));
    }
  }

  lemma {:induction false} PowerOfSum(a: nat, b: nat)
    ensures Pow10(a + b) == Pow10(a) * Pow10(b)
  {
    if b > 0 {
      PowerOfSum(a, b - 1);
      var p, q := Pow10(a), Pow10(b - 1);
      assert p * (10 * q) == 10 * (p * q);
    }
  }

  // --- Bounds under multiplication ------------------------------------------------------

  predicate Within(x: real, bound: real) { -bound <= x <= bound }

  lemma WithinTimes(x: real, bound: real, m: real, y: real, c: real)
    requires Within(x, bound) && m > 0.0 && IsProduct(x, m, y) && IsProduct(bound, m, c)
    ensures Within(y, c)
  {
    NotNegative(x + bound, m);
    NotNegative(bound - x, m);
    assert (x + bound) * m == x * m + bound * m;
    assert (bound - x) * m == bound * m - x * m;
  }

  lemma Positive(a: real, b: real)
    requires a > 0.0 && b > 0.0
    ensures a * b > 0.0
  {
  }

  lemma Difference(a: real, b: real, m: real)
    ensures (a - b) * m == a * m - b * m
    ensures (-a - -b) * m == b * m - a * m
  {
  }

  // --- Longer decimals ------------------------------------------------------------------

  /** The context moves a longer decimal by at most half a unit of its 28th digit. */
  lemma AmountNearExact(d: Decimal)
    requires d.Excess() > 0
    ensures Within(AbsInContext(d) - d.Magnitude(), LastUnit(d.exponent, d.Excess()) / 2.0)
  {
    var k, p, scale := d.coefficient as real, Pow10(d.Excess()) as real, Scale(d.exponent);
    ScaleUp(d.exponent, d.Excess());
    var kept := LeadingDigits(d.coefficient, d.Excess()) as real;
    RoundedProduct(k, p, scale, kept, LastUnit(d.exponent, d.Excess()), AbsInContext(d), d.Magnitude());
  }

  lemma RoundedProduct(k: real, p: real, scale: real, kept: real, unit: real, rounded: real, exact: real)
    requires p > 0.0 && unit > 0.0 && -0.5 <= kept - k / p <= 0.5
    requires IsProduct(scale, p, unit) && rounded == kept * unit && exact == k * scale
    ensures Within(rounded - exact, unit / 2.0)
  {
    var q := k / p;
    assert q * p == k;
    assert exact == q * unit by { assert (q * p) * scale == q * (scale * p); }
    Difference(kept, q, unit);
    WithinTimes(kept - q, 0.5, unit, rounded - exact, unit / 2.0);
  }

  // --- Read back within half a unit -----------------------------------------------------

  /** An amount in units of its last shown decimal, exactly. */
  function Shown(m: real, decimals: int): real { m * Pow10(Places(decimals)) as real }

  /** A tie of the rounded amount is broken away from the exact one. */
  predicate Across(n: real, rounded: real, exact: real) {
    (n - rounded == 0.5 && exact < rounded) || (rounded - n == 0.5 && exact > rounded)
  }

  /** The context rounds the amount to exactly half a unit, and quantising then goes the wrong way. */
  predicate RoundsAcross(d: Decimal, decimals: int) {
    Across(Units(AbsInContext(d), decimals) as real, Shown(AbsInContext(d), decimals), Shown(d.Magnitude(), decimals))
  }

  /** Read back within half a unit of the last shown decimal. */
  predicate ReadsWithinHalf(d: Decimal, decimals: int, text: string) {
    Read(text).Some? && WithinHalf(Read(text).value, WithSign(d, d.Magnitude()), Pow10(Places(decimals)) as real)
  }

  /** A text that is printed comes back within half a unit of its last shown decimal, whatever the number of
      digits, exactly when it is readable and is not rounded twice across a tie. */
  lemma DecimalWithinHalfUnitIff(d: Decimal, decimals: int, sign: bool, width: int)
    requires Printable(d, decimals)
    ensures ReadsWithinHalf(d, decimals, InrText(AbsInContext(d), d.BelowZero(), decimals, sign, width))
       <==> !Unreadable(AbsInContext(d), decimals) && !RoundsAcross(d, decimals)
  {
    var text := InrText(AbsInContext(d), d.BelowZero(), decimals, sign, width);
    InrReadsBackIff(AbsInContext(d), d.BelowZero(), decimals, sign, width);
    if Read(text).Some? { ReadableWithinHalfIff(d, decimals, text, Rounded(AbsInContext(d), decimals)); }
  }

  lemma ReadableWithinHalfIff(d: Decimal, decimals: int, text: string, q: real)
    requires Printable(d, decimals) && q == Rounded(AbsInContext(d), decimals)
    requires Read(text) == Some(WithSign(d, q))
    ensures ReadsWithinHalf(d, decimals, text) <==> !RoundsAcross(d, decimals)
  {
    RoundedNearIff(d, decimals, q);
  }

  /** The amount read back, as a number. */
  lemma RoundedNearIff(d: Decimal, decimals: int, q: real)
    requires Printable(d, decimals) && q == Rounded(AbsInContext(d), decimals)
    ensures WithinHalf(q, d.Magnitude(), Pow10(Places(decimals)) as real) <==> !RoundsAcross(d, decimals)
    ensures WithinHalf(-q, -d.Magnitude(), Pow10(Places(decimals)) as real) <==> !RoundsAcross(d, decimals)
  {
    RoundedUnits(AbsInContext(d), decimals);
    ShownIsProduct(d.Magnitude(), decimals);
    HalfInUnits(q, Units(AbsInContext(d), decimals) as real, d.Magnitude(), Pow10(Places(decimals)) as real,
                Shown(d.Magnitude(), decimals));
    UnitsWithinHalfIff(d, decimals);
  }

  predicate NearHalf(a: real, b: real) { Within(a - b, 0.5) }

  lemma HalfInUnits(q: real, n: real, m: real, scale: real, shown: real)
    requires IsProduct(q, scale, n) && IsProduct(m, scale, shown)
    ensures WithinHalf(q, m, scale) <==> NearHalf(n, shown)
    ensures WithinHalf(-q, -m, scale) <==> NearHalf(n, shown)
  {
    Difference(q, m, scale);
  }

  lemma RoundedUnits(m: real, decimals: int)
    requires m >= 0.0
    ensures IsProduct(Rounded(m, decimals), Pow10(Places(decimals)) as real, Units(m, decimals) as real)
  {
    var n, scale := Units(m, decimals) as real, Pow10(Places(decimals)) as real;
    var q := n / scale;
    assert q * scale == n;
  }

  /** In units of the last shown decimal. */
  lemma UnitsWithinHalfIff(d: Decimal, decimals: int)
    requires Printable(d, decimals)
    ensures NearHalf(Units(AbsInContext(d), decimals) as real, Shown(d.Magnitude(), decimals))
       <==> !RoundsAcross(d, decimals)
  {
    UnitsNear(AbsInContext(d), decimals);
    if d.Excess() > 0 { LongWithinHalfIff(d, decimals, PRECISION); }
  }

  lemma UnitsNear(m: real, decimals: int)
    requires m >= 0.0
    ensures NearHalf(Units(m, decimals) as real, Shown(m, decimals))
  {
  }

  lemma LongWithinHalfIff(d: Decimal, decimals: int, precision: nat)
    requires d.Excess() > 0 && precision == PRECISION && Printable(d, decimals)
    requires NearHalf(Units(AbsInContext(d), decimals) as real, Shown(AbsInContext(d), decimals))
    ensures NearHalf(Units(AbsInContext(d), decimals) as real, Shown(d.Magnitude(), decimals))
       <==> !RoundsAcross(d, decimals)
  {
    var step := d.exponent + d.Excess() + Places(decimals);
    var kept := LeadingDigits(d.coefficient, d.Excess());
    DigitsLength(Units(AbsInContext(d), decimals), precision);
    ShownOnGrid(d, decimals, kept, Scale(step));
    KeepsManyDigits(d, precision);
    GridTie(Units(AbsInContext(d), decimals), Shown(AbsInContext(d), decimals), Shown(d.Magnitude(), decimals),
            kept, step, precision);
  }

  /** `rounded` is `kept` grid steps of ten to the `step`, `exact` lies within half a step of it, and `n` is the
      nearest integer: it is near the exact amount unless it was a tie. */
  lemma GridTie(n: nat, rounded: real, exact: real, kept: nat, step: int, precision: nat)
    requires NearHalf(n as real, rounded) && IsProduct(kept as real, Scale(step), rounded)
    requires Within(rounded - exact, Scale(step) / 2.0)
    requires precision > 0 && n < Pow10(precision) && (step > 0 ==> kept >= Pow10(precision - 1))
    ensures NearHalf(n as real, exact) <==> !Across(n as real, rounded, exact)
  {
    if step > 0 {
      ScaleUp(1, step - 1);
      TooLarge(kept, rounded, Scale(step), Pow10(step - 1), Pow10(precision - 1), n, Pow10(precision));
      assert false;
    } else if step == 0 {
      WholeStep(n, kept, rounded, exact);
    } else {
      ScaleUp(step, -step);
      EvenPower(-step);
      OnFinerGrid(n, rounded, exact, kept, Pow10(-step), Scale(step));
    }
  }

  lemma WholeStep(n: nat, kept: nat, rounded: real, exact: real)
    requires NearHalf(n as real, rounded) && IsProduct(kept as real, 1.0, rounded) && NearHalf(rounded, exact)
    ensures NearHalf(n as real, exact) && !Across(n as real, rounded, exact)
  {
    TimesOne(kept as real, rounded);
    NearestIsWhole(n, kept);
  }

  lemma TimesOne(a: real, c: real)
    requires IsProduct(a, 1.0, c)
    ensures a == c
  {
  }

  lemma NearestIsWhole(n: int, kept: int)
    requires NearHalf(n as real, kept as real)
    ensures n == kept
  {
    assert (n - kept) as real == n as real - kept as real;
  }

  lemma EvenPower(k: nat)
    requires k > 0
    ensures Pow10(k) >= 2 && Pow10(k) % 2 == 0
  {
    assert Pow10(k) == 2 * (5 * Pow10(k - 1));
  }

  /** Steps of ten or more put an amount of 28 digits past the limit. */
  lemma TooLarge(kept: nat, y: real, step: real, tens: nat, least: nat, n: nat, limit: nat)
    requires kept >= least >= 1 && tens >= 1 && IsProduct(10.0, tens as real, step)
    requires IsProduct(kept as real, step, y) && limit == 10 * least && NearHalf(n as real, y)
    ensures n >= limit
  {
    NotNegative(kept as real - least as real, step);
    NotNegative(least as real, step - 10.0);
    Difference(kept as real, least as real, step);
    Difference(step, 10.0, least as real);
  }

  /** The rounded amount is a whole number of grid steps, the exact one at most half a step away. */
  lemma ShownOnGrid(d: Decimal, decimals: int, kept: nat, step: real)
    requires d.Excess() > 0 && kept == LeadingDigits(d.coefficient, d.Excess())
    requires step == Scale(d.exponent + d.Excess() + Places(decimals))
    ensures IsProduct(kept as real, step, Shown(AbsInContext(d), decimals))
    ensures Within(Shown(AbsInContext(d), decimals) - Shown(d.Magnitude(), decimals), step / 2.0)
  {
    AmountNearExact(d);
    ScaleUp(d.exponent + d.Excess(), Places(decimals));
    ShownIsProduct(AbsInContext(d), decimals);
    ShownIsProduct(d.Magnitude(), decimals);
    Stretched(kept as real, LastUnit(d.exponent, d.Excess()), AbsInContext(d), d.Magnitude(),
              Pow10(Places(decimals)) as real, step, Shown(AbsInContext(d), decimals), Shown(d.Magnitude(), decimals));
  }

  lemma ShownIsProduct(m: real, decimals: int)
    ensures IsProduct(m, Pow10(Places(decimals)) as real, Shown(m, decimals))
  {
  }

  lemma Stretched(kept: real, unit: real, rounded: real, exact: real, scale: real, step: real, y: real, x: real)
    requires IsProduct(kept, unit, rounded) && Within(rounded - exact, unit / 2.0) && scale > 0.0
    requires IsProduct(unit, scale, step) && IsProduct(rounded, scale, y) && IsProduct(exact, scale, x)
    ensures IsProduct(kept, step, y) && Within(y - x, step / 2.0)
  {
    assert kept * unit * scale == kept * (unit * scale);
    Difference(rounded, exact, scale);
    WithinTimes(rounded - exact, unit / 2.0, scale, y - x, step / 2.0);
  }

  /** What is kept of a longer coefficient has at least 28 digits. */
  lemma KeepsManyDigits(d: Decimal, precision: nat)
    requires d.Excess() > 0 && precision == PRECISION
    ensures LeadingDigits(d.coefficient, d.Excess()) >= Pow10(precision - 1)
  {
    var k, c := d.Excess(), d.coefficient;
    DigitsLength(c, precision - 1 + k);
    PowerOfSum(precision - 1, k);
    KeptAtLeast(c, Pow10(k), Pow10(precision - 1), LeadingDigits(c, k));
  }

  lemma KeptAtLeast(c: nat, p: nat, least: nat, kept: nat)
    requires p > 0 && c >= least * p && -0.5 <= kept as real - c as real / p as real <= 0.5
    ensures kept >= least
  {
    var q := c as real / p as real;
    assert q * p as real == c as real;
    if q < least as real {
      Positive(least as real - q, p as real);
      Difference(least as real, q, p as real);
      assert false;
    }
  }

  /** Below the units the grid is so fine that only a tie can be missed. */
  lemma OnFinerGrid(n: int, y: real, x: real, kept: int, m: int, step: real)
    requires m >= 2 && m % 2 == 0 && IsProduct(step, m as real, 1.0)
    requires IsProduct(kept as real, step, y) && NearHalf(n as real, y) && Within(y - x, step / 2.0)
    ensures NearHalf(n as real, x) <==> !Across(n as real, y, x)
  {
    var scale, off := m as real, (y - x) * m as real;
    GridSteps(n, y, kept, m, step);
    WithinTimes(y - x, step / 2.0, scale, off, 0.5);
    NearOnGrid(n as real - y, y - x, n * m - kept, off, m);
  }

  lemma GridSteps(n: int, y: real, kept: int, m: int, step: real)
    requires IsProduct(step, m as real, 1.0) && IsProduct(kept as real, step, y)
    ensures IsProduct(n as real - y, m as real, (n * m - kept) as real)
  {
    var scale := m as real;
    assert (kept as real * step) * scale == kept as real * (step * scale);
    Difference(n as real, y, scale);
  }

  lemma NearOnGrid(a: real, b: real, steps: int, off: real, m: int)
    requires m >= 2 && m % 2 == 0 && IsProduct(a, m as real, steps as real) && IsProduct(b, m as real, off)
    requires Within(off, 0.5) && Within(a, 0.5)
    ensures Within(a + b, 0.5) <==> !(a == 0.5 && b > 0.0) && !(a == -0.5 && b < 0.0)
  {
    Tied(a, steps, m);
    Signed(b, m as real, off);
    Sum(a, b, m as real, steps as real, off);
    Halves(a + b, m as real, steps as real + off);
    TieOnly(steps, off, m);
  }

  lemma Sum(a: real, b: real, m: real, p: real, q: real)
    requires IsProduct(a, m, p) && IsProduct(b, m, q)
    ensures IsProduct(a + b, m, p + q)
  {
    assert (a + b) * m == a * m + b * m;
  }

  lemma Signed(b: real, m: real, c: real)
    requires m > 0.0 && IsProduct(b, m, c)
    ensures b > 0.0 <==> c > 0.0
    ensures b < 0.0 <==> c < 0.0
  {
  }

  lemma Halves(a: real, m: real, c: real)
    requires m > 0.0 && IsProduct(a, m, c)
    ensures a > 0.5 <==> c > m / 2.0
    ensures a < 0.5 <==> c < m / 2.0
    ensures a > -0.5 <==> c > -m / 2.0
    ensures a < -0.5 <==> c < -m / 2.0
  {
    Sum(a, -0.5, m, c, -m / 2.0);
    Sum(a, 0.5, m, c, m / 2.0);
    Signed(a - 0.5, m, c - m / 2.0);
    Signed(a + 0.5, m, c + m / 2.0);
  }

  lemma Tied(a: real, steps: int, m: int)
    requires m > 0 && IsProduct(a, m as real, steps as real)
    ensures Within(a, 0.5) <==> -m <= 2 * steps <= m
    ensures (a == 0.5 <==> 2 * steps == m) && (a == -0.5 <==> 2 * steps == -m)
  {
    Halves(a, m as real, steps as real);
  }

  /** In grid steps. */
  lemma TieOnly(steps: int, off: real, m: int)
    requires m >= 2 && m % 2 == 0 && Within(off, 0.5) && -m <= 2 * steps <= m
    ensures Within(steps as real + off, m as real / 2.0)
       <==> !(2 * steps == m && off > 0.0) && !(2 * steps == -m && off < 0.0)
  {
    assert 2 * steps < m ==> 2 * steps <= m - 2;
  }

  // --- An input that is rounded across ----------------------------------------------------

  /** 1.4999... with 29 nines: thirty-one digits. */
  predicate IsLong(d: Decimal) {
    !d.negative && d.exponent == -30 && d.coefficient == 1_499_999_999_999_999_999_999_999_999_999
  }

  lemma PowTen30()
    ensures Pow10(30) == 1_000_000_000_000_000_000_000_000_000_000
  {
    assert Pow10(10) == 10_000_000_000;
    assert Pow10(20) == 100_000_000_000_000_000_000;
  }

  lemma LongHasExcess(d: Decimal, p: nat)
    requires IsLong(d) && p == Pow10(30)
    ensures p == 1_000_000_000_000_000_000_000_000_000_000 && d.Excess() == 3
  {
    PowTen30();
    assert Pow10(31) == 10 * p;
    DigitsLength(d.coefficient, 31);
    DigitsLength(d.coefficient, 30);
  }

  lemma LongRoundsUp(d: Decimal, thousand: nat)
    requires IsLong(d) && thousand == Pow10(3)
    ensures thousand == 1000 && LeadingDigits(d.coefficient, 3) == 1_500_000_000_000_000_000_000_000_000
  {
    assert d.coefficient as real / thousand as real == 1_499_999_999_999_999_999_999_999_999.999;
  }

  /** Rounding twice can go past half a unit: this decimal below 1.5 is shown as 2. */
  lemma LongDecimalRoundsTwice(d: Decimal)
    requires IsLong(d)
    ensures d.Magnitude() < 1.5 && AbsInContext(d) == 1.5 && Units(1.5, 0) == 2 && RoundsAcross(d, 0)
  {
    LongHasExcess(d, Pow10(30));
    LongRoundsUp(d, Pow10(3));
    ScaleUp(-30, 30);
    ScaleUp(-30, 3);
    OneAndAHalf(Scale(-30), Scale(-27));
    assert Pow10(0) == 1 && Units(1.5, 0) == HalfEven(1.5);
  }

  lemma OneAndAHalf(tiny: real, unit: real)
    requires IsProduct(tiny, 1_000_000_000_000_000_000_000_000_000_000.0, 1.0) && IsProduct(tiny, 1000.0, unit)
    ensures 1_500_000_000_000_000_000_000_000_000.0 * unit == 1.5
    ensures 1_499_999_999_999_999_999_999_999_999_999.0 * tiny < 1.5
  {
  }
}
