/** Implied volatility by bisection: 80 halvings of [0.01, 2.0] over any price that does not fall as
    volatility rises. */
module ImpliedVol {

  const LOWEST: real := 0.01
  const HIGHEST: real := 2.0
  const STEPS: nat := 80

  datatype Interval = Interval(lo: real, hi: real)
  {
    function Mid(): real { (lo + hi) / 2.0 }
    function Width(): real { hi - lo }
  }

  const WHOLE: Interval := Interval(LOWEST, HIGHEST)

  ghost predicate Nondecreasing(price: real -> real) {
    forall a, b :: a <= b ==> price(a) <= price(b)
  }

  ghost predicate Increasing(price: real -> real) {
    forall a, b :: a < b ==> price(a) < price(b)
  }

  predicate Brackets(price: real -> real, i: Interval, target: real) {
    price(i.lo) <= target <= price(i.hi)
  }

  function Half(price: real -> real, target: real, i: Interval): Interval {
    if price(i.Mid()) > target then i.(hi := i.Mid()) else i.(lo := i.Mid())
  }

  function Bisect(price: real -> real, target: real, i: Interval, steps: nat): Interval {
    if steps == 0 then i else Half(price, target, Bisect(price, target, i, steps - 1))
  }

  function Pow2(n: nat): (r: real)
    ensures r >= 1.0
  {
    if n == 0 then 1.0 else 2.0 * Pow2(n - 1)
  }

  method SolveIv(price: real -> real, target: real) returns (vol: real)
    ensures vol == Bisect(price, target, WHOLE, STEPS).Mid()
  {
    var lo, hi := LOWEST, HIGHEST;
    for n := 0 to STEPS
      invariant Interval(lo, hi) == Bisect(price, target, WHOLE, n)
    {
      var mid := (lo + hi) / 2.0;
      if price(mid) > target { hi := mid; } else { lo := mid; }
    }
    return (lo + hi) / 2.0;
  }

  /** Each step halves the interval and stays inside the one before. */
  lemma {:induction false} WidthHalves(price: real -> real, target: real, i: Interval, steps: nat)
    requires i.lo <= i.hi
    ensures var r := Bisect(price, target, i, steps);
      i.lo <= r.lo <= r.hi <= i.hi && r.Width() == i.Width() / Pow2(steps)
  {
    if steps > 0 {
      WidthHalves(price, target, i, steps - 1);
      Halved(i.Width(), Pow2(steps - 1));
    }
  }

  lemma Halved(w: real, p: real)
    requires p > 0.0
    ensures w / p / 2.0 == w / (2.0 * p)
  {
    var q := w / (2.0 * p);
    assert q * (2.0 * p) == w;
    assert (2.0 * q) * p == w;
  }

  /** A bracketing interval is kept by every step; a step never makes one out of an interval that is not. */
  lemma {:induction false} BracketKeptIff(price: real -> real, target: real, i: Interval, steps: nat)
    requires Nondecreasing(price) && i.lo <= i.hi
    ensures Brackets(price, Bisect(price, target, i, steps), target) <==> Brackets(price, i, target)
    ensures price(i.lo) > target ==> Bisect(price, target, i, steps).lo == i.lo
    ensures price(i.hi) < target ==> Bisect(price, target, i, steps).hi == i.hi
  {
    if steps > 0 {
      BracketKeptIff(price, target, i, steps - 1);
      WidthHalves(price, target, i, steps - 1);
      HalfKeepsBracket(price, target, i, Bisect(price, target, i, steps - 1));
    }
  }

  /** One halving of an interval r inside i. */
  lemma HalfKeepsBracket(price: real -> real, target: real, i: Interval, r: Interval)
    requires Nondecreasing(price) && i.lo <= r.lo <= r.hi <= i.hi
    ensures Brackets(price, Half(price, target, r), target) <==> Brackets(price, r, target)
    ensures price(i.lo) > target && r.lo == i.lo ==> Half(price, target, r).lo == i.lo
    ensures price(i.hi) < target && r.hi == i.hi ==> Half(price, target, r).hi == i.hi
  {
    assert r.lo <= r.Mid() <= r.hi;
    assert price(r.lo) <= price(r.Mid()) <= price(r.hi);
  }

  /** The answer is the midpoint of an interval exactly 1.99 / 2^80 wide, which brackets the target exactly
      when the whole range does. */
  lemma SolverInterval(price: real -> real, target: real)
    requires Nondecreasing(price)
    ensures var r := Bisect(price, target, WHOLE, STEPS);
      && r.hi - r.lo == 1.99 / Pow2(80) && LOWEST <= r.lo <= r.hi <= HIGHEST
      && (Brackets(price, r, target) <==> Brackets(price, WHOLE, target))
  {
    WidthHalves(price, target, WHOLE, STEPS);
    BracketKeptIff(price, target, WHOLE, STEPS);
  }

  /** With the target bracketed, prices cross it within half an interval of the answer: any volatility
      farther below is priced at most at the target, any farther above at least at it. A volatility that
      is priced exactly at the target is that close when the price rises strictly. */
  lemma SolverAccuracy(price: real -> real, target: real, v: real)
    requires Nondecreasing(price) && Brackets(price, WHOLE, target)
    ensures var vol := Bisect(price, target, WHOLE, STEPS).Mid();
      var half := 1.99 / Pow2(80) / 2.0;
      && (v <= vol - half ==> price(v) <= target)
      && (v >= vol + half ==> price(v) >= target)
      && (Increasing(price) && price(v) == target ==> vol - half <= v <= vol + half)
  {
    SolverInterval(price, target);
    var r := Bisect(price, target, WHOLE, STEPS);
    var half := 1.99 / Pow2(80) / 2.0;
    assert r.Mid() - half == r.lo && r.Mid() + half == r.hi;
  }

  /** A target outside the range sends the answer to the nearer end. */
  lemma {:induction false} OutsideTheRange(price: real -> real, target: real, i: Interval, steps: nat)
    requires Nondecreasing(price) && i.lo <= i.hi && steps > 0
    ensures price(i.lo) > target ==>
      Bisect(price, target, i, steps).Mid() == i.lo + i.Width() / Pow2(steps + 1)
    ensures price(i.hi) <= target ==>
      Bisect(price, target, i, steps).Mid() == i.hi - i.Width() / Pow2(steps + 1)
  {
    WidthHalves(price, target, i, steps);
    BracketKeptIff(price, target, i, steps);
    if price(i.hi) <= target { TopEnd(price, target, i, steps); }
    Halved(i.Width(), Pow2(steps));
  }

  lemma {:induction false} TopEnd(price: real -> real, target: real, i: Interval, steps: nat)
    requires Nondecreasing(price) && i.lo <= i.hi && price(i.hi) <= target
    ensures Bisect(price, target, i, steps).hi == i.hi
  {
    if steps > 0 {
      TopEnd(price, target, i, steps - 1);
      WidthHalves(price, target, i, steps - 1);
      assert price(Bisect(price, target, i, steps - 1).Mid()) <= price(i.hi);
    }
  }
}
