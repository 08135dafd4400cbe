/** Weekly and monthly expiries over numbered days and months. Nothing here depends on the lengths of the
    months beyond their having 28 to 31 days. */
module ExpiryMonths {

  datatype Flag = WEEK | MONTH

  /** Monday is 0; day 1 is a Monday. */
  function Weekday(n: int): int { (n + 6) % 7 }

  /** The Tuesday of the seven days up to a day, and of the seven days from it. */
  function TuesdayUpTo(n: int): (t: int)
    ensures n - 7 < t <= n && Weekday(t) == 1
  {
    n - (Weekday(n) - 1) % 7
  }

  function TuesdayFrom(n: int): (t: int)
    ensures n <= t < n + 7 && Weekday(t) == 1
  {
    n + (1 - Weekday(n)) % 7
  }

  lemma TuesdaysApart(a: int, b: int)
    requires Weekday(a) == 1 && Weekday(b) == 1 && a < b
    ensures b - a >= 7 && (b < a + 14 ==> b == a + 7) && (21 < b - a < 42 ==> b - a in {28, 35})
  {
    var q, r := (a + 6) / 7, (b + 6) / 7;
    assert a + 6 == 7 * q + 1 && b + 6 == 7 * r + 1;
  }

  lemma WeekLater(t: int, weeks: int)
    requires Weekday(t) == 1
    ensures Weekday(t + 7 * weeks) == 1
  {
    assert t + 6 == 7 * ((t + 6) / 7) + 1;
    assert t + 7 * weeks + 6 == 7 * ((t + 6) / 7 + weeks) + 1;
  }

  /** The calendar's months: `start(m)` is the first day of month m. */
  datatype Months = Months(start: nat -> int)
  {
    predicate MonthFits(m: nat) { start(m) + 28 <= start(m + 1) <= start(m) + 31 }

    ghost predicate Valid() { start(0) == 1 && forall m: nat :: MonthFits(m) }

    predicate In(n: int, m: nat) { start(m) <= n < start(m + 1) }

    lemma {:induction false} Ascends(a: nat, b: nat)
      requires Valid() && a <= b
      ensures start(a) + 28 * (b - a) <= start(b)
    {
      if a < b {
        Ascends(a, b - 1);
        assert MonthFits(b - 1);
      }
    }

    lemma StartsAtOne(m: nat)
      requires Valid()
      ensures start(m) >= 1
    {
      Ascends(0, m);
    }

    lemma OneMonth(n: int, a: nat, b: nat)
      requires Valid() && In(n, a) && In(n, b)
      ensures a == b
    {
      if a < b {
        Ascends(a + 1, b);
      } else if b < a {
        Ascends(b + 1, a);
      }
    }

    // --- The last Tuesday -------------------------------------------------------------

    /** The last Tuesday of a month. */
    function Expiry(m: nat): int { TuesdayUpTo(start(m + 1) - 1) }

    predicate IsLastTuesday(n: int, m: nat) {
      In(n, m) && Weekday(n) == 1 && forall later :: n < later < start(m + 1) ==> Weekday(later) != 1
    }

    lemma ExpiryBounds(m: nat)
      requires Valid()
      ensures start(m + 1) - 7 <= Expiry(m) < start(m + 1) && In(Expiry(m), m) && Expiry(m) > start(m) + 20
    {
      assert MonthFits(m);
    }

    /** It is the only Tuesday of its month with no later Tuesday in it. */
    lemma LastTuesdayIsUnique(m: nat)
      requires Valid()
      ensures IsLastTuesday(Expiry(m), m)
      ensures forall n :: IsLastTuesday(n, m) ==> n == Expiry(m)
    {
      ExpiryBounds(m);
      forall later | Expiry(m) < later < start(m + 1) ensures Weekday(later) != 1 {
        if Weekday(later) == 1 { TuesdaysApart(Expiry(m), later); }
      }
    }

    /** Consecutive last Tuesdays are four or five weeks apart. */
    lemma ExpiryGap(m: nat)
      requires Valid()
      ensures Expiry(m + 1) - Expiry(m) in {28, 35}
    {
      ExpiryBounds(m);
      ExpiryBounds(m + 1);
      assert MonthFits(m + 1);
      TuesdaysApart(Expiry(m), Expiry(m + 1));
    }

    lemma ExpiryAscends(a: nat, b: nat)
      requires Valid() && a < b
      ensures Expiry(a) < Expiry(b)
    {
      ExpiryBounds(a);
      ExpiryBounds(b);
      Ascends(a + 1, b);
    }

    // --- The k-th expiry ----------------------------------------------------------------

    /** A weekly expiry is a Tuesday; a monthly one is a Tuesday whose next Tuesday is in another month. */
    ghost predicate IsExpiry(flag: Flag, n: int) {
      n >= 1 && Weekday(n) == 1 && (flag == MONTH ==> exists m: nat :: In(n, m) && !In(n + 7, m))
    }

    /** m is the first month whose expiry is not before the day, which falls in month `at`. */
    function FirstMonth(n: int, at: nat): nat { if Expiry(at) < n then at + 1 else at }

    /** The k-th expiry on or after day n of month `at`. */
    function Nth(flag: Flag, n: int, at: nat, k: nat): int
      requires k >= 1
    {
      if flag == WEEK then TuesdayFrom(n) + 7 * (k - 1) else Expiry(FirstMonth(n, at) + k - 1)
    }

    lemma ExpiryIsExpiry(m: nat)
      requires Valid()
      ensures IsExpiry(MONTH, Expiry(m))
    {
      ExpiryBounds(m);
      StartsAtOne(m);
      assert In(Expiry(m), m) && !In(Expiry(m) + 7, m);
    }

    lemma ExpiryOfMonth(n: int) returns (m: nat)
      requires Valid() && IsExpiry(MONTH, n)
      ensures n == Expiry(m)
    {
      m :| In(n, m) && !In(n + 7, m);
      ExpiryBounds(m);
      if n < Expiry(m) {
        TuesdaysApart(n, Expiry(m));
      } else if Expiry(m) < n {
        TuesdaysApart(Expiry(m), n);
      }
    }

    /** Months before the first one expire before the day, later ones after the first. */
    lemma AroundFirst(n: int, at: nat, m: nat)
      requires Valid() && In(n, at)
      ensures Expiry(FirstMonth(n, at)) >= n
      ensures m < FirstMonth(n, at) ==> Expiry(m) < n
      ensures m > FirstMonth(n, at) ==> Expiry(m) > Expiry(FirstMonth(n, at))
    {
      var first := FirstMonth(n, at);
      if first == at + 1 {
        ExpiryBounds(at + 1);
      }
      if m > first {
        ExpiryAscends(first, m);
      } else if m < at {
        ExpiryBounds(m);
        Ascends(m + 1, at);
      }
    }

    /** The first expiry on or after a day: nothing is skipped. */
    lemma FirstIsNext(flag: Flag, n: int, at: nat)
      requires Valid() && n >= 1 && In(n, at)
      ensures Nth(flag, n, at, 1) >= n && IsExpiry(flag, Nth(flag, n, at, 1))
      ensures forall e :: n <= e < Nth(flag, n, at, 1) ==> !IsExpiry(flag, e)
    {
      var first := Nth(flag, n, at, 1);
      if flag == MONTH {
        AroundFirst(n, at, at);
        ExpiryIsExpiry(FirstMonth(n, at));
      }
      forall e | n <= e < first ensures !IsExpiry(flag, e) {
        if IsExpiry(flag, e) {
          if flag == WEEK {
            TuesdaysApart(e, first);
          } else {
            var m := ExpiryOfMonth(e);
            AroundFirst(n, at, m);
          }
        }
      }
    }

    /** Counting on from the day after the k-th expiry gives the next one. */
    lemma NextAfter(flag: Flag, n: int, at: nat, k: nat, after: nat)
      requires Valid() && n >= 1 && In(n, at) && k >= 1
      requires In(Nth(flag, n, at, k) + 1, after)
      ensures Nth(flag, n, at, k + 1) == Nth(flag, Nth(flag, n, at, k) + 1, after, 1)
      ensures Nth(flag, n, at, k) < Nth(flag, n, at, k + 1)
    {
      var e := Nth(flag, n, at, k);
      if flag == WEEK {
        WeekLater(TuesdayFrom(n), k - 1);
        TuesdaysApart(e, TuesdayFrom(e + 1));
      } else {
        var m := FirstMonth(n, at) + k - 1;
        FirstMonthAfter(m, after);
        ExpiryAscends(m, m + 1);
      }
    }

    lemma FirstMonthAfter(m: nat, after: nat)
      requires Valid() && In(Expiry(m) + 1, after)
      ensures FirstMonth(Expiry(m) + 1, after) == m + 1
    {
      ExpiryBounds(m);
      assert MonthFits(m + 1);
      if Expiry(m) + 1 < start(m + 1) {
        OneMonth(Expiry(m) + 1, after, m);
      } else {
        OneMonth(Expiry(m) + 1, after, m + 1);
        ExpiryBounds(m + 1);
      }
    }

    ghost function ExpiriesIn(flag: Flag, from: int, to: int): set<int> {
      set n | from <= n < to && IsExpiry(flag, n)
    }

    lemma OneMoreExpiry(flag: Flag, n: int, a: int, b: int)
      requires n <= a < b && IsExpiry(flag, a)
      requires forall e :: a + 1 <= e < b ==> !IsExpiry(flag, e)
      ensures |ExpiriesIn(flag, n, b)| == |ExpiriesIn(flag, n, a)| + 1
    {
      assert ExpiriesIn(flag, n, b) == ExpiriesIn(flag, n, a) + {a};
    }

    /** Every day from day 1 on is in some month. */
    lemma {:induction false} MonthFound(n: int, from: nat) returns (m: nat)
      requires Valid() && start(from) <= n
      ensures In(n, m)
      decreases n - start(from)
    {
      assert MonthFits(from);
      if n < start(from + 1) { m := from; } else { m := MonthFound(n, from + 1); }
    }

    /** For every k it is the k-th: an expiry on or after the day with exactly k - 1 expiries before it. */
    lemma {:induction false} NthIsKth(flag: Flag, n: int, at: nat, k: nat)
      requires Valid() && n >= 1 && In(n, at) && k >= 1
      ensures var e := Nth(flag, n, at, k);
        e >= n && IsExpiry(flag, e) && |ExpiriesIn(flag, n, e)| == k - 1
    {
      if k == 1 {
        FirstIsNext(flag, n, at);
        assert ExpiriesIn(flag, n, Nth(flag, n, at, 1)) == {};
      } else {
        NthIsKth(flag, n, at, k - 1);
        var e := Nth(flag, n, at, k - 1);
        var after := MonthFound(e + 1, 0);
        NextAfter(flag, n, at, k - 1, after);
        FirstIsNext(flag, e + 1, after);
        OneMoreExpiry(flag, n, e, Nth(flag, n, at, k));
      }
    }

    /** Later codes give later expiries. */
    lemma NthIncreases(flag: Flag, n: int, at: nat, j: nat, k: nat)
      requires Valid() && 1 <= j < k
      ensures Nth(flag, n, at, j) < Nth(flag, n, at, k)
    {
      if flag == MONTH { ExpiryAscends(FirstMonth(n, at) + j - 1, FirstMonth(n, at) + k - 1); }
    }

    /** Later days never give earlier expiries. */
    lemma NthMonotone(flag: Flag, a: int, atA: nat, b: int, atB: nat, k: nat)
      requires Valid() && 1 <= a <= b && In(a, atA) && In(b, atB) && k >= 1
      ensures Nth(flag, a, atA, k) <= Nth(flag, b, atB, k)
    {
      if flag == WEEK {
        if TuesdayFrom(b) < TuesdayFrom(a) { TuesdaysApart(TuesdayFrom(b), TuesdayFrom(a)); }
      } else {
        AroundFirst(b, atB, FirstMonth(b, atB));
        AroundFirst(a, atA, FirstMonth(b, atB));
        var m, later := FirstMonth(a, atA) + k - 1, FirstMonth(b, atB) + k - 1;
        if m < later { ExpiryAscends(m, later); }
      }
    }

    /** The near expiry of an expiry day is that day. */
    lemma NearIsIdempotent(flag: Flag, n: int, at: nat, there: nat)
      requires Valid() && n >= 1 && In(n, at) && In(Nth(flag, n, at, 1), there)
      ensures Nth(flag, Nth(flag, n, at, 1), there, 1) == Nth(flag, n, at, 1)
    {
      FirstIsNext(flag, n, at);
      FirstIsNext(flag, Nth(flag, n, at, 1), there);
    }
  }
}
