/** The proleptic Gregorian calendar, and the expiry dates computed on it. Days are counted from 1 January
    of year 1, which is day 1. */
module ExpiryCalendar {
  import opened Wrappers
  import opened ExpiryMonths

  datatype Date = Date(year: int, month: int, day: int)

  predicate IsLeap(year: int) { year % 4 == 0 && (year % 100 != 0 || year % 400 == 0) }

  function DaysInMonth(year: int, month: int): (n: int)
    ensures 28 <= n <= 31
  {
    if month == 2 then (if IsLeap(year) then 29 else 28)
    else if month == 4 || month == 6 || month == 9 || month == 11 then 30 else 31
  }

  const MAX_YEAR: int := 9999

  /** The number of 31 December of the last year. */
  const MAX_ORDINAL: int := 3652059

  predicate Valid(d: Date) {
    1 <= d.year <= MAX_YEAR && 1 <= d.month <= 12 && 1 <= d.day <= DaysInMonth(d.year, d.month)
  }

  // --- Months and days as numbers ---------------------------------------------------

  /** Months since January of year 1. */
  function MonthIndex(year: int, month: int): int { 12 * (year - 1) + month - 1 }

  function Days(m: nat): (n: int)
    ensures 28 <= n <= 31
  {
    DaysInMonth(m / 12 + 1, m % 12 + 1)
  }

  /** The number of the first day of a month. */
  function MonthStart(m: nat): int { if m == 0 then 1 else MonthStart(m - 1) + Days(m - 1) }

  function Gregorian(): Months { Months((m: nat) => MonthStart(m)) }

  lemma GregorianMonths()
    ensures Gregorian().Valid()
  {
    forall m: nat ensures Gregorian().MonthFits(m) {
      assert MonthStart(m + 1) == MonthStart(m) + Days(m);
    }
  }

  /** The month a day falls in. */
  function MonthOf(n: int): (m: nat)
    requires n >= 1
    ensures MonthStart(m) <= n < MonthStart(m + 1)
  {
    MonthFrom(n, 0)
  }

  function MonthFrom(n: int, from: nat): (m: nat)
    requires MonthStart(from) <= n
    ensures MonthStart(m) <= n < MonthStart(m + 1)
    decreases n - MonthStart(from)
  {
    if n < MonthStart(from + 1) then from else MonthFrom(n, from + 1)
  }

  function Ordinal(d: Date): int
    requires d.year >= 1 && 1 <= d.month <= 12
  {
    MonthStart(MonthIndex(d.year, d.month)) + d.day - 1
  }

  /** The date of a day number, if it is one the calendar can represent. */
  function FromOrdinal(n: int): Option<Date> {
    if n < 1 || n > MAX_ORDINAL then None else Some(DayOf(MonthOf(n), n))
  }

  function DayOf(m: nat, n: int): Date { Date(m / 12 + 1, m % 12 + 1, n - MonthStart(m) + 1) }

  lemma DateInMonth(d: Date)
    requires Valid(d)
    ensures Ordinal(d) >= 1 && Gregorian().In(Ordinal(d), MonthIndex(d.year, d.month))
  {
    var m := MonthIndex(d.year, d.month);
    assert MonthStart(m + 1) == MonthStart(m) + DaysInMonth(d.year, d.month) by { IndexParts(d.year, d.month); }
    StartIsPositive(m);
  }

  lemma StartIsPositive(m: nat)
    ensures MonthStart(m) >= 1
  {
    GregorianMonths();
    Gregorian().StartsAtOne(m);
  }

  lemma IndexParts(year: int, month: int)
    requires year >= 1 && 1 <= month <= 12
    ensures MonthIndex(year, month) / 12 + 1 == year && MonthIndex(year, month) % 12 + 1 == month
  {
  }

  lemma MonthOfDate(d: Date)
    requires Valid(d)
    ensures Ordinal(d) >= 1 && MonthOf(Ordinal(d)) == MonthIndex(d.year, d.month)
  {
    DateInMonth(d);
    GregorianMonths();
    Gregorian().OneMonth(Ordinal(d), MonthOf(Ordinal(d)), MonthIndex(d.year, d.month));
  }

  lemma DateWithinCalendar(d: Date)
    requires Valid(d)
    ensures 1 <= Ordinal(d) <= MAX_ORDINAL
  {
    DateInMonth(d);
    DaysWithinCalendar(MonthIndex(d.year, d.month));
  }

  /** Dates and day numbers correspond one to one. */
  lemma OrdinalRoundTrip(d: Date)
    requires Valid(d)
    ensures FromOrdinal(Ordinal(d)) == Some(d)
  {
    DateWithinCalendar(d);
    MonthOfDate(d);
    assert DayOf(MonthIndex(d.year, d.month), Ordinal(d)) == d by {
      IndexParts(d.year, d.month);
    }
  }

  lemma DateRoundTrip(n: int)
    requires 1 <= n <= MAX_ORDINAL
    ensures FromOrdinal(n).Some? && Valid(FromOrdinal(n).value) && Ordinal(FromOrdinal(n).value) == n
  {
    var m := MonthOf(n);
    assert MonthStart(m + 1) == MonthStart(m) + Days(m);
    DaysWithinCalendar(m);
    assert MonthIndex(m / 12 + 1, m % 12 + 1) == m;
  }

  /** The months before the end of the calendar are those that start no later than its last day. */
  lemma DaysWithinCalendar(m: nat)
    ensures if m < 12 * MAX_YEAR then MonthStart(m + 1) <= MAX_ORDINAL + 1 else MonthStart(m) > MAX_ORDINAL
  {
    var years: nat := MAX_YEAR;
    YearStart(years);
    GregorianMonths();
    if m < 12 * years {
      Gregorian().Ascends(m + 1, 12 * years);
    } else {
      Gregorian().Ascends(12 * years, m);
    }
  }

  function LeapDays(y: int): int { y / 4 - y / 100 + y / 400 }

  /** The closed formula for the first day of a year. */
  lemma {:induction false} YearStart(y: nat)
    ensures MonthStart(12 * y) == 1 + 365 * y + LeapDays(y)
  {
    if y > 0 {
      YearStart(y - 1);
      TwelveMonths(y - 1);
      OneMoreYear(y);
    }
  }

  lemma OneMoreYear(y: nat)
    requires y > 0
    ensures LeapDays(y) == LeapDays(y - 1) + (if IsLeap(y) then 1 else 0)
  {
    Step4(y);
    Step100(y);
    Step400(y);
    Multiples(y);
  }

  lemma Multiples(y: nat)
    ensures y % 400 == 0 ==> y % 100 == 0
    ensures y % 100 == 0 ==> y % 4 == 0
  {
    assert y % 400 == 0 ==> y == 100 * (4 * (y / 400));
    assert y % 100 == 0 ==> y == 4 * (25 * (y / 100));
  }

  lemma Step4(y: nat)
    requires y > 0
    ensures y / 4 == (y - 1) / 4 + (if y % 4 == 0 then 1 else 0)
  {
  }

  lemma Step100(y: nat)
    requires y > 0
    ensures y / 100 == (y - 1) / 100 + (if y % 100 == 0 then 1 else 0)
  {
  }

  lemma Step400(y: nat)
    requires y > 0
    ensures y / 400 == (y - 1) / 400 + (if y % 400 == 0 then 1 else 0)
  {
  }

  lemma StartStep(y: nat, i: nat)
    requires i < 12
    ensures MonthStart(12 * y + i + 1) == MonthStart(12 * y + i) + DaysInMonth(y + 1, i + 1)
  {
    assert (12 * y + i) / 12 == y && (12 * y + i) % 12 == i;
  }

  lemma Quarter(y: nat, i: nat)
    requires i <= 9
    ensures MonthStart(12 * y + i + 3) == MonthStart(12 * y + i)
      + DaysInMonth(y + 1, i + 1) + DaysInMonth(y + 1, i + 2) + DaysInMonth(y + 1, i + 3)
  {
    StartStep(y, i);
    StartStep(y, i + 1);
    StartStep(y, i + 2);
  }

  lemma TwelveMonths(y: nat)
    ensures MonthStart(12 * y + 12) == MonthStart(12 * y) + (if IsLeap(y + 1) then 366 else 365)
  {
    Quarter(y, 0);
    Quarter(y, 3);
    Quarter(y, 6);
    Quarter(y, 9);
  }

  // --- Expiry dates -------------------------------------------------------------------

  function NextMonth(year: int, month: int): (int, int) {
    (year + (if month == 12 then 1 else 0), month % 12 + 1)
  }

  /** None where the first day of the next month cannot be represented. */
  function LastTuesday(year: int, month: int): Option<Date>
    requires year >= 1 && 1 <= month <= 12
  {
    var (y, m) := NextMonth(year, month);
    if y > MAX_YEAR then None else FromOrdinal(TuesdayUpTo(Ordinal(Date(y, m, 1)) - 1))
  }

  lemma NextMonthStarts(year: int, month: int)
    requires year >= 1 && 1 <= month <= 12
    ensures var (y, m) := NextMonth(year, month);
      && y >= 1 && 1 <= m <= 12
      && TuesdayUpTo(Ordinal(Date(y, m, 1)) - 1) == Gregorian().Expiry(MonthIndex(year, month))
      && (y > MAX_YEAR <==> MonthIndex(year, month) >= MonthIndex(MAX_YEAR, 12))
  {
    var (y, m) := NextMonth(year, month);
    assert MonthIndex(y, m) == MonthIndex(year, month) + 1;
  }

  lemma ExpiryWithinCalendar(m: nat)
    requires m < MonthIndex(MAX_YEAR, 12)
    ensures 1 <= Gregorian().Expiry(m) <= MAX_ORDINAL
  {
    GregorianMonths();
    Gregorian().ExpiryBounds(m);
    Gregorian().StartsAtOne(m);
    DaysWithinCalendar(m);
  }

  lemma LastTuesdayIsExpiry(year: int, month: int)
    requires year >= 1 && 1 <= month <= 12
    ensures var m := MonthIndex(year, month);
      var r := LastTuesday(year, month);
      && (r.Some? <==> m < MonthIndex(MAX_YEAR, 12))
      && (r.Some? ==> Valid(r.value) && Ordinal(r.value) == Gregorian().Expiry(m))
  {
    var m := MonthIndex(year, month);
    NextMonthStarts(year, month);
    if m < MonthIndex(MAX_YEAR, 12) {
      ExpiryWithinCalendar(m);
      DateRoundTrip(Gregorian().Expiry(m));
    }
  }

  /** The month whose expiry a code points at; codes below 1 count as 1. */
  function TargetMonth(d: Date, code: int): nat
    requires Valid(d)
  {
    Gregorian().FirstMonth(Ordinal(d), MonthIndex(d.year, d.month)) + (if code >= 1 then code - 1 else 0)
  }

  /** The day number of the expiry that a code points at; a code below 1 steps back week by week for
      weekly expiries. */
  function ExpiryNumber(d: Date, flag: Flag, code: int): int
    requires Valid(d)
  {
    if flag == WEEK then TuesdayFrom(Ordinal(d)) + 7 * (code - 1) else Gregorian().Expiry(TargetMonth(d, code))
  }

  /** For weekly expiries both the first Tuesday and the result lie in the calendar; monthly ones end a month
      before it. */
  predicate Representable(d: Date, flag: Flag, code: int)
    requires Valid(d)
  {
    if flag == WEEK then TuesdayFrom(Ordinal(d)) <= MAX_ORDINAL && 1 <= ExpiryNumber(d, WEEK, code) <= MAX_ORDINAL
    else TargetMonth(d, code) < MonthIndex(MAX_YEAR, 12)
  }

  /** A date outside the calendar is an error. */
  method ExpiryFor(d: Date, flag: Flag, code: int) returns (r: Option<Date>)
    requires Valid(d)
    ensures r.Some? <==> Representable(d, flag, code)
    ensures r.Some? ==> Valid(r.value) && Ordinal(r.value) == ExpiryNumber(d, flag, code)
  {
    if flag == WEEK {
      r := WeeklyExpiry(d, code);
    } else {
      r := MonthlyExpiry(d, code);
    }
  }

  method WeeklyExpiry(d: Date, code: int) returns (r: Option<Date>)
    requires Valid(d)
    ensures r.Some? <==> Representable(d, WEEK, code)
    ensures r.Some? ==> Valid(r.value) && Ordinal(r.value) == ExpiryNumber(d, WEEK, code)
  {
    DateWithinCalendar(d);
    var first := TuesdayFrom(Ordinal(d));
    if first > MAX_ORDINAL { return None; }
    var n := first + 7 * (code - 1);
    r := FromOrdinal(n);
    if r.Some? { DateRoundTrip(n); }
  }

  method MonthlyExpiry(d: Date, code: int) returns (r: Option<Date>)
    requires Valid(d)
    ensures r.Some? <==> Representable(d, MONTH, code)
    ensures r.Some? ==> Valid(r.value) && Ordinal(r.value) == ExpiryNumber(d, MONTH, code)
  {
    var y, m := d.year, d.month;
    var here := LastTuesday(y, m);
    StartMonth(d);
    if here.None? { return None; }
    if Ordinal(here.value) < Ordinal(d) {
      y, m := AddMonths(y, m, 1);
    }
    y, m := AddMonths(y, m, if code >= 1 then code - 1 else 0);
    assert MonthIndex(y, m) == TargetMonth(d, code);
    LastTuesdayIsExpiry(y, m);
    r := LastTuesday(y, m);
  }

  /** The comparison with this month's last Tuesday finds the first month. */
  lemma StartMonth(d: Date)
    requires Valid(d)
    ensures var here, at := LastTuesday(d.year, d.month), MonthIndex(d.year, d.month);
      && (here.Some? ==>
            Valid(here.value) && TargetMonth(d, 1) == if Ordinal(here.value) < Ordinal(d) then at + 1 else at)
      && (here.None? ==> TargetMonth(d, 1) >= MonthIndex(MAX_YEAR, 12))
  {
    LastTuesdayIsExpiry(d.year, d.month);
  }

  /** Month by month, with the year turning after December. */
  method AddMonths(year: int, month: int, count: nat) returns (y: int, m: int)
    requires year >= 1 && 1 <= month <= 12
    ensures y >= 1 && 1 <= m <= 12 && MonthIndex(y, m) == MonthIndex(year, month) + count
  {
    y, m := year, month;
    for i := 0 to count
      invariant y >= 1 && 1 <= m <= 12 && MonthIndex(y, m) == MonthIndex(year, month) + i
    {
      if m == 12 { y, m := y + 1, 1; } else { m := m + 1; }
    }
  }

  lemma ExpiryNumberIsNth(d: Date, flag: Flag, k: nat)
    requires Valid(d) && k >= 1
    ensures ExpiryNumber(d, flag, k) == Gregorian().Nth(flag, Ordinal(d), MonthIndex(d.year, d.month), k)
  {
  }

  /** On the real calendar: the expiry a code points at is the k-th of its kind on or after the date, and the
      next code points at a later one. */
  lemma ExpiryForIsKth(d: Date, flag: Flag, k: nat)
    requires Valid(d) && k >= 1
    ensures var e := ExpiryNumber(d, flag, k);
      && e >= Ordinal(d) && Gregorian().IsExpiry(flag, e)
      && |Gregorian().ExpiriesIn(flag, Ordinal(d), e)| == k - 1
    ensures ExpiryNumber(d, flag, k) < ExpiryNumber(d, flag, k + 1)
  {
    GregorianMonths();
    DateInMonth(d);
    ExpiryNumberIsNth(d, flag, k);
    ExpiryNumberIsNth(d, flag, k + 1);
    Gregorian().NthIsKth(flag, Ordinal(d), MonthIndex(d.year, d.month), k);
    Gregorian().NthIncreases(flag, Ordinal(d), MonthIndex(d.year, d.month), k, k + 1);
  }

  /** Later dates never give earlier expiries, and the near expiry of an expiry date is that date. */
  lemma ExpiryForIsMonotone(d: Date, later: Date, flag: Flag, k: nat)
    requires Valid(d) && Valid(later) && k >= 1
    ensures Ordinal(d) <= Ordinal(later) ==> ExpiryNumber(d, flag, k) <= ExpiryNumber(later, flag, k)
    ensures Ordinal(later) == ExpiryNumber(d, flag, 1) ==> ExpiryNumber(later, flag, 1) == Ordinal(later)
  {
    GregorianMonths();
    DateInMonth(d);
    DateInMonth(later);
    ExpiryNumberIsNth(d, flag, k);
    ExpiryNumberIsNth(later, flag, k);
    ExpiryNumberIsNth(d, flag, 1);
    ExpiryNumberIsNth(later, flag, 1);
    var n, at := Ordinal(d), MonthIndex(d.year, d.month);
    var after, there := Ordinal(later), MonthIndex(later.year, later.month);
    if n <= after { Gregorian().NthMonotone(flag, n, at, after, there, k); }
    if after == ExpiryNumber(d, flag, 1) { Gregorian().NearIsIdempotent(flag, n, at, there); }
  }

  // --- Codes below 1 ----------------------------------------------------------------------

  /** A weekly code below 1 goes back: to the Tuesday with exactly as many Tuesdays from it on before the date as the
      code is below 1. A monthly one is the near expiry. */
  lemma CodesBelowOne(d: Date, code: int, near: int)
    requires Valid(d) && code <= 0 && near == 1
    ensures ExpiryNumber(d, MONTH, code) == ExpiryNumber(d, MONTH, near)
    ensures var e := ExpiryNumber(d, WEEK, code);
      Weekday(e) == 1 && e < Ordinal(d) && |TuesdaysIn(e, Ordinal(d))| == 1 - code
  {
    assert TargetMonth(d, code) == TargetMonth(d, near);
    WeeksBack(Ordinal(d), code);
  }

  lemma WeeksBack(n: int, code: int)
    requires code <= 0
    ensures var e := TuesdayFrom(n) + 7 * (code - 1);
      Weekday(e) == 1 && e < n && |TuesdaysIn(e, n)| == 1 - code
  {
    WeekLater(TuesdayFrom(n), code - 1);
    TuesdaysBack(n, 1 - code);
  }

  ghost function TuesdaysIn(from: int, to: int): set<int> { set n | from <= n < to && Weekday(n) == 1 }

  lemma {:induction false} TuesdaysBack(n: int, weeks: nat)
    ensures |TuesdaysIn(TuesdayFrom(n) - 7 * weeks, n)| == weeks
  {
    var first := TuesdayFrom(n);
    if weeks == 0 {
      assert TuesdaysIn(first, n) == {};
    } else {
      TuesdaysBack(n, weeks - 1);
      var e := first - 7 * weeks;
      var back: int := weeks;
      WeekLater(first, -back);
      forall t | e < t < n && Weekday(t) == 1 ensures t >= e + 7 { TuesdaysApart(e, t); }
      assert TuesdaysIn(e, n) == TuesdaysIn(e + 7, n) + {e};
    }
  }

  // --- A known day ----------------------------------------------------------------------

  /** The first of August and of September of 2026. */
  lemma SummerOf2026(y: nat)
    requires y == 2025
    ensures MonthStart(12 * y + 7) == 739829 && MonthStart(12 * y + 8) == 739860
  {
    YearStart(y);
    Quarter(y, 0);
    Quarter(y, 3);
    StartStep(y, 6);
    StartStep(y, 7);
  }

  /** 25 August 2026 is a Tuesday, and September begins on the Tuesday after it. */
  lemma KnownTuesday(d: Date, y: nat)
    requires d.year == y + 1 && y == 2025 && d.month == 8 && d.day == 25
    ensures Weekday(Ordinal(d)) == 1
    ensures Ordinal(Date(d.year, d.month + 1, 1)) == Ordinal(d) + 7
  {
    SummerOf2026(y);
    assert MonthIndex(d.year, d.month) == 12 * y + 7 && MonthIndex(d.year, d.month + 1) == 12 * y + 8;
  }
}
