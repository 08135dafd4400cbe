/** Evaluation metrics and go-live gates of the signals track. */
module SignalReport {
  import opened Wrappers
  import opened SignalLedger

  datatype ClosedCycle = ClosedCycle(entry: Entry, exitPrice: real, exitDate: int, qty: int, exitSignal: Option<string>)
  {
    function Pnl(): real { (exitPrice - entry.premium) * qty as real }
  }

  function CycleOf(e: Entry, sale: Sale, signal: Option<string>): ClosedCycle {
    ClosedCycle(e, sale.row.price, sale.row.date, sale.row.quantity, signal)
  }

  /** The strict pairing of two query results: None when one of them runs out first. */
  method LoadClosedCycles(entries: seq<Entry>, sales: seq<Sale>, signals: nat -> Option<string>)
    returns (r: Option<seq<ClosedCycle>>)
    ensures r.Some? <==> |entries| == |sales|
    ensures r.Some? ==> |r.value| == |entries|
    ensures r.Some? ==> forall i :: 0 <= i < |entries| ==>
      r.value[i] == CycleOf(entries[i], sales[i], signals(entries[i].tradeId))
  {
    var cycles := [];
    var i := 0;
    while i < |entries| && i < |sales|
      invariant 0 <= i <= |entries| && i <= |sales| && |cycles| == i
      invariant forall j :: 0 <= j < i ==> cycles[j] == CycleOf(entries[j], sales[j], signals(entries[j].tradeId))
    {
      cycles := cycles + [CycleOf(entries[i], sales[i], signals(entries[i].tradeId))];
      i := i + 1;
    }
    return if |entries| == |sales| then Some(cycles) else None;
  }

  // --- Sums -----------------------------------------------------------------------

  function Pnls(cycles: seq<ClosedCycle>): (r: seq<real>)
    ensures |r| == |cycles| && forall i :: 0 <= i < |r| ==> r[i] == cycles[i].Pnl()
  {
    seq(|cycles|, i requires 0 <= i < |cycles| => cycles[i].Pnl())
  }

  function Sum(xs: seq<real>): real {
    if xs == [] then 0.0 else Sum(xs[..|xs| - 1]) + xs[|xs| - 1]
  }

  function Gains(xs: seq<real>): real {
    if xs == [] then 0.0
    else Gains(xs[..|xs| - 1]) + (if xs[|xs| - 1] > 0.0 then xs[|xs| - 1] else 0.0)
  }

  function Losses(xs: seq<real>): real {
    if xs == [] then 0.0
    else Losses(xs[..|xs| - 1]) + (if xs[|xs| - 1] < 0.0 then -xs[|xs| - 1] else 0.0)
  }

  function Winners(xs: seq<real>): (n: nat)
    ensures n <= |xs|
  {
    if xs == [] then 0 else Winners(xs[..|xs| - 1]) + (if xs[|xs| - 1] > 0.0 then 1 else 0)
  }

  function Losers(xs: seq<real>): nat {
    if xs == [] then 0 else Losers(xs[..|xs| - 1]) + (if xs[|xs| - 1] < 0.0 then 1 else 0)
  }

  lemma {:induction false} GainsMinusLosses(xs: seq<real>)
    ensures Sum(xs) == Gains(xs) - Losses(xs) && Gains(xs) >= 0.0 && Losses(xs) >= 0.0
    ensures Losers(xs) > 0 <==> Losses(xs) > 0.0
  {
    if xs != [] {
      GainsMinusLosses(xs[..|xs| - 1]);
    }
  }

  // --- The order of exit dates ---------------------------------------------------------

  predicate SortedByExit(cycles: seq<ClosedCycle>) {
    forall i, j :: 0 <= i < j < |cycles| ==> cycles[i].exitDate <= cycles[j].exitDate
  }

  function OnDate(cycles: seq<ClosedCycle>, date: int): seq<ClosedCycle> {
    if cycles == [] then []
    else OnDate(cycles[..|cycles| - 1], date)
         + (if cycles[|cycles| - 1].exitDate == date then [cycles[|cycles| - 1]] else [])
  }

  /** After the last cycle that exits no later. */
  function InsertByExit(sorted: seq<ClosedCycle>, c: ClosedCycle): seq<ClosedCycle> {
    if sorted == [] then [c]
    else
      var n := |sorted| - 1;
      if sorted[n].exitDate <= c.exitDate then sorted + [c] else InsertByExit(sorted[..n], c) + [sorted[n]]
  }

  function ByExitDate(cycles: seq<ClosedCycle>): seq<ClosedCycle> {
    if cycles == [] then [] else InsertByExit(ByExitDate(cycles[..|cycles| - 1]), cycles[|cycles| - 1])
  }

  predicate AllBy(cycles: seq<ClosedCycle>, date: int) {
    forall i :: 0 <= i < |cycles| ==> cycles[i].exitDate <= date
  }

  lemma {:induction false} InsertSorts(sorted: seq<ClosedCycle>, c: ClosedCycle, date: int)
    requires SortedByExit(sorted) && AllBy(sorted, date) && c.exitDate <= date
    ensures SortedByExit(InsertByExit(sorted, c)) && AllBy(InsertByExit(sorted, c), date)
  {
    if sorted != [] {
      var n := |sorted| - 1;
      if sorted[n].exitDate > c.exitDate {
        InsertSorts(sorted[..n], c, sorted[n].exitDate);
      }
    }
  }

  lemma {:induction false} InsertAdds(sorted: seq<ClosedCycle>, c: ClosedCycle)
    ensures multiset(InsertByExit(sorted, c)) == multiset(sorted) + multiset{c}
  {
    if sorted != [] {
      var n := |sorted| - 1;
      InsertAdds(sorted[..n], c);
      assert sorted == sorted[..n] + [sorted[n]];
    }
  }

  lemma {:induction false} InsertIsStable(sorted: seq<ClosedCycle>, c: ClosedCycle, date: int)
    requires SortedByExit(sorted)
    ensures OnDate(InsertByExit(sorted, c), date) == OnDate(sorted, date) + (if c.exitDate == date then [c] else [])
  {
    if sorted != [] {
      var n := |sorted| - 1;
      if sorted[n].exitDate <= c.exitDate {
        assert (sorted + [c])[..n + 1] == sorted;
      } else {
        InsertIsStable(sorted[..n], c, date);
        var before := InsertByExit(sorted[..n], c);
        assert (before + [sorted[n]])[..|before|] == before;
      }
    }
  }

  lemma {:induction false} SortSorts(cycles: seq<ClosedCycle>)
    ensures SortedByExit(ByExitDate(cycles))
  {
    if cycles != [] {
      var n := |cycles| - 1;
      SortSorts(cycles[..n]);
      var sorted := ByExitDate(cycles[..n]);
      var last := if sorted == [] || sorted[|sorted| - 1].exitDate < cycles[n].exitDate then cycles[n].exitDate
                  else sorted[|sorted| - 1].exitDate;
      InsertSorts(sorted, cycles[n], last);
    }
  }

  lemma {:induction false} SortPermutes(cycles: seq<ClosedCycle>)
    ensures multiset(ByExitDate(cycles)) == multiset(cycles)
  {
    if cycles != [] {
      var init, c := cycles[..|cycles| - 1], cycles[|cycles| - 1];
      var sorted := ByExitDate(init);
      assert multiset(sorted) == multiset(init) by { SortPermutes(init); }
      assert multiset(InsertByExit(sorted, c)) == multiset(sorted) + multiset{c} by { InsertAdds(sorted, c); }
      assert cycles == init + [c];
    }
  }

  lemma {:induction false} SortKeepsDates(cycles: seq<ClosedCycle>, date: int)
    ensures OnDate(ByExitDate(cycles), date) == OnDate(cycles, date)
  {
    if cycles != [] {
      var n := |cycles| - 1;
      SortKeepsDates(cycles[..n], date);
      SortSorts(cycles[..n]);
      InsertIsStable(ByExitDate(cycles[..n]), cycles[n], date);
    }
  }

  /** A stable sort: in order of exit date, the same cycles, and for each date in their original order. */
  lemma SortIsStable(cycles: seq<ClosedCycle>)
    ensures SortedByExit(ByExitDate(cycles))
    ensures multiset(ByExitDate(cycles)) == multiset(cycles)
    ensures forall date :: OnDate(ByExitDate(cycles), date) == OnDate(cycles, date)
  {
    SortSorts(cycles);
    SortPermutes(cycles);
    forall date ensures OnDate(ByExitDate(cycles), date) == OnDate(cycles, date) {
      SortKeepsDates(cycles, date);
    }
  }

  /** Sorting changes no total. */
  lemma {:induction false} InsertKeepsTotals(sorted: seq<ClosedCycle>, c: ClosedCycle)
    ensures Sum(Pnls(InsertByExit(sorted, c))) == Sum(Pnls(sorted)) + c.Pnl()
    ensures Losses(Pnls(InsertByExit(sorted, c))) == Losses(Pnls(sorted)) + (if c.Pnl() < 0.0 then -c.Pnl() else 0.0)
  {
    if sorted == [] {
      PnlsOfAppend([], c);
    } else {
      var n := |sorted| - 1;
      if sorted[n].exitDate <= c.exitDate {
        PnlsOfAppend(sorted, c);
      } else {
        InsertKeepsTotals(sorted[..n], c);
        PnlsOfAppend(InsertByExit(sorted[..n], c), sorted[n]);
        assert sorted[..n] + [sorted[n]] == sorted;
        PnlsOfAppend(sorted[..n], sorted[n]);
      }
    }
  }

  lemma PnlsOfAppend(cycles: seq<ClosedCycle>, c: ClosedCycle)
    ensures Sum(Pnls(cycles + [c])) == Sum(Pnls(cycles)) + c.Pnl()
    ensures Losses(Pnls(cycles + [c])) == Losses(Pnls(cycles)) + (if c.Pnl() < 0.0 then -c.Pnl() else 0.0)
  {
    var xs := Pnls(cycles + [c]);
    assert xs[..|cycles|] == Pnls(cycles) && xs[|cycles|] == c.Pnl();
  }

  lemma {:induction false} SortKeepsTotals(cycles: seq<ClosedCycle>)
    ensures Sum(Pnls(ByExitDate(cycles))) == Sum(Pnls(cycles))
    ensures Losses(Pnls(ByExitDate(cycles))) == Losses(Pnls(cycles))
  {
    if cycles != [] {
      var n := |cycles| - 1;
      SortKeepsTotals(cycles[..n]);
      InsertKeepsTotals(ByExitDate(cycles[..n]), cycles[n]);
      assert cycles == cycles[..n] + [cycles[n]];
      PnlsOfAppend(cycles[..n], cycles[n]);
    }
  }

  // --- Drawdown and streak --------------------------------------------------------------

  /** Equity after the first k results. */
  function Equity(xs: seq<real>, k: nat): real
    requires k <= |xs|
  {
    Sum(xs[..k])
  }

  /** The equity curve, from 0 before the first result. */
  function Curve(xs: seq<real>): (r: seq<real>)
    ensures |r| == |xs| + 1 && forall k :: 0 <= k <= |xs| ==> r[k] == Equity(xs, k)
  {
    seq(|xs| + 1, k requires 0 <= k <= |xs| => Equity(xs, k))
  }

  /** The largest fall from any point of the equity curve to any later one. */
  ghost predicate IsMaxDrawdown(xs: seq<real>, dd: real) { IsMaxFall(Curve(xs), dd) }

  ghost predicate IsMaxFall(c: seq<real>, dd: real) {
    && (forall i, j :: 0 <= i <= j < |c| ==> c[i] - c[j] <= dd)
    && (exists i, j :: 0 <= i <= j < |c| && c[i] - c[j] == dd)
  }

  ghost predicate IsPeak(c: seq<real>, peak: real) {
    peak in c && forall i :: 0 <= i < |c| ==> c[i] <= peak
  }

  ghost predicate LosingRun(xs: seq<real>, from: nat, to: nat) {
    from <= to <= |xs| && forall k :: from <= k < to ==> xs[k] < 0.0
  }

  /** The length of the longest unbroken run of losses. */
  ghost predicate IsLongestLosingRun(xs: seq<real>, length: nat) { IsLongestRunUpTo(xs, |xs|, length) }

  ghost predicate IsLongestRunUpTo(xs: seq<real>, n: nat, length: nat) {
    && (forall i: nat, j: nat :: j <= n && LosingRun(xs, i, j) ==> j - i <= length)
    && (exists i: nat, j: nat :: j <= n && LosingRun(xs, i, j) && j - i == length)
  }

  /** The run of losses that ends at n. */
  ghost predicate IsCurrentRun(xs: seq<real>, n: nat, length: nat)
    requires n <= |xs|
  {
    length <= n && LosingRun(xs, n - length, n) && (length < n ==> xs[n - length - 1] >= 0.0)
  }

  function Max(a: real, b: real): real { if b > a then b else a }

  /** The running values of the pass after k results. */
  datatype Pass = Pass(equity: real, peak: real, maxDd: real, streak: nat, maxStreak: nat)

  /** The pass has the equity, its peak and its largest fall over the first k results. */
  ghost predicate FallKnown(c: seq<real>, k: nat, p: Pass)
    requires k < |c|
  {
    p.equity == c[k] && IsPeak(c[..k + 1], p.peak) && IsMaxFall(c[..k + 1], p.maxDd)
  }

  ghost predicate RunKnown(xs: seq<real>, k: nat, p: Pass)
    requires k <= |xs|
  {
    IsCurrentRun(xs, k, p.streak) && IsLongestRunUpTo(xs, k, p.maxStreak)
  }

  /** A curve that starts at 0 and moves by one result at a time. */
  ghost predicate Accumulates(c: seq<real>, xs: seq<real>) {
    |c| == |xs| + 1 && c[0] == 0.0 && forall k :: 0 <= k < |xs| ==> c[k + 1] == c[k] + xs[k]
  }

  function Next(p: Pass, x: real): Pass {
    var equity := p.equity + x;
    var peak := Max(p.peak, equity);
    var streak := if x < 0.0 then p.streak + 1 else 0;
    Pass(equity, peak, Max(p.maxDd, peak - equity), streak, if streak > p.maxStreak then streak else p.maxStreak)
  }

  lemma FallNext(xs: seq<real>, c: seq<real>, k: nat, p: Pass)
    requires Accumulates(c, xs) && k < |xs| && FallKnown(c, k, p)
    ensures FallKnown(c, k + 1, Next(p, xs[k]))
  {
    FallOverCurve(c, k, p, Next(p, xs[k]).equity);
  }

  lemma FallOverCurve(c: seq<real>, k: nat, p: Pass, equity: real)
    requires k + 1 < |c| && c[k + 1] == equity && IsPeak(c[..k + 1], p.peak) && IsMaxFall(c[..k + 1], p.maxDd)
    ensures var peak := Max(p.peak, equity);
      IsPeak(c[..k + 2], peak) && IsMaxFall(c[..k + 2], Max(p.maxDd, peak - equity))
  {
    assert c[..k + 2] == c[..k + 1] + [equity];
    FallStep(c[..k + 1], equity, p.peak, p.maxDd);
  }

  lemma RunNext(xs: seq<real>, k: nat, p: Pass)
    requires k < |xs| && RunKnown(xs, k, p)
    ensures RunKnown(xs, k + 1, Next(p, xs[k]))
  {
    RunStep(xs, k, p.streak, p.maxStreak);
  }

  function PassOver(xs: seq<real>): Pass {
    if xs == [] then Pass(0.0, 0.0, 0.0, 0, 0) else Next(PassOver(xs[..|xs| - 1]), xs[|xs| - 1])
  }

  /** One pass over the results in exit order. */
  method DrawdownAndStreak(xs: seq<real>) returns (maxDd: real, maxStreak: nat)
    ensures IsMaxDrawdown(xs, maxDd) && IsLongestLosingRun(xs, maxStreak)
  {
    var equity, peak := 0.0, 0.0;
    var streak: nat := 0;
    maxDd, maxStreak := 0.0, 0;
    for k := 0 to |xs|
      invariant Pass(equity, peak, maxDd, streak, maxStreak) == PassOver(xs[..k])
    {
      assert xs[..k + 1][..k] == xs[..k];
      equity := equity + xs[k];
      peak := Max(peak, equity);
      maxDd := Max(maxDd, peak - equity);
      streak := if xs[k] < 0.0 then streak + 1 else 0;
      maxStreak := if streak > maxStreak then streak else maxStreak;
    }
    assert xs[..|xs|] == xs;
    PassIsRight(xs);
  }

  lemma PassIsRight(xs: seq<real>)
    ensures IsMaxDrawdown(xs, PassOver(xs).maxDd) && IsLongestLosingRun(xs, PassOver(xs).maxStreak)
  {
    var c := CurveOf(xs);
    FallAfter(xs, c, |xs|);
    RunAfter(xs, |xs|);
    assert xs[..|xs|] == xs && c[..|xs| + 1] == c;
  }

  lemma PassOverNext(xs: seq<real>, k: nat)
    requires k < |xs|
    ensures PassOver(xs[..k + 1]) == Next(PassOver(xs[..k]), xs[k])
  {
    assert xs[..k + 1][..k] == xs[..k];
  }

  lemma {:induction false} FallAfter(xs: seq<real>, c: seq<real>, k: nat)
    requires Accumulates(c, xs) && k <= |xs|
    ensures FallKnown(c, k, PassOver(xs[..k]))
  {
    if k == 0 {
      assert c[..1] == [0.0] && c[..1][0] - c[..1][0] == 0.0;
    } else {
      FallAfter(xs, c, k - 1);
      FallNext(xs, c, k - 1, PassOver(xs[..k - 1]));
      PassOverNext(xs, k - 1);
    }
  }

  lemma {:induction false} RunAfter(xs: seq<real>, k: nat)
    requires k <= |xs|
    ensures RunKnown(xs, k, PassOver(xs[..k]))
  {
    if k == 0 {
      assert LosingRun(xs, 0, 0);
    } else {
      RunAfter(xs, k - 1);
      RunNext(xs, k - 1, PassOver(xs[..k - 1]));
      PassOverNext(xs, k - 1);
    }
  }

  lemma CurveOf(xs: seq<real>) returns (c: seq<real>)
    ensures Accumulates(c, xs)
    ensures forall dd :: IsMaxFall(c, dd) ==> IsMaxDrawdown(xs, dd)
  {
    c := Curve(xs);
    forall k | 0 <= k < |xs| ensures c[k + 1] == c[k] + xs[k] {
      assert xs[..k + 1][..k] == xs[..k];
    }
  }

  lemma FallStep(c: seq<real>, x: real, peak: real, dd: real)
    requires IsPeak(c, peak) && IsMaxFall(c, dd)
    ensures var peak' := if x > peak then x else peak;
      IsPeak(c + [x], peak') && IsMaxFall(c + [x], if peak' - x > dd then peak' - x else dd)
  {
    var c' := c + [x];
    var top :| 0 <= top < |c| && c[top] == peak;
    var i, j :| 0 <= i <= j < |c| && c[i] - c[j] == dd;
    assert c'[top] == peak && c'[|c|] == x && c'[i] - c'[j] == dd;
  }

  lemma RunStep(xs: seq<real>, k: nat, streak: nat, longest: nat)
    requires k < |xs| && IsCurrentRun(xs, k, streak) && IsLongestRunUpTo(xs, k, longest)
    ensures var streak' := if xs[k] < 0.0 then streak + 1 else 0;
      IsCurrentRun(xs, k + 1, streak') && IsLongestRunUpTo(xs, k + 1, if streak' > longest then streak' else longest)
  {
    var streak' := if xs[k] < 0.0 then streak + 1 else 0;
    assert LosingRun(xs, k + 1 - streak', k + 1);
    forall i: nat, j: nat | j == k + 1 && LosingRun(xs, i, j) ensures j - i <= streak' {
      assert streak' <= k ==> xs[k - streak'] >= 0.0;
    }
    var i: nat, j: nat :| j <= k && LosingRun(xs, i, j) && j - i == longest;
    assert j <= k + 1;
  }

  /** No fall of the curve is larger than all losses together. */
  lemma DrawdownWithinLosses(xs: seq<real>, dd: real)
    requires IsMaxDrawdown(xs, dd)
    ensures 0.0 <= dd <= Losses(xs)
  {
    var c := Curve(xs);
    assert c[0] - c[0] == 0.0;
    var i, j :| 0 <= i <= j < |c| && c[i] - c[j] == dd;
    FallWithinLosses(xs, i, j);
    LossesGrow(xs, j);
  }

  lemma {:induction false} FallWithinLosses(xs: seq<real>, i: nat, j: nat)
    requires i <= j <= |xs|
    ensures Equity(xs, i) - Equity(xs, j) <= Losses(xs[..j])
  {
    if i == j {
      GainsMinusLosses(xs[..j]);
    } else {
      FallWithinLosses(xs, i, j - 1);
      assert xs[..j][..j - 1] == xs[..j - 1];
    }
  }

  lemma {:induction false} LossesGrow(xs: seq<real>, j: nat)
    requires j <= |xs|
    ensures Losses(xs[..j]) <= Losses(xs)
  {
    if j < |xs| {
      LossesGrow(xs[..|xs| - 1], j);
      assert xs[..|xs| - 1][..j] == xs[..j];
    } else {
      assert xs[..j] == xs;
    }
  }

  // --- Metrics ------------------------------------------------------------------------

  datatype Metrics = Metrics(n: nat, total: real, expectancy: real, profitFactor: Option<real>,
                             winRate: real, winRateByAction: map<string, real>, avgWin: real, avgLoss: real,
                             maxDrawdown: real, losingStreak: nat, exits: map<string, nat>, wins: nat, losses: nat)

  function Bucket(signal: Option<string>): string {
    if signal == Some("PROFIT_TARGET") then "TARGET"
    else if signal == Some("LOSS_STOP") then "STOP_LOSS"
    else if signal == Some("TIME_STOP") then "TIME_EXIT"
    else "OTHER"
  }

  function CountIn(cycles: seq<ClosedCycle>, bucket: string): nat {
    if cycles == [] then 0
    else CountIn(cycles[..|cycles| - 1], bucket)
         + (if Bucket(cycles[|cycles| - 1].exitSignal) == bucket then 1 else 0)
  }

  function Tally(exits: map<string, nat>, bucket: string): nat { if bucket in exits then exits[bucket] else 0 }

  function Percent(part: nat, whole: nat): real { if whole == 0 then 0.0 else 100.0 * part as real / whole as real }

  function OfAction(cycles: seq<ClosedCycle>, a: string): seq<ClosedCycle> {
    if cycles == [] then []
    else OfAction(cycles[..|cycles| - 1], a)
         + (if cycles[|cycles| - 1].entry.tradeAction == a then [cycles[|cycles| - 1]] else [])
  }

  /** Results per trade action, then the share of winners in each. */
  method WinRateByAction(cycles: seq<ClosedCycle>) returns (rates: map<string, real>)
    ensures forall a :: a in rates <==> OfAction(cycles, a) != []
    ensures forall a :: a in rates ==>
      rates[a] == Percent(Winners(Pnls(OfAction(cycles, a))), |OfAction(cycles, a)|)
  {
    var byAction: map<string, seq<ClosedCycle>> := map[];
    for i := 0 to |cycles|
      invariant forall a :: Cohort(byAction, a) == OfAction(cycles[..i], a)
      invariant forall a :: a in byAction ==> byAction[a] != []
    {
      assert cycles[..i + 1][..i] == cycles[..i];
      var a := cycles[i].entry.tradeAction;
      byAction := byAction[a := Cohort(byAction, a) + [cycles[i]]];
    }
    assert cycles[..|cycles|] == cycles;
    rates := map a | a in byAction :: Percent(Winners(Pnls(byAction[a])), |byAction[a]|);
    forall a ensures a in rates <==> OfAction(cycles, a) != [] {
      assert Cohort(byAction, a) == OfAction(cycles, a);
    }
  }

  function MeanLoss(losses: real, losers: nat): real { if losers > 0 then -losses / losers as real else 0.0 }

  /** What the metrics of a cohort mean. */
  ghost predicate Describes(m: Metrics, cycles: seq<ClosedCycle>) {
    var xs := Pnls(cycles);
    && m.n == |cycles| && m.total == Sum(xs)
    && m.wins == Winners(xs) && m.losses == Losers(xs)
    && m.expectancy == (if cycles == [] then 0.0 else Sum(xs) / |cycles| as real)
    && m.profitFactor == (if Losses(xs) > 0.0 then Some(Gains(xs) / Losses(xs)) else None)
    && m.winRate == Percent(Winners(xs), |xs|)
    && (forall a :: a in m.winRateByAction <==> OfAction(cycles, a) != [])
    && (forall a :: a in m.winRateByAction ==>
          m.winRateByAction[a] == Percent(Winners(Pnls(OfAction(cycles, a))), |OfAction(cycles, a)|))
    && m.avgWin == (if Winners(xs) > 0 then Gains(xs) / Winners(xs) as real else 0.0)
    && m.avgLoss == MeanLoss(Losses(xs), Losers(xs))
    && IsMaxDrawdown(Pnls(ByExitDate(cycles)), m.maxDrawdown)
    && IsLongestLosingRun(Pnls(ByExitDate(cycles)), m.losingStreak)
    && (forall bucket :: Tally(m.exits, bucket) == CountIn(cycles, bucket))
  }

  method ExitHistogram(cycles: seq<ClosedCycle>) returns (exits: map<string, nat>)
    ensures forall bucket :: Tally(exits, bucket) == CountIn(cycles, bucket)
  {
    exits := map[];
    for i := 0 to |cycles|
      invariant forall bucket :: Tally(exits, bucket) == CountIn(cycles[..i], bucket)
    {
      assert cycles[..i + 1][..i] == cycles[..i];
      var b := Bucket(cycles[i].exitSignal);
      exits := exits[b := Tally(exits, b) + 1];
    }
    assert cycles[..|cycles|] == cycles;
  }

  method ComputeMetrics(cycles: seq<ClosedCycle>) returns (m: Metrics)
    ensures Describes(m, cycles)
  {
    var xs := Pnls(cycles);
    GainsMinusLosses(xs);
    var total, gains, losses := Sum(xs), Gains(xs), Losses(xs);
    var losers := Losers(xs);
    var maxDd, streak := DrawdownAndStreak(Pnls(ByExitDate(cycles)));
    var exits := ExitHistogram(cycles);
    var rates := WinRateByAction(cycles);
    var winners := Winners(xs);
    m := Metrics(|cycles|, total,
                 if cycles == [] then 0.0 else total / |cycles| as real,
                 if losses > 0.0 then Some(gains / losses) else None,
                 Percent(winners, |cycles|), rates,
                 if winners > 0 then gains / winners as real else 0.0,
                 MeanLoss(losses, losers),
                 maxDd, streak, exits, winners, losers);
  }

  // --- Cohorts ------------------------------------------------------------------------

  function OfRuleset(cycles: seq<ClosedCycle>, v: string): seq<ClosedCycle> {
    if cycles == [] then []
    else OfRuleset(cycles[..|cycles| - 1], v)
         + (if cycles[|cycles| - 1].entry.ruleset == v then [cycles[|cycles| - 1]] else [])
  }

  function Cohort(grouped: map<string, seq<ClosedCycle>>, v: string): seq<ClosedCycle> {
    if v in grouped then grouped[v] else []
  }

  /** One cohort per version that occurs, each in the original order; versions are never pooled. */
  method ByRuleset(cycles: seq<ClosedCycle>) returns (grouped: map<string, seq<ClosedCycle>>)
    ensures forall v :: Cohort(grouped, v) == OfRuleset(cycles, v)
    ensures forall v :: v in grouped ==> grouped[v] != []
  {
    grouped := map[];
    for i := 0 to |cycles|
      invariant forall v :: Cohort(grouped, v) == OfRuleset(cycles[..i], v)
      invariant forall v :: v in grouped ==> grouped[v] != []
    {
      assert cycles[..i + 1][..i] == cycles[..i];
      var v := cycles[i].entry.ruleset;
      grouped := grouped[v := Cohort(grouped, v) + [cycles[i]]];
    }
    assert cycles[..|cycles|] == cycles;
  }

  function TotalOver(cycles: seq<ClosedCycle>, versions: seq<string>): real {
    if versions == [] then 0.0
    else TotalOver(cycles, versions[1..]) + Sum(Pnls(OfRuleset(cycles, versions[0])))
  }

  /** The cohorts' totals add up to the whole track's total. */
  lemma {:induction false} CohortTotalsAddUp(cycles: seq<ClosedCycle>, versions: seq<string>)
    requires forall i, j :: 0 <= i < j < |versions| ==> versions[i] != versions[j]
    requires forall c :: c in cycles ==> c.entry.ruleset in versions
    ensures TotalOver(cycles, versions) == Sum(Pnls(cycles))
  {
    if cycles == [] {
      NoCyclesNoTotal(versions);
    } else {
      var n := |cycles| - 1;
      CohortTotalsAddUp(cycles[..n], versions);
      OneMoreCycle(cycles, versions);
      assert cycles == cycles[..n] + [cycles[n]];
      PnlsOfAppend(cycles[..n], cycles[n]);
    }
  }

  lemma {:induction false} NoCyclesNoTotal(versions: seq<string>)
    ensures TotalOver([], versions) == 0.0
  {
    if versions != [] {
      NoCyclesNoTotal(versions[1..]);
    }
  }

  lemma {:induction false} OneMoreCycle(cycles: seq<ClosedCycle>, versions: seq<string>)
    requires cycles != [] && forall i, j :: 0 <= i < j < |versions| ==> versions[i] != versions[j]
    ensures TotalOver(cycles, versions) == TotalOver(cycles[..|cycles| - 1], versions)
      + (if cycles[|cycles| - 1].entry.ruleset in versions then cycles[|cycles| - 1].Pnl() else 0.0)
  {
    if versions != [] {
      OneMoreCycle(cycles, versions[1..]);
      var n := |cycles| - 1;
      PnlsOfAppend(OfRuleset(cycles[..n], versions[0]), cycles[n]);
      assert OfRuleset(cycles[..n], versions[0]) + [] == OfRuleset(cycles[..n], versions[0]);
      assert versions == [versions[0]] + versions[1..];
    }
  }

  // --- Gates --------------------------------------------------------------------------

  datatype Gates = Gates(window: bool, exitPath: bool, regime: bool, netPnl: bool, expectancy: bool,
                         profitFactor: bool, drawdown: bool, noOvernight: bool)

  predicate DrawdownPasses(avgLoss: real, maxDrawdown: real) {
    var limit := if avgLoss < 0.0 then 8.0 * -avgLoss else 0.0;
    limit > 0.0 && maxDrawdown <= limit
  }

  function EvaluateGate(cycles: seq<ClosedCycle>, m: Metrics): Gates {
    Gates(|cycles| >= 40,
          Tally(m.exits, "STOP_LOSS") >= 5 && Tally(m.exits, "TARGET") >= 5 && Tally(m.exits, "TIME_EXIT") >= 5,
          exists i :: 0 <= i < |cycles| && cycles[i].entry.vix.Some? && cycles[i].entry.vix.value > 18.0,
          m.total > 0.0,
          m.expectancy > 0.0,
          m.profitFactor.Some? && m.profitFactor.value >= 1.2,
          DrawdownPasses(m.avgLoss, m.maxDrawdown),
          forall i :: 0 <= i < |cycles| ==> cycles[i].exitDate == cycles[i].entry.signalDate)
  }

  /** Over every cohort: the total is gains minus losses, no drawdown exceeds the losses, the net-result and
      expectancy gates are the same gate, and the profit-factor gate implies both. */
  lemma GatesImplyEachOther(cycles: seq<ClosedCycle>, m: Metrics)
    requires Describes(m, cycles)
    ensures m.total == Gains(Pnls(cycles)) - Losses(Pnls(cycles))
    ensures 0.0 <= m.maxDrawdown <= Losses(Pnls(cycles))
    ensures var g := EvaluateGate(cycles, m);
      (g.netPnl <==> g.expectancy) && (g.profitFactor ==> g.netPnl && g.expectancy)
  {
    var xs := Pnls(cycles);
    GainsMinusLosses(xs);
    DrawdownWithinLosses(Pnls(ByExitDate(cycles)), m.maxDrawdown);
    SortKeepsTotals(cycles);
    if cycles != [] {
      SameSign(Sum(xs), |cycles| as real);
    }
    if m.profitFactor.Some? && m.profitFactor.value >= 1.2 {
      RatioAbove(Gains(xs), Losses(xs));
    }
  }

  lemma SameSign(x: real, n: real)
    requires n > 0.0
    ensures x / n > 0.0 <==> x > 0.0
  {
    var q := x / n;
    assert q * n == x;
  }

  lemma RatioAbove(a: real, b: real)
    requires b > 0.0 && a / b >= 1.2
    ensures a > b
  {
    var q := a / b;
    assert q * b == a;
    assert (q - 1.2) * b >= 0.0;
    assert (q - 1.2) * b == a - 1.2 * b;
  }

  /** The drawdown gate compares the drawdown with 8 average losses; it cannot pass without a loser. */
  lemma DrawdownGateIff(cycles: seq<ClosedCycle>, m: Metrics)
    requires Describes(m, cycles)
    ensures EvaluateGate(cycles, m).drawdown
       <==> m.losses > 0 && m.maxDrawdown * m.losses as real <= 8.0 * Losses(Pnls(cycles))
  {
    GainsMinusLosses(Pnls(cycles));
    EightAverages(m.losses, Losses(Pnls(cycles)), m.maxDrawdown);
  }

  lemma EightAverages(k: nat, total: real, dd: real)
    requires k > 0 ==> total > 0.0
    ensures DrawdownPasses(MeanLoss(total, k), dd) <==> k > 0 && dd * k as real <= 8.0 * total
  {
    if k > 0 {
      Average(k as real, total, dd);
    }
  }

  lemma Average(k: real, total: real, dd: real)
    requires k > 0.0 && total > 0.0
    ensures var average := -total / k;
      average < 0.0 && (dd <= 8.0 * -average <==> dd * k <= 8.0 * total)
  {
    var average := -total / k;
    assert average * k == -total;
    CompareTimes(0.0, average, k);
    CompareTimes(dd, 8.0 * -average, k);
    assert 8.0 * -average * k == 8.0 * total;
  }

  lemma CompareTimes(a: real, b: real, k: real)
    requires k > 0.0
    ensures a <= b <==> a * k <= b * k
  {
    assert (b - a) * k == b * k - a * k;
  }

  /** Up to eight losing trades the drawdown gate always passes; with none it always fails. */
  lemma FewLosersPassDrawdown(cycles: seq<ClosedCycle>, m: Metrics)
    requires Describes(m, cycles)
    ensures 1 <= m.losses <= 8 ==> EvaluateGate(cycles, m).drawdown
    ensures m.losses == 0 ==> !EvaluateGate(cycles, m).drawdown
  {
    GatesImplyEachOther(cycles, m);
    GainsMinusLosses(Pnls(cycles));
    FewLosersPass(m.losses, Losses(Pnls(cycles)), m.maxDrawdown);
  }

  lemma FewLosersPass(k: nat, total: real, dd: real)
    requires (k > 0 ==> total > 0.0) && 0.0 <= dd <= total
    ensures DrawdownPasses(MeanLoss(total, k), dd) <== 1 <= k <= 8
    ensures DrawdownPasses(MeanLoss(total, k), dd) ==> k > 0
  {
    EightAverages(k, total, dd);
    if 1 <= k <= 8 {
      AtMostEightTimes(k as real, total, dd);
    }
  }

  lemma AtMostEightTimes(k: real, total: real, dd: real)
    requires 0.0 < k <= 8.0 && 0.0 <= dd <= total
    ensures dd * k <= 8.0 * total
  {
    CompareTimes(dd, total, k);
    assert (8.0 - k) * total >= 0.0;
    assert (8.0 - k) * total == 8.0 * total - k * total;
  }

  /** Eight is the exact number: k equal losses and nothing else, whatever their size, pass the gate for k up to
      8 only. */
  lemma EqualLossesPassIff(cycles: seq<ClosedCycle>, m: Metrics, x: real)
    requires Describes(m, cycles) && cycles != [] && x < 0.0
    requires forall c :: c in cycles ==> c.Pnl() == x
    ensures EvaluateGate(cycles, m).drawdown <==> |cycles| <= 8
  {
    EqualLossesFall(cycles, m, x);
    TimesBound(|cycles|, x);
  }

  /** n equal amounts. */
  function Times(n: nat, x: real): real { if n == 0 then 0.0 else Times(n - 1, x) + x }

  lemma {:induction false} TimesBound(n: nat, x: real)
    requires x < 0.0
    ensures Times(8, x) == 8.0 * x
    ensures if n <= 8 then Times(n, x) >= 8.0 * x else Times(n, x) < 8.0 * x
  {
    TimesIsProduct(8, x);
    TimesFalls(n, 8, x);
  }

  lemma {:induction false} TimesFalls(n: nat, k: nat, x: real)
    requires x < 0.0
    ensures n <= k ==> Times(n, x) >= Times(k, x)
    ensures n > k ==> Times(n, x) < Times(k, x)
  {
    if n > k {
      if n - 1 > k { TimesFalls(n - 1, k, x); }
    } else if n < k {
      TimesFalls(n, k - 1, x);
    }
  }

  lemma {:induction false} TimesIsProduct(n: nat, x: real)
    ensures Times(n, x) == n as real * x
  {
    if n > 0 {
      TimesIsProduct(n - 1, x);
      assert (n - 1) as real * x + x == n as real * x;
    }
  }

  /** Equal losses in a row: the drawdown is all of them together, and each is the average. */
  lemma EqualLossesFall(cycles: seq<ClosedCycle>, m: Metrics, x: real)
    requires Describes(m, cycles) && cycles != [] && x < 0.0
    requires forall c :: c in cycles ==> c.Pnl() == x
    ensures m.maxDrawdown == -Times(|cycles|, x) && m.avgLoss == x
  {
    AllEqual(Pnls(cycles), x);
    assert MeanLoss(Losses(Pnls(cycles)), Losers(Pnls(cycles))) == x by { AverageOfEqual(|cycles|, x); }
    EqualDrawdown(Pnls(ByExitDate(cycles)), cycles, m.maxDrawdown, x);
  }

  lemma EqualDrawdown(ys: seq<real>, cycles: seq<ClosedCycle>, dd: real, x: real)
    requires ys == Pnls(ByExitDate(cycles)) && IsMaxDrawdown(ys, dd)
    requires Sum(Pnls(cycles)) == Times(|cycles|, x) && Losses(Pnls(cycles)) == -Times(|cycles|, x)
    ensures dd == -Times(|cycles|, x)
  {
    SortKeepsTotals(cycles);
    WholeFallIsAFall(ys, dd);
    DrawdownWithinLosses(ys, dd);
  }

  lemma AverageOfEqual(n: nat, x: real)
    requires n > 0
    ensures MeanLoss(-Times(n, x), n) == x
  {
    TimesIsProduct(n, x);
    OverItself(n as real, x);
  }

  lemma OverItself(n: real, x: real)
    requires n > 0.0
    ensures -(-(n * x)) / n == x
  {
    var q := -(-(n * x)) / n;
    assert q * n == n * x;
    CompareTimes(q, x, n);
    CompareTimes(x, q, n);
  }

  lemma WholeFallIsAFall(xs: seq<real>, dd: real)
    requires IsMaxDrawdown(xs, dd)
    ensures -Sum(xs) <= dd
  {
    var c := Curve(xs);
    assert xs[..|xs|] == xs;
    assert c[0] - c[|xs|] <= dd;
  }

  lemma {:induction false} AllEqual(xs: seq<real>, x: real)
    requires x < 0.0 && forall i :: 0 <= i < |xs| ==> xs[i] == x
    ensures Sum(xs) == Times(|xs|, x) && Losses(xs) == -Times(|xs|, x) && Losers(xs) == |xs|
  {
    if xs != [] {
      AllEqual(xs[..|xs| - 1], x);
    }
  }
}
