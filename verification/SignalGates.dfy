/** The gates and averages of the report counted off its cycles. */
module SignalGates {
  import opened Wrappers
  import opened SignalLedger
  import opened SignalReport
  import opened SignalCash

  lemma {:induction false} CountOfSignal(cycles: seq<ClosedCycle>, signal: string, bucket: string)
    requires forall s: Option<string> :: Bucket(s) == bucket <==> s == Some(signal)
    ensures CountIn(cycles, bucket) == |At(cycles, (c: ClosedCycle) => c.exitSignal == Some(signal))|
  {
    if cycles == [] {
      assert At(cycles, (c: ClosedCycle) => c.exitSignal == Some(signal)) == {};
    } else {
      var n := |cycles| - 1;
      CountOfSignal(cycles[..n], signal, bucket);
      OneMoreAt(cycles[..n], cycles[n], (c: ClosedCycle) => c.exitSignal == Some(signal));
      assert cycles[..n] + [cycles[n]] == cycles;
    }
  }

  lemma BucketsAreExits()
    ensures forall s: Option<string> :: Bucket(s) == "STOP_LOSS" <==> s == Some("LOSS_STOP")
    ensures forall s: Option<string> :: Bucket(s) == "TARGET" <==> s == Some("PROFIT_TARGET")
    ensures forall s: Option<string> :: Bucket(s) == "TIME_EXIT" <==> s == Some("TIME_STOP")
  {
    assert "TARGET"[0] != "STOP_LOSS"[0] && "TARGET"[1] != "TIME_EXIT"[1] && "STOP_LOSS"[0] != "TIME_EXIT"[0];
    assert "OTHER"[0] != "TARGET"[0] && "OTHER"[0] != "STOP_LOSS"[0] && "OTHER"[0] != "TIME_EXIT"[0];
    assert "PROFIT_TARGET"[0] != "LOSS_STOP"[0] && "PROFIT_TARGET"[0] != "TIME_STOP"[0];
    assert "LOSS_STOP"[0] != "TIME_STOP"[0];
  }

  /** The cycles that ended by a signal. */
  function EndedBy(cycles: seq<ClosedCycle>, signal: string): set<nat> {
    At(cycles, (c: ClosedCycle) => c.exitSignal == Some(signal))
  }

  /** Over every cohort: the window gate wants more than 39 cycles, the exit-path gate at least five ended by each of
      stop, target and time, the regime gate one entered at a VIX above 18, and the overnight gate no cycle that
      ended on another day than it began. */
  lemma GatesCountCycles(cycles: seq<ClosedCycle>, m: Metrics)
    requires Describes(m, cycles)
    ensures var g := EvaluateGate(cycles, m);
      && (g.window <==> |cycles| > 39)
      && (g.exitPath <==> |EndedBy(cycles, "LOSS_STOP")| >= 5 && |EndedBy(cycles, "PROFIT_TARGET")| >= 5
                          && |EndedBy(cycles, "TIME_STOP")| >= 5)
      && (g.regime <==> exists c :: c in cycles && c.entry.vix.Some? && c.entry.vix.value > 18.0)
      && (g.noOvernight <==> forall c :: c in cycles ==> c.exitDate == c.entry.signalDate)
  {
    ExitsAreCounted(cycles, m.exits);
    forall i | 0 <= i < |cycles| ensures cycles[i] in cycles {}
  }

  lemma ExitsAreCounted(cycles: seq<ClosedCycle>, exits: map<string, nat>)
    requires forall bucket :: Tally(exits, bucket) == CountIn(cycles, bucket)
    ensures Tally(exits, "STOP_LOSS") == |EndedBy(cycles, "LOSS_STOP")|
    ensures Tally(exits, "TARGET") == |EndedBy(cycles, "PROFIT_TARGET")|
    ensures Tally(exits, "TIME_EXIT") == |EndedBy(cycles, "TIME_STOP")|
  {
    BucketsAreExits();
    CountOfSignal(cycles, "LOSS_STOP", "STOP_LOSS");
    CountOfSignal(cycles, "PROFIT_TARGET", "TARGET");
    CountOfSignal(cycles, "TIME_STOP", "TIME_EXIT");
  }

  /** An average, taken so often, makes the whole. */
  predicate Makes(average: real, times: real, whole: real) { average * times == whole }

  lemma ShareMakes(part: nat, whole: nat)
    requires whole > 0
    ensures Makes(Percent(part, whole), whole as real, 100.0 * part as real)
  {
  }

  lemma QuotientMakes(a: real, b: real)
    requires b != 0.0
    ensures Makes(a / b, b, a)
  {
  }

  /** The rates and averages give back what they were taken of. */
  lemma AveragesGiveBack(cycles: seq<ClosedCycle>, m: Metrics)
    requires Describes(m, cycles) && cycles != []
    ensures var xs := Pnls(cycles);
      && Makes(m.winRate, |cycles| as real, 100.0 * |At(xs, x => x > 0.0)| as real)
      && Makes(m.expectancy, |cycles| as real, m.total)
      && (m.wins > 0 ==> Makes(m.avgWin, m.wins as real, Gains(xs)))
      && (m.losses > 0 ==> Makes(m.avgLoss, m.losses as real, -Losses(xs)))
      && (m.profitFactor.Some? ==> Makes(m.profitFactor.value, Losses(xs), Gains(xs)))
  {
    var xs := Pnls(cycles);
    CountWinners(xs);
    ShareMakes(Winners(xs), |xs|);
    QuotientMakes(Sum(xs), |cycles| as real);
    if m.wins > 0 { QuotientMakes(Gains(xs), m.wins as real); }
    if m.losses > 0 { QuotientMakes(-Losses(xs), m.losses as real); }
    if m.profitFactor.Some? { QuotientMakes(Gains(xs), Losses(xs)); }
  }

  lemma {:induction false} CountOfAction(cycles: seq<ClosedCycle>, a: string)
    ensures |OfAction(cycles, a)| == |At(cycles, (c: ClosedCycle) => c.entry.tradeAction == a)|
    ensures Winners(Pnls(OfAction(cycles, a)))
         == |At(cycles, (c: ClosedCycle) => c.entry.tradeAction == a && c.Pnl() > 0.0)|
  {
    if cycles == [] {
      assert At(cycles, (c: ClosedCycle) => c.entry.tradeAction == a) == {};
      assert At(cycles, (c: ClosedCycle) => c.entry.tradeAction == a && c.Pnl() > 0.0) == {};
    } else {
      var n := |cycles| - 1;
      var rest := OfAction(cycles[..n], a);
      CountOfAction(cycles[..n], a);
      OneMoreAt(cycles[..n], cycles[n], (c: ClosedCycle) => c.entry.tradeAction == a);
      OneMoreAt(cycles[..n], cycles[n], (c: ClosedCycle) => c.entry.tradeAction == a && c.Pnl() > 0.0);
      assert cycles[..n] + [cycles[n]] == cycles;
      if cycles[n].entry.tradeAction == a {
        assert Pnls(rest + [cycles[n]])[..|rest|] == Pnls(rest);
      } else {
        assert OfAction(cycles, a) == rest + [] == rest;
      }
    }
  }

  /** The win rate of an action is the share of its cycles that gained, and every action that occurs has one. */
  lemma ActionRatesGiveBack(cycles: seq<ClosedCycle>, m: Metrics, a: string)
    requires Describes(m, cycles)
    ensures var of := At(cycles, (c: ClosedCycle) => c.entry.tradeAction == a);
      var won := At(cycles, (c: ClosedCycle) => c.entry.tradeAction == a && c.Pnl() > 0.0);
      && (a in m.winRateByAction <==> of != {})
      && (of != {} ==> Makes(m.winRateByAction[a], |of| as real, 100.0 * |won| as real))
  {
    CountOfAction(cycles, a);
    if OfAction(cycles, a) != [] { ShareMakes(Winners(Pnls(OfAction(cycles, a))), |OfAction(cycles, a)|); }
  }

  /** The gates on money: gains above losses for two of them, and a fifth more for the profit factor, which also wants a
      loss to compare with. */
  lemma MoneyGatesIff(cycles: seq<ClosedCycle>, m: Metrics)
    requires Describes(m, cycles)
    ensures var g, xs := EvaluateGate(cycles, m), Pnls(cycles);
      && (g.netPnl <==> Gains(xs) > Losses(xs)) && (g.expectancy <==> Gains(xs) > Losses(xs))
      && (g.profitFactor <==> Losses(xs) > 0.0 && 5.0 * Gains(xs) >= 6.0 * Losses(xs))
  {
    GatesImplyEachOther(cycles, m);
    var xs := Pnls(cycles);
    if Losses(xs) > 0.0 { AFifthMore(Gains(xs), Losses(xs)); }
  }

  lemma AFifthMore(a: real, b: real)
    requires b > 0.0
    ensures a / b >= 1.2 <==> 5.0 * a >= 6.0 * b
  {
    var q := a / b;
    assert q * b == a;
    assert (q - 1.2) * b == a - 1.2 * b;
  }

  predicate SoldAtLoss(c: ClosedCycle) { c.exitPrice < c.entry.premium }

  /** The losing streak is a run of cycles sold below their premium: there is one as soon as one cycle was, and it is
      the whole cohort exactly when every cycle was. */
  lemma StreakIsOfLosses(cycles: seq<ClosedCycle>, m: Metrics)
    requires Describes(m, cycles) && forall c :: c in cycles ==> c.qty > 0
    ensures m.losingStreak > 0 <==> exists c :: c in cycles && SoldAtLoss(c)
    ensures m.losingStreak <= |cycles|
    ensures m.losingStreak == |cycles| <==> forall c :: c in cycles ==> SoldAtLoss(c)
  {
    var sorted := ByExitDate(cycles);
    SortPermutes(cycles);
    assert |multiset(sorted)| == |sorted| && |multiset(cycles)| == |cycles|;
    forall c: ClosedCycle ensures c in sorted <==> c in cycles {
      assert c in multiset(sorted) <==> c in multiset(cycles);
    }
    StreakOf(sorted, m.losingStreak);
  }

  lemma StreakOf(cycles: seq<ClosedCycle>, length: nat)
    requires IsLongestLosingRun(Pnls(cycles), length) && forall c :: c in cycles ==> c.qty > 0
    ensures length > 0 <==> exists c :: c in cycles && SoldAtLoss(c)
    ensures length <= |cycles|
    ensures length == |cycles| <==> forall c :: c in cycles ==> SoldAtLoss(c)
  {
    var xs := Pnls(cycles);
    forall i | 0 <= i < |cycles| ensures xs[i] < 0.0 <==> SoldAtLoss(cycles[i]) {
      assert cycles[i] in cycles;
      ResultSign(cycles[i]);
    }
    var i: nat, j: nat :| j <= |xs| && LosingRun(xs, i, j) && j - i == length;
    if length > 0 { assert xs[i] < 0.0 && cycles[i] in cycles; }
    if c :| c in cycles && SoldAtLoss(c) {
      var k :| 0 <= k < |cycles| && cycles[k] == c;
      assert LosingRun(xs, k, k + 1);
    }
    if forall c :: c in cycles ==> SoldAtLoss(c) { assert LosingRun(xs, 0, |xs|); }
    if length == |cycles| {
      forall c | c in cycles ensures SoldAtLoss(c) {
        var k :| 0 <= k < |cycles| && cycles[k] == c;
        assert xs[k] < 0.0;
      }
    }
  }
}
