/** What the condor's readings of a chain mean leg by leg: its profit, the floors of a wing, and the widths and debit
    a Zone 2 lock records. */
module CondorReadings {
  import opened Wrappers
  import opened PaperLedger
  import opened CondorRoll
  import opened CondorLadder

  /** What a leg has made so far: a short sold at its average and bought back now, a wing bought and sold now. */
  function LegProfit(m: Market, p: Position): real {
    var leg := m.leg(p.key);
    if leg.None? then 0.0
    else match p.role
      case Short(_) => p.avgSell - leg.value.ltp
      case Long(_) => leg.value.ltp - p.avgCost
      case _ => 0.0
  }

  function ProfitOf(m: Market, positions: seq<Position>): real {
    if positions == [] then 0.0 else LegProfit(m, positions[0]) + ProfitOf(m, positions[1..])
  }

  predicate InChain(m: Market, p: Position) { p.role.Short? || p.role.Long? ==> m.leg(p.key).Some? }

  /** The chain has every leg of the condor. */
  predicate Complete(m: Market, positions: seq<Position>) { forall p :: p in positions ==> InChain(m, p) }

  lemma {:induction false} ProfitOfAppend(m: Market, positions: seq<Position>, p: Position)
    ensures ProfitOf(m, positions + [p]) == ProfitOf(m, positions) + LegProfit(m, p)
  {
    if positions == [] {
      assert [] + [p] == [p] && [p][1..] == [];
    } else {
      ProfitOfAppend(m, positions[1..], p);
      assert (positions + [p])[1..] == positions[1..] + [p];
    }
  }

  function CreditOf(p: Position): real {
    match p.role case Short(_) => p.avgSell case Long(_) => -p.avgCost case _ => 0.0
  }

  lemma CreditOfAppend(positions: seq<Position>, p: Position)
    ensures EntryCredit(positions + [p]) == EntryCredit(positions) + CreditOf(p)
  {
    assert (positions + [p])[..|positions|] == positions;
  }

  lemma MarkOfAppend(m: Market, positions: seq<Position>, p: Position)
    ensures CombinedMark(m, positions + [p])
         == if CombinedMark(m, positions).Some? && InChain(m, p)
            then Some(CombinedMark(m, positions).value + CreditOf(p) - LegProfit(m, p)) else None
  {
    assert (positions + [p])[..|positions|] == positions;
  }

  /** The entry credit less the mark is the profit of all legs together; there is a mark exactly when the chain has
      every leg of the condor. */
  lemma {:induction false} CreditLessMarkIsProfit(m: Market, positions: seq<Position>)
    ensures CombinedMark(m, positions)
         == if Complete(m, positions) then Some(EntryCredit(positions) - ProfitOf(m, positions)) else None
  {
    if positions != [] {
      var init, last := positions[..|positions| - 1], positions[|positions| - 1];
      CreditLessMarkIsProfit(m, init);
      assert positions == init + [last];
      ProfitOfAppend(m, init, last);
      CreditOfAppend(init, last);
      MarkOfAppend(m, init, last);
      CompleteAppend(m, init, last);
    }
  }

  lemma CompleteAppend(m: Market, positions: seq<Position>, p: Position)
    ensures Complete(m, positions + [p]) <==> Complete(m, positions) && InChain(m, p)
  {
    if Complete(m, positions + [p]) {
      forall q | q in positions ensures InChain(m, q) { assert q in positions + [p]; }
      assert p in positions + [p];
    }
  }

  /** With every contract worth nothing the credit is what the shorts brought in less what the wings cost. */
  lemma {:induction false} CreditIsSalesLessCosts(m: Market, positions: seq<Position>)
    requires forall p :: p in positions ==> m.leg(p.key).Some? && m.leg(p.key).value.ltp == 0.0
    ensures EntryCredit(positions) == ProfitOf(m, positions)
  {
    CreditLessMarkIsProfit(m, positions);
    MarkOfNothing(m, positions);
  }

  lemma {:induction false} MarkOfNothing(m: Market, positions: seq<Position>)
    requires forall p :: p in positions ==> m.leg(p.key).Some? && m.leg(p.key).value.ltp == 0.0
    ensures CombinedMark(m, positions) == Some(0.0)
  {
    if positions != [] { MarkOfNothing(m, positions[..|positions| - 1]); }
  }

  /** What is left to pay for closing every leg. */
  function LeftToPay(m: Market, live: seq<Position>): real { EntryCredit(live) - ProfitOf(m, live) }

  /** The credit that is held against a tick: the stored one before the positions' own. */
  predicate CreditIs(t: Tick, credit: real) {
    credit == if t.storedCredit.Some? then t.storedCredit.value else EntryCredit(Live(t.positions))
  }

  /** The profit target closes exactly when the credit is positive and what is left to pay is at most the retained
      fraction of it. */
  lemma TargetIsRetainedFraction(cfg: Config, st: RollState, lock: Option<Lock>, t: Tick, credit: real)
    requires t.dte.Some? && CreditIs(t, credit)
    ensures Fires(cfg, st, lock, t, TakeProfit)
       <==> && Complete(t.market, Live(t.positions)) && credit > 0.0
            && LeftToPay(t.market, Live(t.positions)) <= cfg.profitRetention * credit
  {
    MarkIsLeft(t.market, Live(t.positions), LeftToPay(t.market, Live(t.positions)));
  }

  lemma MarkIsLeft(m: Market, live: seq<Position>, left: real)
    requires left == LeftToPay(m, live)
    ensures CombinedMark(m, live) == if Complete(m, live) then Some(left) else None
  {
    CreditLessMarkIsProfit(m, live);
  }

  /** The wing is the candidate or none; it is the candidate exactly when its delta is known and at least the floor in
      size, its mid-price (its last price, if one side of the book is empty) at least the premium floor, and its
      spread at most the liquidity fraction of the mid-price. */
  lemma WingClearsFloorsIff(cfg: Config, m: Market, side: Side)
    ensures SelectLongWing(cfg, m, side).None? || SelectLongWing(cfg, m, side) == m.wingCandidate(side)
    ensures SelectLongWing(cfg, m, side).Some?
       <==> && m.wingCandidate(side).Some?
            && (var l := m.wingCandidate(side).value;
                && l.delta.Some?
                && (l.delta.value <= -cfg.longWingDeltaFloor || l.delta.value >= cfg.longWingDeltaFloor)
                && if l.bid > 0.0 && l.ask > 0.0 then
                     && l.bid + l.ask >= 2.0 * cfg.longWingMinPremium
                     && 2.0 * (l.ask - l.bid) <= cfg.liquidityGate * (l.bid + l.ask)
                   else l.ltp >= cfg.longWingMinPremium && cfg.liquidityGate >= 1.0)
  {
    var c := m.wingCandidate(side);
    if c.Some? && c.value.bid > 0.0 && c.value.ask > 0.0 {
      SpreadFraction(c.value.ask - c.value.bid, (c.value.bid + c.value.ask) / 2.0, cfg.liquidityGate);
    }
  }

  lemma SpreadFraction(spread: real, mid: real, gate: real)
    requires mid > 0.0
    ensures spread / mid <= gate <==> spread <= gate * mid
    ensures gate * (2.0 * mid) == 2.0 * (gate * mid)
  {
    var f := spread / mid;
    assert f * mid == spread;
    assert (gate - f) * mid == gate * mid - spread;
  }

  /** A width in whole points: less than a point below the strike distance, on the side of zero. */
  predicate WholePoints(n: int, x: real) {
    if x >= 0.0 then n as real <= x < n as real + 1.0 else n as real - 1.0 < x <= n as real
  }

  /** What a Zone 2 lock records: executed in zone 2, each side's new width in whole points under its own side, the
      debit added to the debit so far, and the same cycle. */
  lemma ZoneTwoRecords(t: Tick, lock: Lock)
    requires t.decision.LockWings? && ShortsKnown(t)
    ensures var e := ZoneTwo(t, lock);
      && e.lock.Some? && e.lock.value.zone == 2 && e.lock.value.zone2Executed && !e.lock.value.zone3Executed
      && e.lock.value.cycle == lock.cycle
      && e.lock.value.cumulativeDebit - lock.cumulativeDebit
         == (if t.decision.netDebit.Some? then t.decision.netDebit.value else 0.0)
    ensures t.decision.putWing.Some? ==>
      WholePoints(ZoneTwo(t, lock).lock.value.putWidth,
                  StrikeAt(t.market, First(Live(t.positions), Short(Put))).value - t.decision.putWing.value.strike)
    ensures t.decision.callWing.Some? ==>
      WholePoints(ZoneTwo(t, lock).lock.value.callWidth,
                  t.decision.callWing.value.strike - StrikeAt(t.market, First(Live(t.positions), Short(Call))).value)
  {
  }

  /** A Zone 2 lock opens one long wing on a side exactly when the engine chose one there and its contract is known: one
      unit bought at the last price of the wing. Nothing else is opened. */
  lemma ZoneTwoOpens(t: Tick, lock: Lock, side: Side)
    requires t.decision.LockWings? && ShortsKnown(t)
    ensures var wing := if side == Put then t.decision.putWing else t.decision.callWing;
      var key := if wing.Some? then t.market.resolve(side, wing.value.strike) else None;
      (forall l :: l in ZoneTwo(t, lock).opens && l.role == Long(side)
              <==> key.Some? && key.value != "" && l == LegSpec(key.value, BUY, 1, Long(side), true, wing.value.ltp))
    ensures forall l :: l in ZoneTwo(t, lock).opens ==> l.role == Long(Put) || l.role == Long(Call)
    ensures |ZoneTwo(t, lock).opens| <= 2
  {
  }

  /** The zones of the profit lock in money: Zone 2 from its share of a positive credit on, Zone 1 between the two
      shares. What is gained is the credit less what is left to pay. */
  lemma ZonesAreSharesOfCredit(cfg: Config, st: RollState, lock: Lock, t: Tick, credit: real)
    requires t.dte.Some? && CreditIs(t, credit)
    ensures Fires(cfg, st, Some(lock), t, LockZone2)
       <==> Gained(t, credit, cfg.zone2Trigger) && !lock.zone2Executed && ShortsKnown(t) && t.decision != NoAction
    ensures Fires(cfg, st, Some(lock), t, LockZone1)
       <==> Gained(t, credit, cfg.zone1Trigger) && !Gained(t, credit, cfg.zone2Trigger) && lock.zone < 1
  {
    CapturedIsGained(t, credit, cfg.zone1Trigger);
    CapturedIsGained(t, credit, cfg.zone2Trigger);
  }

  /** Every leg is in the chain, and at least a share of the positive credit has been gained. */
  predicate Gained(t: Tick, credit: real, share: real) {
    && Complete(t.market, Live(t.positions)) && credit > 0.0
    && credit - LeftToPay(t.market, Live(t.positions)) >= share * credit
  }

  lemma CapturedIsGained(t: Tick, credit: real, share: real)
    requires CreditIs(t, credit)
    ensures Gained(t, credit, share) <==> Captured(t).Some? && Captured(t).value >= share
  {
    var left := LeftToPay(t.market, Live(t.positions));
    MarkIsLeft(t.market, Live(t.positions), left);
    if credit > 0.0 { ShareReached(credit - left, credit, share); }
  }

  lemma ShareReached(gained: real, credit: real, share: real)
    requires credit > 0.0
    ensures gained / credit >= share <==> gained >= share * credit
  {
    var f := gained / credit;
    assert f * credit == gained;
    assert (f - share) * credit == gained - share * credit;
  }
}
