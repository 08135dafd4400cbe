/** Ticks the chain can offer: a Zone 2 lock that widens a vertical, one that puts a wing inside its short, and a call
    roll that leaves its vertical no width. */
module CondorWingExamples {
  import opened Wrappers
  import opened PaperLedger
  import opened StrikeSearch
  import opened CondorRoll
  import opened CondorLadder
  import opened CondorSignals
  import opened CondorCycle
  import opened CondorWings

  function Quote(strike: real, price: real, delta: real): OptionLeg {
    OptionLeg(strike, price, price, price, 0, Some(delta))
  }

  /** The monthly configuration, and the bands of its searches. */
  const MONTHLY: Config := Config(0.05, 15.0, 0.05, 0.3, 0.35, 0.45, 0.5, 1, 7, 0.3, 0.25, 0.5)

  const CALL_BANDS: Bands := Bands(0.19, 0.25, 0.22, 0.2, 0.1)
  const PUT_BANDS: Bands := Bands(0.22, 0.28, 0.25, 0.2, 0.1)

  /** Both sides of the monthly configuration meet what a roll needs not to cross; the put bands do not overlap. */
  lemma MonthlyBandsAreSound()
    ensures CALL_BANDS.Sound(MONTHLY) && PUT_BANDS.Sound(MONTHLY) && PUT_BANDS.wingHi < PUT_BANDS.shortLo
  {
  }

  // --- Zone 2 locks -------------------------------------------------------------------------

  /** A condor's legs and the wings a lock would put in. */
  datatype Six = Six(shortPut: OptionLeg, longPut: OptionLeg, newPut: OptionLeg,
                     shortCall: OptionLeg, longCall: OptionLeg, newCall: OptionLeg)
  {
    function LegOf(key: Key): Option<OptionLeg> {
      if key == "sp" then Some(shortPut) else if key == "lp" then Some(longPut) else if key == "np" then Some(newPut)
      else if key == "sc" then Some(shortCall) else if key == "lc" then Some(longCall)
      else if key == "nc" then Some(newCall) else None
    }

    function StrikeOf(key: Key): Option<real> { if LegOf(key).Some? then Some(LegOf(key).value.strike) else None }

    function Resolve(side: Side, strike: real): Option<Key> {
      if side == Put && strike == newPut.strike then Some("np")
      else if side == Call && strike == newCall.strike then Some("nc") else None
    }

    function Market(): Market {
      CondorRoll.Market(
        key => LegOf(key), key => StrikeOf(key), (side: Side) => None, (side: Side) => None,
        (side: Side, held: real, short: real) => None, (side: Side, strike: real) => Resolve(side, strike))
    }

    function Chain(side: Side): seq<Option<OptionLeg>> {
      if side == Put then [Some(longPut), Some(newPut), Some(shortPut)]
      else [Some(newCall), Some(shortCall), Some(longCall)]
    }

    function Mark(): real { shortPut.ltp - longPut.ltp + shortCall.ltp - longCall.ltp }

    /** What the new wings cost, bought at the ask, beyond what the old ones fetch at the bid. */
    function Debit(): real { newPut.ask + newCall.ask - longPut.bid - longCall.bid }

    /** The signed widths the new wings give. */
    function PutWidth(): real { shortPut.strike - newPut.strike }

    function CallWidth(): real { newCall.strike - shortCall.strike }

    predicate Calm() {
      && shortPut.delta.Some? && Abs(shortPut.delta.value) < MONTHLY.rollDelta
      && shortCall.delta.Some? && Abs(shortCall.delta.value) < MONTHLY.rollDelta
    }

    /** The engine's debit cap, its 100-point minimum and its floor with a buffer of 10, on the larger width only. */
    predicate EngineAllows(credit: real) {
      var width := if PutWidth() > CallWidth() then PutWidth() else CallWidth();
      Debit() <= 0.25 * credit && width >= 100.0 && width + Debit() + 10.0 <= 0.75 * credit
    }

    /** The wings are what its search near 0.19 finds. */
    ghost predicate EngineFinds() {
      && Found(Chain(Put), 0.16, 0.22, 0.19, Some(newPut))
      && Found(Chain(Call), 0.16, 0.22, 0.19, Some(newCall))
    }
  }

  function Leg(role: LegRole, key: Key, quantity: int): Position { Position(role, key, quantity, 0.0, 0.0, 0) }

  const LEGS: seq<Position> :=
    [Leg(Short(Put), "sp", -1), Leg(Long(Put), "lp", 1), Leg(Short(Call), "sc", -1), Leg(Long(Call), "lc", 1)]

  const CONDOR: Condor := Condor("sp", "lp", "sc", "lc")

  /** Twenty days to expiry. */
  function TickOf(q: Six, credit: real): Tick {
    Tick(q.Market(), LEGS, Some(20), Some(credit), LockWings(Some(q.newPut), Some(q.newCall), Some(q.Debit())))
  }

  const ZONE_ONE: Lock := Lock(1, false, false, 0.0, 100, 400, "")

  function HeldOf(credit: real): Cycle { Cycle(CONDOR, FreshRolls(credit), Some(ZONE_ONE), 0.0) }

  lemma LegsAreLive()
    ensures Live(LEGS) == LEGS
    ensures First(LEGS, Short(Put)) == Some(LEGS[0]) && First(LEGS, Long(Put)) == Some(LEGS[1])
    ensures First(LEGS, Short(Call)) == Some(LEGS[2]) && First(LEGS, Long(Call)) == Some(LEGS[3])
  {
    var a, b, c := LEGS[1..], LEGS[2..], LEGS[3..];
    assert c[1..] == [] && b[1..] == c && a[1..] == b;
    assert Live(c) == c && Live(b) == [LEGS[2]] + c && Live(a) == [LEGS[1]] + b;
    assert First(c, Long(Call)) == Some(LEGS[3]) && First(b, Long(Call)) == Some(LEGS[3]);
    assert First(a, Long(Call)) == Some(LEGS[3]) && First(a, Short(Call)) == First(b, Short(Call)) == Some(LEGS[2]);
  }

  lemma KeysDiffer(q: Six)
    ensures q.LegOf("sp") == Some(q.shortPut) && q.LegOf("lp") == Some(q.longPut) && q.LegOf("np") == Some(q.newPut)
    ensures q.LegOf("sc") == Some(q.shortCall) && q.LegOf("lc") == Some(q.longCall) && q.LegOf("nc") == Some(q.newCall)
  {
    assert "sp"[0] != "lp"[0] && "sp"[0] != "np"[0] && "sp"[1] != "sc"[1] && "sp"[0] != "lc"[0] && "sp"[0] != "nc"[0];
    assert "lp"[0] != "np"[0] && "lp"[0] != "sc"[0] && "lp"[1] != "lc"[1] && "lp"[0] != "nc"[0];
    assert "np"[0] != "sc"[0] && "np"[0] != "lc"[0] && "np"[1] != "nc"[1];
    assert "sc"[0] != "lc"[0] && "sc"[0] != "nc"[0] && "lc"[0] != "nc"[0];
  }

  lemma MarkOfLegs(q: Six)
    ensures CombinedMark(q.Market(), LEGS) == Some(q.Mark())
  {
    KeysDiffer(q);
    var m := q.Market();
    assert LEGS[..3][..2] == LEGS[..2] && LEGS[..2][..1] == LEGS[..1] && LEGS[..1][..0] == [];
    assert CombinedMark(m, LEGS[..1]) == Some(q.shortPut.ltp);
    assert CombinedMark(m, LEGS[..2]) == Some(q.shortPut.ltp - q.longPut.ltp);
    assert CombinedMark(m, LEGS[..3]) == Some(q.shortPut.ltp - q.longPut.ltp + q.shortCall.ltp);
  }

  lemma ShortsAreCalm(q: Six, credit: real)
    requires q.Calm()
    ensures !Hard(MONTHLY, FreshRolls(credit), q.Market(), LEGS, Put)
    ensures !Hard(MONTHLY, FreshRolls(credit), q.Market(), LEGS, Call)
  {
    LegsAreLive();
    KeysDiffer(q);
  }

  /** With half the credit captured, short deltas calm and expiry away, Zone 2 is the level that decides. */
  lemma ZoneTwoDecides(cfg: Config, st: RollState, lock: Lock, t: Tick)
    requires t.dte.Some? && t.dte.value > 1 && t.dte.value > cfg.closeFullDte
    requires !Hard(cfg, st, t.market, Live(t.positions), Put) && !Hard(cfg, st, t.market, Live(t.positions), Call)
    requires Captured(t).Some? && CombinedMark(t.market, Live(t.positions)).value > cfg.profitRetention * Anchor(t)
    requires Captured(t).value >= cfg.zone2Trigger && !lock.zone2Executed && ShortsKnown(t) && t.decision.LockWings?
    ensures Decides(cfg, st, Some(lock), t, 3)
    ensures Outcome(cfg, st, Some(lock), t, LEVELS[3]) == ZoneTwo(t, lock)
  {
    assert LEVELS[0] == DteHardClose && LEVELS[1] == HardDelta && LEVELS[2] == TakeProfit && LEVELS[3] == LockZone2;
  }

  lemma LockOpens(q: Six, credit: real)
    ensures ShortsKnown(TickOf(q, credit))
    ensures var e := ZoneTwo(TickOf(q, credit), ZONE_ONE);
      && e.lock.Some? && e.roll.None? && |e.opens| == 2 && e.opens[0].key == "np" && e.opens[1].key == "nc"
  {
    LegsAreLive();
    KeysDiffer(q);
    assert "np" != "" && "nc" != "";
  }

  lemma HalfOf(mark: real, credit: real)
    requires credit > 0.0 && mark <= 0.5 * credit
    ensures (credit - mark) / credit >= 0.5
  {
    var f := (credit - mark) / credit;
    assert f * credit == credit - mark;
    assert (f - 0.5) * credit >= 0.0;
  }

  lemma HalfIsCaptured(t: Tick, mark: real, credit: real)
    requires CombinedMark(t.market, Live(t.positions)) == Some(mark) && t.storedCredit == Some(credit)
    requires credit > 0.0 && mark <= 0.5 * credit
    ensures Anchor(t) == credit && Captured(t).Some? && Captured(t).value >= 0.5
  {
    HalfOf(mark, credit);
  }

  lemma LockDecides(q: Six, credit: real)
    requires q.Calm() && credit > 0.0 && 0.3 * credit < q.Mark() <= 0.5 * credit
    ensures ShortsKnown(TickOf(q, credit))
    ensures Decides(MONTHLY, FreshRolls(credit), Some(ZONE_ONE), TickOf(q, credit), 3)
    ensures Outcome(MONTHLY, FreshRolls(credit), Some(ZONE_ONE), TickOf(q, credit), LEVELS[3])
         == ZoneTwo(TickOf(q, credit), ZONE_ONE)
  {
    LegsAreLive();
    LockOpens(q, credit);
    MarkOfLegs(q);
    HalfIsCaptured(TickOf(q, credit), q.Mark(), credit);
    ShortsAreCalm(q, credit);
    ZoneTwoDecides(MONTHLY, FreshRolls(credit), ZONE_ONE, TickOf(q, credit));
  }

  predicate FirstAt(positions: seq<Position>, role: LegRole, key: Key) {
    First(positions, role).Some? && First(positions, role).value.key == key
  }

  lemma FourLegsHold(positions: seq<Position>, c: Condor)
    requires FirstAt(positions, Short(Put), c.shortPut) && FirstAt(positions, Long(Put), c.longPut)
    requires FirstAt(positions, Short(Call), c.shortCall) && FirstAt(positions, Long(Call), c.longCall)
    ensures Holds(positions, c)
  {
    forall role: LegRole | c.KeyOf(role).Some? ensures FirstAt(positions, role, c.KeyOf(role).value) {
    }
  }

  lemma MarketIsConsistent(q: Six)
    ensures MasterConsistent(q.Market())
  {
    KeysDiffer(q);
    forall side: Side, strike: real | q.Market().resolve(side, strike).Some?
      ensures q.Market().strikeOf(q.Market().resolve(side, strike).value) == Some(strike)
    {
      assert q.Resolve(side, strike) in {Some("np"), Some("nc")};
    }
  }

  /** A turn whose event is the outcome of the level that decides. */
  lemma DecidedIsPossible(s: Cycle, turn: Turn, i: nat)
    requires MasterConsistent(turn.tick.market) && Holds(Live(turn.tick.positions), s.condor) && Evaluable(turn.tick)
    requires Decides(MONTHLY, s.st, s.lock, turn.tick, i)
    requires turn.events == [Outcome(MONTHLY, s.st, s.lock, turn.tick, LEVELS[i])]
    requires turn.applied && |turn.events[0].opens| == 2
    ensures Possible(MONTHLY, turn.tick.market.strikeOf, s, turn)
  {
  }

  /** A tick with half the credit captured stores the lock and puts the new wings in. */
  lemma LockTurn(q: Six, credit: real) returns (turn: Turn)
    requires q.Calm() && credit > 0.0 && 0.3 * credit < q.Mark() <= 0.5 * credit
    ensures turn.tick == TickOf(q, credit) && ZoneTwoStored(turn)
    ensures Possible(MONTHLY, q.Market().strikeOf, HeldOf(credit), turn)
    ensures After(HeldOf(credit), turn).condor == Condor("sp", "np", "sc", "nc")
    ensures Known(q.Market().strikeOf, CONDOR) && Known(q.Market().strikeOf, After(HeldOf(credit), turn).condor)
  {
    LegsAreLive();
    FourLegsHold(LEGS, CONDOR);
    MarketIsConsistent(q);
    LockDecides(q, credit);
    LockOpens(q, credit);
    turn := Turn(TickOf(q, credit), [ZoneTwo(TickOf(q, credit), ZONE_ONE)], true, true);
    DecidedIsPossible(HeldOf(credit), turn, 3);
    KeysDiffer(q);
  }

  lemma WingFound(chain: seq<Option<OptionLeg>>, i: nat)
    requires i < |chain| && Listed(chain, i, 0.16, 0.22) && Distance(chain[i].value, 0.19) == 0.0
    requires forall j: nat :: j != i && Listed(chain, j, 0.16, 0.22) ==> Distance(chain[j].value, 0.19) > 0.0
    ensures Found(chain, 0.16, 0.22, 0.19, chain[i])
  {
    assert Wins(chain, i, 0.16, 0.22, 0.19);
  }

  const WIDENING: Six := Six(
    Quote(24000.0, 150.0, -0.24), Quote(23900.0, 110.0, -0.21), Quote(23800.0, 85.0, -0.19),
    Quote(25000.0, 170.0, 0.23), Quote(25400.0, 30.0, 0.08), Quote(25100.0, 120.0, 0.19))

  /** The engine compares the new width with the credit and not with the width it replaces: a lock it allows takes the
      put wing from 100 to 200 points. */
  lemma ZoneTwoWidens(q: Six, credit: real) returns (turn: Turn)
    requires q == WIDENING && credit == 400.0
    ensures q.EngineAllows(credit) && q.EngineFinds() && turn.tick == TickOf(q, credit) && ZoneTwoStored(turn)
    ensures Possible(MONTHLY, q.Market().strikeOf, HeldOf(credit), turn)
    ensures Known(q.Market().strikeOf, CONDOR) && Known(q.Market().strikeOf, After(HeldOf(credit), turn).condor)
    ensures WidthOf(q.Market().strikeOf, CONDOR, Put) == 100.0
    ensures WidthOf(q.Market().strikeOf, After(HeldOf(credit), turn).condor, Put) == 200.0
  {
    turn := LockTurn(q, credit);
    KeysDiffer(q);
    WingFound(q.Chain(Put), 1);
    WingFound(q.Chain(Call), 0);
  }

  const CROSSING: Six := Six(
    Quote(24000.0, 220.0, -0.28), Quote(23600.0, 70.0, -0.1), Quote(23850.0, 110.0, -0.19),
    Quote(25400.0, 30.0, 0.12), Quote(25800.0, 8.0, 0.04), Quote(25200.0, 60.0, 0.19))

  /** A short call held down to a delta of 0.12 has the engine's wing on its wrong side, 200 points below it. The engine
      allows the lock, because it tests the larger width only. */
  lemma ZoneTwoCrosses(q: Six, credit: real) returns (turn: Turn)
    requires q == CROSSING && credit == 400.0
    ensures q.EngineAllows(credit) && q.EngineFinds() && turn.tick == TickOf(q, credit) && ZoneTwoStored(turn)
    ensures Possible(MONTHLY, q.Market().strikeOf, HeldOf(credit), turn)
    ensures Known(q.Market().strikeOf, CONDOR) && Known(q.Market().strikeOf, After(HeldOf(credit), turn).condor)
    ensures Reach(q.Market().strikeOf, CONDOR, Call) == 400.0
    ensures Reach(q.Market().strikeOf, After(HeldOf(credit), turn).condor, Call) == -200.0
  {
    turn := LockTurn(q, credit);
    KeysDiffer(q);
    WingFound(q.Chain(Put), 1);
    WingFound(q.Chain(Call), 0);
  }

  // --- A roll without width -----------------------------------------------------------------

  /** On the call side there is one delta, 0.19, between those of the two legs held. */
  const SPARSE: Six := Six(
    Quote(24000.0, 150.0, -0.24), Quote(23600.0, 60.0, -0.1), Quote(23900.0, 110.0, -0.21),
    Quote(25000.0, 170.0, 0.36), Quote(25800.0, 12.0, 0.04), Quote(25300.0, 60.0, 0.19))

  lemma OnlyOneListed(chain: seq<Option<OptionLeg>>, i: nat, lo: real, hi: real, target: real)
    requires Listed(chain, i, lo, hi) && forall j: nat :: Listed(chain, j, lo, hi) ==> j == i
    ensures Found(chain, lo, hi, target, chain[i])
  {
    assert Wins(chain, i, lo, hi, target);
  }

  /** The market of a roll whose searches both find the new call. */
  function SparseMarket(q: Six): Market {
    q.Market().(shortCandidate := (side: Side) => Some(q.newCall), wingCandidate := (side: Side) => Some(q.newCall))
  }

  lemma SparseIsSearched(q: Six)
    requires q == SPARSE
    ensures var chain := [Some(q.shortCall), Some(q.newCall), Some(q.longCall)];
      Searched(MONTHLY, SparseMarket(q), Call, CALL_BANDS, chain)
  {
    var chain := [Some(q.shortCall), Some(q.newCall), Some(q.longCall)];
    MonthlyBandsAreSound();
    OnlyOneListed(chain, 1, CALL_BANDS.shortLo, CALL_BANDS.shortHi, CALL_BANDS.shortTarget);
    OnlyOneListed(chain, 1, MONTHLY.longWingDeltaFloor, CALL_BANDS.wingHi, CALL_BANDS.wingTarget);
  }

  lemma SparseRolls(q: Six)
    requires q == SPARSE
    ensures Collapses(MONTHLY, SparseMarket(q), Call)
    ensures var r := ExecutePartialRoll(MONTHLY, FreshRolls(400.0), SparseMarket(q), LEGS, Call, true);
      r.Rolled? && r.update.net == 158.0
  {
    LegsAreLive();
    KeysDiffer(q);
    assert SelectLongWing(MONTHLY, SparseMarket(q), Call) == Some(q.newCall);
  }

  /** The roll passes every guard and pays 158 points for a vertical that sells and buys one contract: in either band
      0.19 is the only delta. */
  lemma CallRollCollapses(q: Six)
    requires q == SPARSE
    ensures exists chain :: Searched(MONTHLY, SparseMarket(q), Call, CALL_BANDS, chain)
    ensures Holds(LEGS, CONDOR) && MasterConsistent(SparseMarket(q))
    ensures var r := ExecutePartialRoll(MONTHLY, FreshRolls(400.0), SparseMarket(q), LEGS, Call, true);
      r.Rolled? && r.update.net == 158.0 && |r.update.legs| == 4 && r.update.legs[2].key == r.update.legs[3].key
  {
    var m, chain := SparseMarket(q), [Some(q.shortCall), Some(q.newCall), Some(q.longCall)];
    LegsAreLive();
    FourLegsHold(LEGS, CONDOR);
    KeysDiffer(q);
    MarketIsConsistent(q);
    SparseIsSearched(q);
    SparseRolls(q);
    assert m.resolve == q.Market().resolve && m.strikeOf == q.Market().strikeOf;
    assert Known(m.strikeOf, CONDOR);
    RollNeverCrosses(MONTHLY, FreshRolls(400.0), m, LEGS, CONDOR, Call, true, CALL_BANDS, chain);
  }
}
