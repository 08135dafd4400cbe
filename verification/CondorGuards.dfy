/** Which guard stops a roll, and at what prices a roll that none of them stops trades. */
module CondorGuards {
  import opened Wrappers
  import opened PaperLedger
  import opened CondorRoll
  import opened CondorLadder
  import opened CondorDeltas

  /** What may stop a roll, in the order it is looked at. */
  datatype Stage =
    | LegUnknown | TooLate | RollsUsedUp | NoNewShort | NoNewWing | Wider | Unpriced | TooDear | Crossing | NoContract

  const STAGES: seq<Stage> :=
    [LegUnknown, TooLate, RollsUsedUp, NoNewShort, NoNewWing, Wider, Unpriced, TooDear, Crossing, NoContract]

  function GuardName(stage: Stage): Guard {
    match stage
    case LegUnknown => NoShortCandidate
    case TooLate => DteCutoff
    case RollsUsedUp => MaxRollsExhausted
    case NoNewShort => NoShortCandidate
    case NoNewWing => WingSearchExhausted
    case Wider => WidthExpansion
    case Unpriced => ChainDataMissing
    case TooDear => DebitCap
    case Crossing => InvertedCondor
    case NoContract => KeyUnresolved
  }

  /** Everything a roll is decided on. */
  datatype Roll = Roll(cfg: Config, st: RollState, m: Market, positions: seq<Position>, side: Side, inTime: bool)
  {
    function OldShort(): Option<Position> { First(positions, Short(side)) }

    function OldLong(): Option<Position> { First(positions, Long(side)) }

    function NewShort(): Option<OptionLeg> { m.shortCandidate(side) }

    predicate LegsKnown() { StrikeAt(m, OldShort()).Some? && StrikeAt(m, OldLong()).Some? }

    /** The wing near its target delta if it clears the floors, else a narrower one. */
    function NewWing(): Option<OptionLeg>
      requires LegsKnown() && NewShort().Some?
    {
      if SelectLongWing(cfg, m, side).Some? then SelectLongWing(cfg, m, side)
      else m.narrowerWing(side, StrikeAt(m, OldLong()).value, NewShort().value.strike)
    }

    predicate Placed() { LegsKnown() && NewShort().Some? && NewWing().Some? }

    predicate Priced() { Placed() && m.leg(OldShort().value.key).Some? && m.leg(OldLong().value.key).Some? }

    function Outcome(): RollOutcome { ExecutePartialRoll(cfg, st, m, positions, side, inTime) }
  }

  function Distance(a: real, b: real): real { if a < b then b - a else a - b }

  /** Told from the inputs alone. */
  predicate Stops(r: Roll, stage: Stage) {
    match stage
    case LegUnknown => !r.LegsKnown()
    case TooLate => !r.inTime
    case RollsUsedUp => (if r.side == Put then r.st.put else r.st.call) >= r.cfg.maxRolls
    case NoNewShort => r.NewShort().None?
    case NoNewWing => r.LegsKnown() && r.NewShort().Some? && r.NewWing().None?
    case Wider =>
      r.Placed() && Distance(r.NewShort().value.strike, r.NewWing().value.strike)
                    > Distance(StrikeAt(r.m, r.OldShort()).value, StrikeAt(r.m, r.OldLong()).value)
    case Unpriced => r.Placed() && !r.Priced()
    case TooDear =>
      r.Priced() && r.st.credit > 0.0
      && r.m.leg(r.OldShort().value.key).value.ltp + r.NewWing().value.ltp
         > r.m.leg(r.OldLong().value.key).value.ltp + r.NewShort().value.ltp + r.cfg.debitCapFraction * r.st.credit
    case Crossing =>
      r.Placed()
      && (if r.side == Put then
            var call := StrikeAt(r.m, First(r.positions, Short(Call)));
            call.Some? && r.NewShort().value.strike >= call.value
          else
            var put := StrikeAt(r.m, First(r.positions, Short(Put)));
            put.Some? && r.NewShort().value.strike <= put.value)
    case NoContract =>
      r.Placed() && (r.m.resolve(r.side, r.NewShort().value.strike).None?
                     || r.m.resolve(r.side, r.NewWing().value.strike).None?)
  }

  predicate StopsFirst(r: Roll, i: nat) {
    i < |STAGES| && Stops(r, STAGES[i]) && forall j :: 0 <= j < i ==> !Stops(r, STAGES[j])
  }

  predicate NothingStops(r: Roll) { forall i :: 0 <= i < |STAGES| ==> !Stops(r, STAGES[i]) }

  /** A roll that is blocked names the first guard that stops it; it happens when none does. */
  lemma BlockedByFirst(r: Roll)
    ensures r.Outcome().Rolled? <==> NothingStops(r)
    ensures forall i: nat :: StopsFirst(r, i) ==> r.Outcome() == Blocked(GuardName(STAGES[i]))
    ensures r.Outcome().Blocked? ==> exists i: nat :: StopsFirst(r, i)
  {
    if NothingStops(r) {
      PassedStages(r, 10);
    } else {
      FirstStop(r, 0);
    }
    forall i: nat | StopsFirst(r, i) ensures r.Outcome() == Blocked(GuardName(STAGES[i])) {
      StopIsNamed(r, i);
    }
  }

  lemma {:induction false} FirstStop(r: Roll, i: nat)
    requires i <= |STAGES| && (forall j :: 0 <= j < i ==> !Stops(r, STAGES[j])) && !NothingStops(r)
    ensures exists k: nat :: StopsFirst(r, k)
    decreases |STAGES| - i
  {
    if i < |STAGES| {
      if Stops(r, STAGES[i]) { assert StopsFirst(r, i); } else { FirstStop(r, i + 1); }
    }
  }

  /** The first n stages, spelt out. */
  predicate StagesPass(r: Roll, n: nat) {
    && (n > 0 ==> !Stops(r, LegUnknown)) && (n > 1 ==> !Stops(r, TooLate)) && (n > 2 ==> !Stops(r, RollsUsedUp))
    && (n > 3 ==> !Stops(r, NoNewShort)) && (n > 4 ==> !Stops(r, NoNewWing)) && (n > 5 ==> !Stops(r, Wider))
    && (n > 6 ==> !Stops(r, Unpriced)) && (n > 7 ==> !Stops(r, TooDear)) && (n > 8 ==> !Stops(r, Crossing))
    && (n > 9 ==> !Stops(r, NoContract))
  }

  lemma PassedStages(r: Roll, n: nat)
    requires n <= |STAGES| && forall j :: 0 <= j < n ==> !Stops(r, STAGES[j])
    ensures StagesPass(r, n)
  {
    assert forall j :: 0 <= j < n ==> !Stops(r, STAGES[j]);
    assert STAGES[0] == LegUnknown && STAGES[1] == TooLate && STAGES[2] == RollsUsedUp && STAGES[3] == NoNewShort;
    assert STAGES[4] == NoNewWing && STAGES[5] == Wider && STAGES[6] == Unpriced && STAGES[7] == TooDear;
    assert STAGES[8] == Crossing && STAGES[9] == NoContract;
  }

  lemma StopIsNamed(r: Roll, i: nat)
    requires StopsFirst(r, i)
    ensures r.Outcome() == Blocked(GuardName(STAGES[i]))
  {
    PassedStages(r, i);
    StageDecides(r, STAGES[i], i);
  }

  lemma StageDecides(r: Roll, stage: Stage, i: nat)
    requires i < |STAGES| && STAGES[i] == stage && StagesPass(r, i) && Stops(r, stage)
    ensures r.Outcome() == Blocked(GuardName(stage))
  {
  }

  /** A roll buys back the old short and sells the old wing at what the chain says of them, and sells the new short and
      buys the new wing, each in its own contract, at the last price of its candidate. */
  lemma RollTradesAtQuotes(r: Roll)
    requires r.Outcome().Rolled?
    ensures r.Priced()
    ensures var legs := r.Outcome().update.legs;
      && |legs| == 4
      && legs[0].action == BUY && legs[0].key == r.OldShort().value.key
      && legs[0].price == r.m.leg(legs[0].key).value.ltp
      && legs[1].action == SELL && legs[1].key == r.OldLong().value.key
      && legs[1].price == r.m.leg(legs[1].key).value.ltp
      && legs[2].action == SELL && Some(legs[2].key) == r.m.resolve(r.side, r.NewShort().value.strike)
      && legs[2].price == r.NewShort().value.ltp
      && legs[3].action == BUY && Some(legs[3].key) == r.m.resolve(r.side, r.NewWing().value.strike)
      && legs[3].price == r.NewWing().value.ltp
  {
  }

  function StopFor(side: Side, stage: Stage): Event {
    Event(DELTA_STOP, ACTION, Some(side), RollBlocked(GuardName(stage)), Some(CloseFull), [], None, None)
  }

  /** The tick on which a roll level is reached: the stop names the first guard that blocks the roll, and otherwise the
      roll is signalled with the two legs it opens. */
  lemma StopNamesGuard(cfg: Config, st: RollState, lock: Option<Lock>, t: Tick, events: seq<Event>)
    requires MatchesTable(cfg, st, lock, t, events) && NothingBefore(cfg, st, lock, t)
    requires SizeAtLeast(t, Put, cfg.rollDelta) || SizeAtLeast(t, Call, cfg.rollDelta)
    ensures var side := if SizeAtLeast(t, Put, cfg.rollDelta) then Put else Call;
      var r := Roll(cfg, st, t.market, Live(t.positions), side, true);
      if NothingStops(r) then
        && r.Outcome().Rolled? && |r.Outcome().update.legs| == 4
        && events == [Event(ROLL_WING, ACTION, Some(side), NoReason, Some(RollWing), r.Outcome().update.legs[2..],
                            Some(r.Outcome().update), None)]
      else
        exists i: nat :: StopsFirst(r, i) && events == [StopFor(side, STAGES[i])]
  {
    BreachIff(t, Put, cfg.forcedDelta);
    BreachIff(t, Call, cfg.forcedDelta);
    BreachIff(t, Put, cfg.rollDelta);
    BreachIff(t, Call, cfg.rollDelta);
    LastLevels(cfg, st, lock, t, events);
    var side := if SizeAtLeast(t, Put, cfg.rollDelta) then Put else Call;
    var r := Roll(cfg, st, t.market, Live(t.positions), side, true);
    BlockedByFirst(r);
    if r.Outcome().Rolled? {
      RollOpensTwo(r);
    }
  }

  lemma RollOpensTwo(r: Roll)
    requires r.Outcome().Rolled?
    ensures |r.Outcome().update.legs| == 4 && Opens(r.Outcome().update.legs) == r.Outcome().update.legs[2..]
  {
    var legs := r.Outcome().update.legs;
    assert legs[1..][1..] == legs[2..] && legs[2..][1..] == legs[3..] && legs[3..][1..] == [];
    assert Opens(legs[3..]) == [legs[3]] && Opens(legs[2..]) == [legs[2]] + [legs[3]];
    assert legs[2..] == [legs[2], legs[3]];
  }
}
