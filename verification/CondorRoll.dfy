/** The challenged-vertical roll of the iron condor: data model, guards, and
    what a roll that passes them guarantees. */
module CondorRoll {
  import opened Wrappers
  import opened PaperLedger

  datatype OptionLeg = OptionLeg(strike: real, ltp: real, bid: real, ask: real, oi: int, delta: Option<real>)

  datatype Position = Position(role: LegRole, key: Key, netQty: int, avgCost: real, avgSell: real,
                               entryDate: int)

  datatype LegSpec = LegSpec(key: Key, action: Action, quantity: int, role: LegRole, opens: bool, price: real)

  /** A roll as four legs; `net` is the net debit of the whole transaction. */
  datatype Update = Update(legs: seq<LegSpec>, net: real)

  datatype Config = Config(
    longWingDeltaFloor: real, longWingMinPremium: real, liquidityGate: real,
    warnDelta: real, rollDelta: real, forcedDelta: real,
    debitCapFraction: real, maxRolls: nat, closeFullDte: int,
    profitRetention: real, zone1Trigger: real, zone2Trigger: real)

  /** One option chain snapshot and the instrument master, as the strategy reads them: any functions. */
  datatype Market = Market(
    leg: Key -> Option<OptionLeg>,
    strikeOf: Key -> Option<real>,
    shortCandidate: Side -> Option<OptionLeg>,
    wingCandidate: Side -> Option<OptionLeg>,
    narrowerWing: (Side, real, real) -> Option<OptionLeg>,
    resolve: (Side, real) -> Option<Key>)

  /** Rolls executed per side and original entry credit, the state between two resets. */
  datatype RollState = RollState(put: nat, call: nat, credit: real)
  {
    function Rolls(side: Side): nat { if side == Put then put else call }

    function Counted(side: Side): RollState {
      if side == Put then this.(put := put + 1) else this.(call := call + 1)
    }
  }

  datatype Guard =
    | NoShortCandidate | DteCutoff | MaxRollsExhausted | WingSearchExhausted | WidthExpansion
    | ChainDataMissing | DebitCap | InvertedCondor | KeyUnresolved

  datatype RollOutcome = Rolled(update: Update) | Blocked(guard: Guard)

  function Abs(x: real): real { if x < 0.0 then -x else x }

  function Other(s: Side): Side { if s == Put then Call else Put }

  /** The first position with a role, if any. */
  function First(positions: seq<Position>, role: LegRole): Option<Position> {
    if positions == [] then None
    else if positions[0].role == role then Some(positions[0])
    else First(positions[1..], role)
  }

  function StrikeAt(m: Market, p: Option<Position>): Option<real> {
    if p.None? then None else m.strikeOf(p.value.key)
  }

  function Mid(l: OptionLeg): real { if l.bid > 0.0 && l.ask > 0.0 then (l.bid + l.ask) / 2.0 else l.ltp }

  predicate Liquid(cfg: Config, l: OptionLeg) {
    if l.bid <= 0.0 || l.ask <= 0.0 then 1.0 <= cfg.liquidityGate
    else (l.ask - l.bid) / ((l.bid + l.ask) / 2.0) <= cfg.liquidityGate
  }

  /** The long wing near its target delta, if it clears the delta, premium and liquidity floors. */
  function SelectLongWing(cfg: Config, m: Market, side: Side): Option<OptionLeg> {
    var c := m.wingCandidate(side);
    if c.None? || c.value.delta.None? then None
    else if Abs(c.value.delta.value) < cfg.longWingDeltaFloor then None
    else if Mid(c.value) < cfg.longWingMinPremium then None
    else if !Liquid(cfg, c.value) then None
    else c
  }

  function RollDebit(oldShort: OptionLeg, oldLong: OptionLeg, newShort: OptionLeg, newLong: OptionLeg): real {
    (oldShort.ltp - oldLong.ltp) - (newShort.ltp - newLong.ltp)
  }

  predicate Inverts(side: Side, newShort: real, opposite: Option<real>) {
    opposite.Some? && (if side == Put then newShort >= opposite.value else newShort <= opposite.value)
  }

  function ExecutePartialRoll(cfg: Config, st: RollState, m: Market, positions: seq<Position>, side: Side,
                              rollAllowedByDte: bool): RollOutcome
  {
    var oldShort := First(positions, Short(side));
    var oldLong := First(positions, Long(side));
    var oldShortStrike := StrikeAt(m, oldShort);
    var oldLongStrike := StrikeAt(m, oldLong);
    if oldShort.None? || oldLong.None? then Blocked(NoShortCandidate)
    else if oldShortStrike.None? || oldLongStrike.None? then Blocked(NoShortCandidate)
    else if !rollAllowedByDte then Blocked(DteCutoff)
    else if st.Rolls(side) >= cfg.maxRolls then Blocked(MaxRollsExhausted)
    else
      var newShort := m.shortCandidate(side);
      if newShort.None? then Blocked(NoShortCandidate)
      else
        var wing := SelectLongWing(cfg, m, side);
        var newLong := if wing.Some? then wing
                       else m.narrowerWing(side, oldLongStrike.value, newShort.value.strike);
        if newLong.None? then Blocked(WingSearchExhausted)
        else if Abs(newShort.value.strike - newLong.value.strike) > Abs(oldShortStrike.value - oldLongStrike.value)
          then Blocked(WidthExpansion)
        else PriceAndBuild(cfg, st, m, positions, side, oldShort.value, oldLong.value, newShort.value, newLong.value)
  }

  /** Guards 5 and 7, key resolution, and the four legs. */
  function PriceAndBuild(cfg: Config, st: RollState, m: Market, positions: seq<Position>, side: Side,
                         oldShort: Position, oldLong: Position, newShort: OptionLeg, newLong: OptionLeg): RollOutcome
  {
    var shortNow := m.leg(oldShort.key);
    var longNow := m.leg(oldLong.key);
    if shortNow.None? || longNow.None? then Blocked(ChainDataMissing)
    else
      var debit := RollDebit(shortNow.value, longNow.value, newShort, newLong);
      if st.credit > 0.0 && debit > cfg.debitCapFraction * st.credit then Blocked(DebitCap)
      else if Inverts(side, newShort.strike, StrikeAt(m, First(positions, Short(Other(side)))))
        then Blocked(InvertedCondor)
      else
        var shortKey := m.resolve(side, newShort.strike);
        var longKey := m.resolve(side, newLong.strike);
        if shortKey.None? || longKey.None? then Blocked(KeyUnresolved)
        else Rolled(Update([
          LegSpec(oldShort.key, BUY, 1, Short(side), false, shortNow.value.ltp),
          LegSpec(oldLong.key, SELL, 1, Long(side), false, longNow.value.ltp),
          LegSpec(shortKey.value, SELL, 1, Short(side), true, newShort.ltp),
          LegSpec(longKey.value, BUY, 1, Long(side), true, newLong.ltp)], debit))
  }

  /** The instrument master gives back the strike a key was resolved for. */
  ghost predicate MasterConsistent(m: Market) {
    forall side: Side, strike: real :: m.resolve(side, strike).Some? ==>
      m.strikeOf(m.resolve(side, strike).value) == Some(strike)
  }

  function Paid(legs: seq<LegSpec>, action: Action): real {
    if legs == [] then 0.0
    else Paid(legs[..|legs| - 1], action)
         + (if legs[|legs| - 1].action == action then legs[|legs| - 1].price * legs[|legs| - 1].quantity as real
            else 0.0)
  }

  /** The documented guards, each on the inputs alone, plus what a roll needs to be priced and placed. */
  predicate GuardsPass(cfg: Config, st: RollState, m: Market, positions: seq<Position>, side: Side,
                       rollAllowedByDte: bool)
  {
    var oldShort, oldLong := First(positions, Short(side)), First(positions, Long(side));
    var opposite := StrikeAt(m, First(positions, Short(Other(side))));
    && oldShort.Some? && StrikeAt(m, oldShort).Some? && oldLong.Some? && StrikeAt(m, oldLong).Some?
    && rollAllowedByDte                                                                   // 1
    && m.shortCandidate(side).Some?                                                       // 2
    && (var newShort := m.shortCandidate(side).value;
        var floored := SelectLongWing(cfg, m, side);
        var wing := if floored.Some? then floored
                    else m.narrowerWing(side, StrikeAt(m, oldLong).value, newShort.strike);
        && wing.Some?                                                                     // 3
        && Abs(newShort.strike - wing.value.strike)
           <= Abs(StrikeAt(m, oldShort).value - StrikeAt(m, oldLong).value)               // 4
        && m.leg(oldShort.value.key).Some? && m.leg(oldLong.value.key).Some?
        && (st.credit > 0.0 ==>
              m.leg(oldShort.value.key).value.ltp + wing.value.ltp
              <= m.leg(oldLong.value.key).value.ltp + newShort.ltp + cfg.debitCapFraction * st.credit)  // 5
        && st.Rolls(side) < cfg.maxRolls                                                  // 6
        && (opposite.Some? ==>
              if side == Put then newShort.strike < opposite.value else opposite.value < newShort.strike)  // 7
        && m.resolve(side, newShort.strike).Some? && m.resolve(side, wing.value.strike).Some?)
  }

  /** A roll happens exactly when all guards pass, in whatever order they are tested. */
  lemma RollsIffGuardsPass(cfg: Config, st: RollState, m: Market, positions: seq<Position>, side: Side,
                           rollAllowedByDte: bool)
    ensures ExecutePartialRoll(cfg, st, m, positions, side, rollAllowedByDte).Rolled?
       <==> GuardsPass(cfg, st, m, positions, side, rollAllowedByDte)
  {
  }

  /** A condor by its keys: one leg per role. */
  datatype Condor = Condor(shortPut: Key, longPut: Key, shortCall: Key, longCall: Key)
  {
    function KeyOf(role: LegRole): Option<Key> {
      match role
      case Short(Put) => Some(shortPut)
      case Long(Put) => Some(longPut)
      case Short(Call) => Some(shortCall)
      case Long(Call) => Some(longCall)
      case _ => None
    }

    function WithVertical(side: Side, short: Key, long: Key): Condor {
      if side == Put then this.(shortPut := short, longPut := long) else this.(shortCall := short, longCall := long)
    }
  }

  /** The positions hold each role of the condor at its key, whatever their order. */
  ghost predicate Holds(positions: seq<Position>, c: Condor) {
    forall role: LegRole :: c.KeyOf(role).Some? ==>
      First(positions, role).Some? && First(positions, role).value.key == c.KeyOf(role).value
  }

  /** Every leg's key has a known strike. */
  predicate StrikesKnown(m: Market, c: Condor) {
    m.strikeOf(c.shortPut).Some? && m.strikeOf(c.longPut).Some?
    && m.strikeOf(c.shortCall).Some? && m.strikeOf(c.longCall).Some?
  }

  function Strike(m: Market, key: Key): real
    requires m.strikeOf(key).Some?
  {
    m.strikeOf(key).value
  }

  function Width(m: Market, c: Condor, side: Side): real
    requires StrikesKnown(m, c)
  {
    if side == Put then Abs(Strike(m, c.shortPut) - Strike(m, c.longPut))
    else Abs(Strike(m, c.shortCall) - Strike(m, c.longCall))
  }

  predicate Ordered(m: Market, c: Condor)
    requires StrikesKnown(m, c)
  {
    Strike(m, c.shortPut) < Strike(m, c.shortCall)
  }

  function AfterRoll(c: Condor, side: Side, u: Update): Condor
    requires |u.legs| == 4
  {
    c.WithVertical(side, u.legs[2].key, u.legs[3].key)
  }

  /** Legs 0 and 1 buy back the short and sell the long; legs 2 and 3 open their replacements. */
  predicate VerticalLeg(l: LegSpec, side: Side, i: nat) {
    && l.opens == (i >= 2) && l.quantity == 1
    && l.role == (if i % 2 == 0 then Short(side) else Long(side))
    && l.action == (if i == 0 || i == 3 then BUY else SELL)
  }

  /** A roll that passes its guards trades exactly the challenged vertical for another, never a wider
      one, keeps the put short below the call short, and with a positive entry credit costs at most the
      capped fraction of it; its net is what its BUY legs pay minus what its SELL legs collect. */
  lemma RollIsSafe(cfg: Config, st: RollState, m: Market, positions: seq<Position>, c: Condor, side: Side,
                   rollAllowedByDte: bool)
    requires Holds(positions, c) && StrikesKnown(m, c) && MasterConsistent(m)
    requires ExecutePartialRoll(cfg, st, m, positions, side, rollAllowedByDte).Rolled?
    ensures rollAllowedByDte && st.Rolls(side) < cfg.maxRolls
    ensures var u := ExecutePartialRoll(cfg, st, m, positions, side, rollAllowedByDte).update;
      && |u.legs| == 4
      && u.net == Paid(u.legs, BUY) - Paid(u.legs, SELL)
      && (st.credit > 0.0 ==> u.net <= cfg.debitCapFraction * st.credit)
      && (Some(u.legs[0].key) == c.KeyOf(Short(side)) && Some(u.legs[1].key) == c.KeyOf(Long(side)))
      && (forall i :: 0 <= i < 4 ==> VerticalLeg(u.legs[i], side, i))
      && StrikesKnown(m, AfterRoll(c, side, u))
      && Width(m, AfterRoll(c, side, u), side) <= Width(m, c, side)
      && Width(m, AfterRoll(c, side, u), Other(side)) == Width(m, c, Other(side))
      && (Ordered(m, c) ==> Ordered(m, AfterRoll(c, side, u)))
  {
    var u := ExecutePartialRoll(cfg, st, m, positions, side, rollAllowedByDte).update;
    assert c.KeyOf(Short(side)).Some? && c.KeyOf(Long(side)).Some? && c.KeyOf(Short(Other(side))).Some?;
    FourPrices(u.legs);
  }

  lemma FourPrices(legs: seq<LegSpec>)
    requires |legs| == 4 && legs[0].action == BUY && legs[1].action == SELL
    requires legs[2].action == SELL && legs[3].action == BUY
    requires forall i :: 0 <= i < 4 ==> legs[i].quantity == 1
    ensures Paid(legs, BUY) == legs[0].price + legs[3].price
    ensures Paid(legs, SELL) == legs[1].price + legs[2].price
  {
    assert legs[..3][..2] == legs[..2] && legs[..2][..1] == legs[..1] && legs[..1][..0] == [];
    forall a: Action
      ensures Paid(legs, a) == (if legs[0].action == a then legs[0].price else 0.0)
        + (if legs[1].action == a then legs[1].price else 0.0)
        + (if legs[2].action == a then legs[2].price else 0.0)
        + (if legs[3].action == a then legs[3].price else 0.0)
    {
      assert Paid(legs[..1], a) == if legs[0].action == a then legs[0].price else 0.0;
      assert Paid(legs[..2], a) == Paid(legs[..1], a) + if legs[1].action == a then legs[1].price else 0.0;
      assert Paid(legs[..3], a) == Paid(legs[..2], a) + if legs[2].action == a then legs[2].price else 0.0;
    }
  }

  /** The cap needs the credit to be set: at credit 0 a roll of any debit goes through. */
  lemma NoCreditNoCap(cfg: Config, debit: real) returns (m: Market, positions: seq<Position>, st: RollState)
    requires debit > 0.0 && cfg.maxRolls > 0 && cfg.longWingDeltaFloor <= 0.1 && cfg.longWingMinPremium <= 20.0
    requires cfg.liquidityGate >= 0.0
    ensures st.credit == 0.0
    ensures ExecutePartialRoll(cfg, st, m, positions, Put, true).Rolled?
    ensures ExecutePartialRoll(cfg, st, m, positions, Put, true).update.net == debit
  {
    var wing := OptionLeg(100.0, 20.0, 20.0, 20.0, 0, Some(0.1));
    var short := OptionLeg(200.0, 20.0, 20.0, 20.0, 0, Some(0.25));
    m := Market((k: Key) => if k == "s" then Some(short.(ltp := 20.0 + debit)) else Some(wing),
                (k: Key) => if k == "s" then Some(200.0) else Some(100.0),
                (s: Side) => Some(short), (s: Side) => Some(wing), (s: Side, from: real, to: real) => None,
                (s: Side, strike: real) => Some("k"));
    positions := [Position(Short(Put), "s", -1, 0.0, 0.0, 0), Position(Long(Put), "l", 1, 0.0, 0.0, 0)];
    st := RollState(0, 0, 0.0);
    assert First(positions, Short(Put)) == Some(positions[0]);
    assert positions[1..][0] == positions[1] && First(positions[1..], Long(Put)) == Some(positions[1]);
    assert First(positions, Long(Put)) == Some(positions[1]);
    assert positions[1..][1..] == [];
    assert First(positions[1..], Short(Call)) == None;
    assert First(positions, Short(Call)) == None;
    assert SelectLongWing(cfg, m, Put) == Some(wing);
  }
}
