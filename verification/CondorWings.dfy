/** On which side of its short a long wing lies and how far, told by deltas: in a chain whose absolute delta falls
    away from the money, and over every run of ticks. */
module CondorWings {
  import opened Wrappers
  import opened PaperLedger
  import opened StrikeSearch
  import opened CondorRoll
  import opened CondorLadder
  import opened CondorSignals
  import opened CondorCycle

  /** Strike a lies farther from the money than strike b. */
  predicate Farther(side: Side, a: real, b: real) { if side == Put then a < b else a > b }

  predicate HasDelta(chain: seq<Option<OptionLeg>>, l: OptionLeg) { Some(l) in chain && l.delta.Some? }

  /** One side of a chain: a leg per strike, with deltas, where known, that fall away from the money. */
  ghost predicate FallsAway(side: Side, chain: seq<Option<OptionLeg>>) {
    && (forall i, j :: 0 <= i < j < |chain| && chain[i].Some? && chain[j].Some? ==>
          chain[i].value.strike != chain[j].value.strike)
    && (forall a, b :: HasDelta(chain, a) && HasDelta(chain, b) && Farther(side, a.strike, b.strike) ==>
          Abs(a.delta.value) < Abs(b.delta.value))
  }

  /** The chain quotes the leg of a key, with its delta, at the strike the master knows. */
  ghost predicate Quotes(m: Market, chain: seq<Option<OptionLeg>>, key: Key) {
    m.leg(key).Some? && HasDelta(chain, m.leg(key).value) && m.strikeOf(key) == Some(m.leg(key).value.strike)
  }

  lemma FartherIff(side: Side, chain: seq<Option<OptionLeg>>, a: OptionLeg, b: OptionLeg)
    requires FallsAway(side, chain) && HasDelta(chain, a) && HasDelta(chain, b)
    ensures Farther(side, a.strike, b.strike) <==> Abs(a.delta.value) < Abs(b.delta.value)
    ensures a == b <==> Abs(a.delta.value) == Abs(b.delta.value)
  {
    var i: nat :| i < |chain| && chain[i] == Some(a);
    var j: nat :| j < |chain| && chain[j] == Some(b);
  }

  /** Different places of a chain have different deltas. */
  lemma DeltasDiffer(side: Side, chain: seq<Option<OptionLeg>>, i: nat, j: nat)
    requires FallsAway(side, chain) && i < |chain| && j < |chain| && i != j && chain[i].Some? && chain[j].Some?
    requires chain[i].value.delta.Some? && chain[j].value.delta.Some?
    ensures Abs(chain[i].value.delta.value) != Abs(chain[j].value.delta.value)
  {
    assert chain[i] in chain && chain[j] in chain;
    FartherIff(side, chain, chain[i].value, chain[j].value);
  }

  /** How far the wing lies beyond its short; negative on the wrong side of it. */
  function Reach(master: Key -> Option<real>, c: Condor, side: Side): real
    requires Known(master, c)
  {
    if side == Put then master(c.shortPut).value - master(c.longPut).value
    else master(c.longCall).value - master(c.shortCall).value
  }

  predicate WingOutside(master: Key -> Option<real>, c: Condor, side: Side)
    requires Known(master, c)
  {
    Reach(master, c, side) > 0.0
  }

  predicate WingInside(master: Key -> Option<real>, c: Condor, side: Side)
    requires Known(master, c)
  {
    Reach(master, c, side) < 0.0
  }

  // --- Zone 2 locks -----------------------------------------------------------------------

  /** The chain of a tick quotes the legs of a side and the wing chosen for it. */
  ghost predicate LockQuoted(t: Tick, c: Condor, side: Side, chain: seq<Option<OptionLeg>>) {
    && FallsAway(side, chain)
    && Quotes(t.market, chain, ShortKey(c, side)) && Quotes(t.market, chain, LongKey(c, side))
    && (WingOf(t.decision, side).Some? ==> HasDelta(chain, WingOf(t.decision, side).value))
  }

  /** The delta of a leg, on the scale of absolute deltas. */
  function DeltaOrZero(l: Option<OptionLeg>): real {
    if l.Some? && l.value.delta.Some? then Abs(l.value.delta.value) else 0.0
  }

  /** Visible before the trades: the chosen wing's delta is above the short's. */
  predicate LockCrosses(t: Tick, c: Condor, side: Side) {
    DeltaOrZero(WingOf(t.decision, side)) > DeltaOrZero(t.market.leg(ShortKey(c, side)))
  }

  /** Visible before the trades: the chosen wing's delta is below the short's. */
  predicate LockStaysOut(t: Tick, c: Condor, side: Side) {
    DeltaOrZero(WingOf(t.decision, side)) < DeltaOrZero(t.market.leg(ShortKey(c, side)))
  }

  /** Visible before the trades: the wing held has more delta than the wing chosen. */
  predicate LockReachesFarther(t: Tick, c: Condor, side: Side) {
    DeltaOrZero(t.market.leg(LongKey(c, side))) > DeltaOrZero(WingOf(t.decision, side))
  }

  /** A stored Zone 2 lock puts the wing outside or inside its short just as its delta is below or above the short's,
      and takes it no farther exactly when the old wing has no more delta than the new one. Of a vertical that
      was and stays the right way round the last holds of the width. */
  lemma ZoneTwoWidthByDelta(cfg: Config, master: Key -> Option<real>, s: Cycle, turn: Turn, side: Side,
                            chain: seq<Option<OptionLeg>>)
    requires Possible(cfg, master, s, turn) && Known(master, s.condor) && ZoneTwoStored(turn)
    requires LockQuoted(turn.tick, s.condor, side, chain)
    ensures var b := After(s, turn).condor;
      && Known(master, b)
      && (WingOutside(master, b, side) <==> LockStaysOut(turn.tick, s.condor, side))
      && (WingInside(master, b, side) <==> LockCrosses(turn.tick, s.condor, side))
      && (Reach(master, b, side) <= Reach(master, s.condor, side)
          <==> !LockReachesFarther(turn.tick, s.condor, side))
      && (WingOutside(master, s.condor, side) && WingOutside(master, b, side) ==>
            (WidthOf(master, b, side) <= WidthOf(master, s.condor, side)
             <==> !LockReachesFarther(turn.tick, s.condor, side)))
  {
    LockMovesWing(cfg, master, s, turn, side);
    var m, wing := turn.tick.market, WingOf(turn.tick.decision, side).value;
    FartherIff(side, chain, wing, m.leg(ShortKey(s.condor, side)).value);
    FartherIff(side, chain, wing, m.leg(LongKey(s.condor, side)).value);
  }

  /** A stored Zone 2 lock keeps the shorts and puts the chosen wings in. */
  lemma LockMovesWing(cfg: Config, master: Key -> Option<real>, s: Cycle, turn: Turn, side: Side)
    requires Possible(cfg, master, s, turn) && Known(master, s.condor) && ZoneTwoStored(turn)
    ensures var b := After(s, turn).condor;
      && Known(master, b) && WingOf(turn.tick.decision, side).Some?
      && ShortKey(b, side) == ShortKey(s.condor, side)
      && master(LongKey(b, side)) == Some(WingOf(turn.tick.decision, side).value.strike)
  {
    if turn.events[0].roll.Some? {
      RollEvent(cfg, s.st, s.lock, turn.tick, turn.events);
    }
    OtherEvent(cfg, s.st, s.lock, turn.tick, turn.events);
    ZoneTwoWings(turn.tick, s.lock.value);
  }

  // --- Rolls --------------------------------------------------------------------------------

  /** The deltas a side is searched by; the floor of the wing band is the configured one. */
  datatype Bands = Bands(shortLo: real, shortHi: real, shortTarget: real, wingHi: real, wingTarget: real)
  {
    /** The wing's target lies in its band and below every short. */
    predicate Sound(cfg: Config) { cfg.longWingDeltaFloor <= wingTarget <= wingHi && wingTarget < shortLo }
  }

  /** Both candidates come from the search over one chain, and the narrower-wing search looks strictly between the
      wing held and the new short. */
  ghost predicate Searched(cfg: Config, m: Market, side: Side, b: Bands, chain: seq<Option<OptionLeg>>) {
    && FallsAway(side, chain) && b.Sound(cfg)
    && Found(chain, b.shortLo, b.shortHi, b.shortTarget, m.shortCandidate(side))
    && Found(chain, cfg.longWingDeltaFloor, b.wingHi, b.wingTarget, m.wingCandidate(side))
    && (forall held: real, short: real :: m.narrowerWing(side, held, short).Some? ==>
          && Farther(side, held, m.narrowerWing(side, held, short).value.strike)
          && Farther(side, m.narrowerWing(side, held, short).value.strike, short))
  }

  /** The new short is picked again as its own wing. */
  predicate Collapses(cfg: Config, m: Market, side: Side) {
    m.shortCandidate(side).Some? && SelectLongWing(cfg, m, side) == m.shortCandidate(side)
  }

  /** A leg with more delta than the new short would be farther from the wing's target than the short itself, so
      the wing has no more delta than the short. */
  lemma WingBelowShort(cfg: Config, m: Market, side: Side, b: Bands, chain: seq<Option<OptionLeg>>)
    requires Searched(cfg, m, side, b, chain) && m.shortCandidate(side).Some? && m.wingCandidate(side).Some?
    ensures m.shortCandidate(side) in chain && m.wingCandidate(side) in chain
    ensures DeltaOrZero(m.wingCandidate(side)) <= DeltaOrZero(m.shortCandidate(side))
  {
    var lo := cfg.longWingDeltaFloor;
    var i: nat :| Wins(chain, i, b.shortLo, b.shortHi, b.shortTarget) && chain[i] == m.shortCandidate(side);
    var j: nat :| Wins(chain, j, lo, b.wingHi, b.wingTarget) && chain[j] == m.wingCandidate(side);
    if Abs(chain[j].value.delta.value) > Abs(chain[i].value.delta.value) {
      assert Listed(chain, i, lo, b.wingHi);
      assert false;
    }
  }

  /** A roll never puts its wing inside its short. It gives the vertical no width at all, buying and selling one
      contract, exactly when the new short is picked again as its own wing; the width guard lets that pass. */
  lemma RollNeverCrosses(cfg: Config, st: RollState, m: Market, positions: seq<Position>, c: Condor, side: Side,
                         allowed: bool, b: Bands, chain: seq<Option<OptionLeg>>)
    requires Holds(positions, c) && Known(m.strikeOf, c) && MasterConsistent(m) && Searched(cfg, m, side, b, chain)
    requires ExecutePartialRoll(cfg, st, m, positions, side, allowed).Rolled?
    ensures var u := ExecutePartialRoll(cfg, st, m, positions, side, allowed).update;
      && |u.legs| == 4 && Known(m.strikeOf, AfterRoll(c, side, u))
      && !WingInside(m.strikeOf, AfterRoll(c, side, u), side)
      && (WingOutside(m.strikeOf, AfterRoll(c, side, u), side) <==> !Collapses(cfg, m, side))
      && (u.legs[2].key == u.legs[3].key <==> Collapses(cfg, m, side))
  {
    RollIsSafe(cfg, st, m, positions, c, side, allowed);
    var wing := SelectLongWing(cfg, m, side);
    if wing.Some? {
      WingBelowShort(cfg, m, side, b, chain);
      FartherIff(side, chain, wing.value, m.shortCandidate(side).value);
    }
  }

  predicate ClearsFloors(cfg: Config, l: OptionLeg) { Mid(l) >= cfg.longWingMinPremium && Liquid(cfg, l) }

  /** The leg at j has more delta than the one at i, or so little that it is farther from the wing's target, or is as
      far with less open interest, or as much and listed later. */
  predicate LosesTo(b: Bands, chain: seq<Option<OptionLeg>>, j: nat, i: nat)
    requires i < |chain| && j < |chain| && chain[i].Some? && chain[j].Some?
  {
    var short, other := DeltaOrZero(chain[i]), DeltaOrZero(chain[j]);
    || other > short || other < 2.0 * b.wingTarget - short
    || (other == 2.0 * b.wingTarget - short
        && if j < i then chain[i].value.oi > chain[j].value.oi else chain[i].value.oi >= chain[j].value.oi)
  }

  /** Told by the chain: the new short clears the floors of a wing and lies in the wing band, and every other leg
      there loses to it. */
  ghost predicate NearestIsShort(cfg: Config, b: Bands, chain: seq<Option<OptionLeg>>, i: nat) {
    && Listed(chain, i, cfg.longWingDeltaFloor, b.wingHi) && ClearsFloors(cfg, chain[i].value)
    && forall j | 0 <= j < |chain| && j != i && Listed(chain, j, cfg.longWingDeltaFloor, b.wingHi) ::
         LosesTo(b, chain, j, i)
  }

  /** Of two legs, one with more delta than the target. */
  lemma PreferredIff(a: OptionLeg, c: OptionLeg, target: real)
    requires a.delta.Some? && c.delta.Some? && Abs(a.delta.value) > target
    requires Abs(a.delta.value) != Abs(c.delta.value)
    ensures var short, other := Abs(a.delta.value), Abs(c.delta.value);
      && (Preferred(a, c, target)
          <==> other > short || other < 2.0 * target - short || (other == 2.0 * target - short && a.oi > c.oi))
      && (!Preferred(c, a, target)
          <==> other > short || other < 2.0 * target - short || (other == 2.0 * target - short && a.oi >= c.oi))
  {
  }

  lemma ShortWinsIff(cfg: Config, side: Side, b: Bands, chain: seq<Option<OptionLeg>>, i: nat)
    requires FallsAway(side, chain) && b.Sound(cfg)
    requires Listed(chain, i, b.shortLo, b.shortHi) && ClearsFloors(cfg, chain[i].value)
    ensures Wins(chain, i, cfg.longWingDeltaFloor, b.wingHi, b.wingTarget) <==> NearestIsShort(cfg, b, chain, i)
  {
    var lo := cfg.longWingDeltaFloor;
    forall j: nat | j < |chain| && j != i && Listed(chain, j, lo, b.wingHi)
      ensures Abs(chain[i].value.delta.value) > b.wingTarget
      ensures Abs(chain[i].value.delta.value) != Abs(chain[j].value.delta.value)
    {
      DeltasDiffer(side, chain, i, j);
    }
    if Listed(chain, i, lo, b.wingHi) {
      forall j: nat | j < |chain| && j != i && Listed(chain, j, lo, b.wingHi)
        ensures (if j < i then Preferred(chain[i].value, chain[j].value, b.wingTarget)
                 else !Preferred(chain[j].value, chain[i].value, b.wingTarget))
           <==> LosesTo(b, chain, j, i)
      {
        PreferredIff(chain[i].value, chain[j].value, b.wingTarget);
      }
    }
  }

  /** When a roll collapses, from the chain alone. */
  lemma CollapsesIff(cfg: Config, m: Market, side: Side, b: Bands, chain: seq<Option<OptionLeg>>, i: nat)
    requires Searched(cfg, m, side, b, chain)
    requires Wins(chain, i, b.shortLo, b.shortHi, b.shortTarget) && chain[i] == m.shortCandidate(side)
    ensures Collapses(cfg, m, side) <==> NearestIsShort(cfg, b, chain, i)
  {
    var lo := cfg.longWingDeltaFloor;
    if Collapses(cfg, m, side) {
      var k: nat :| Wins(chain, k, lo, b.wingHi, b.wingTarget) && chain[k] == m.wingCandidate(side);
      assert k == i by { if k != i { DeltasDiffer(side, chain, k, i); } }
      ShortWinsIff(cfg, side, b, chain, i);
    } else if NearestIsShort(cfg, b, chain, i) {
      ShortWinsIff(cfg, side, b, chain, i);
      assert Found(chain, lo, b.wingHi, b.wingTarget, chain[i]);
      FoundIsUnique(chain, lo, b.wingHi, b.wingTarget, chain[i], m.wingCandidate(side));
    }
  }

  /** Bands that do not overlap, as on the put side: no roll collapses. */
  lemma BandsApartKeepWidth(cfg: Config, m: Market, side: Side, b: Bands, chain: seq<Option<OptionLeg>>)
    requires Searched(cfg, m, side, b, chain) && b.wingHi < b.shortLo
    ensures !Collapses(cfg, m, side)
  {
  }

  // --- Over runs ----------------------------------------------------------------------------

  /** What the chain of a turn gives, as far as the turn moves strikes of the side. */
  ghost predicate TurnSearched(cfg: Config, s: Cycle, turn: Turn, side: Side, b: Bands) {
    && (RollStored(turn, side) ==> exists chain :: Searched(cfg, turn.tick.market, side, b, chain))
    && (ZoneTwoStored(turn) ==> exists chain :: LockQuoted(turn.tick, s.condor, side, chain))
  }

  /** Where a wing lies, from what is visible before the turns that move it. */
  datatype Place = Place(outside: bool, inside: bool)

  function PlaceOf(master: Key -> Option<real>, c: Condor, side: Side): Place
    requires Known(master, c)
  {
    Place(WingOutside(master, c, side), WingInside(master, c, side))
  }

  function PlaceNext(cfg: Config, s: Cycle, turn: Turn, side: Side, place: Place): Place {
    if RollStored(turn, side) then Place(!Collapses(cfg, turn.tick.market, side), false)
    else if ZoneTwoStored(turn) then
      Place(LockStaysOut(turn.tick, s.condor, side), LockCrosses(turn.tick, s.condor, side))
    else place
  }

  lemma TurnPlacesWing(cfg: Config, master: Key -> Option<real>, s: Cycle, turn: Turn, side: Side, b: Bands)
    requires Possible(cfg, master, s, turn) && Known(master, s.condor) && TurnSearched(cfg, s, turn, side, b)
    ensures Known(master, After(s, turn).condor)
    ensures PlaceOf(master, After(s, turn).condor, side)
         == PlaceNext(cfg, s, turn, side, PlaceOf(master, s.condor, side))
  {
    TurnKeepsOrder(cfg, master, s, turn);
    if ZoneTwoStored(turn) {
      var chain :| LockQuoted(turn.tick, s.condor, side, chain);
      ZoneTwoWidthByDelta(cfg, master, s, turn, side, chain);
      if turn.events[0].roll.Some? { RollEvent(cfg, s.st, s.lock, turn.tick, turn.events); }
    } else if turn.events != [] && turn.events[0].roll.Some? {
      RollPlacesWing(cfg, master, s, turn, side, b);
    } else {
      OtherEvent(cfg, s.st, s.lock, turn.tick, turn.events);
    }
  }

  lemma RollPlacesWing(cfg: Config, master: Key -> Option<real>, s: Cycle, turn: Turn, side: Side, b: Bands)
    requires Possible(cfg, master, s, turn) && Known(master, s.condor) && TurnSearched(cfg, s, turn, side, b)
    requires turn.events != [] && turn.events[0].roll.Some?
    requires Known(master, After(s, turn).condor)
    ensures PlaceOf(master, After(s, turn).condor, side)
         == PlaceNext(cfg, s, turn, side, PlaceOf(master, s.condor, side))
  {
    RollEvent(cfg, s.st, s.lock, turn.tick, turn.events);
    if RollStored(turn, side) {
      var chain :| Searched(cfg, turn.tick.market, side, b, chain);
      RollNeverCrosses(cfg, s.st, turn.tick.market, Live(turn.tick.positions), s.condor, side, true, b, chain);
    }
  }

  ghost predicate RunSearched(cfg: Config, s: Cycle, run: seq<Turn>, side: Side, b: Bands)
    decreases |run|
  {
    run == [] || (TurnSearched(cfg, s, run[0], side, b) && RunSearched(cfg, After(s, run[0]), run[1..], side, b))
  }

  /** The last stored move of the wing decides; without one it stays where it was. */
  function PlaceAfter(cfg: Config, s: Cycle, run: seq<Turn>, side: Side, place: Place): Place
    decreases |run|
  {
    if run == [] then place
    else PlaceAfter(cfg, After(s, run[0]), run[1..], side, PlaceNext(cfg, s, run[0], side, place))
  }

  /** Over every run, whichever updates reach the ledger: where a wing ends is told by the last stored roll or Zone 2
      lock that moved it, and only a lock puts it inside its short. */
  lemma {:induction false} WingPlaceOverRun(cfg: Config, master: Key -> Option<real>, s: Cycle, run: seq<Turn>,
                                            side: Side, b: Bands)
    requires CycleRun(cfg, master, s, run) && Known(master, s.condor) && RunSearched(cfg, s, run, side, b)
    ensures Known(master, Final(s, run).condor)
    ensures PlaceOf(master, Final(s, run).condor, side)
         == PlaceAfter(cfg, s, run, side, PlaceOf(master, s.condor, side))
    decreases |run|
  {
    if run != [] {
      TurnPlacesWing(cfg, master, s, run[0], side, b);
      WingPlaceOverRun(cfg, master, After(s, run[0]), run[1..], side, b);
    }
  }

  /** Over every run whose stored strike changes are rolls: a wing that starts outside its short never gets inside it,
      and with bands that do not overlap it stays strictly outside. */
  lemma {:induction false} RollsKeepWingOut(cfg: Config, master: Key -> Option<real>, s: Cycle, run: seq<Turn>,
                                            side: Side, b: Bands)
    requires CycleRun(cfg, master, s, run) && Known(master, s.condor) && RunSearched(cfg, s, run, side, b)
    requires RollsOnly(run)
    ensures Known(master, Final(s, run).condor)
    ensures !WingInside(master, s.condor, side) ==> !WingInside(master, Final(s, run).condor, side)
    ensures b.wingHi < b.shortLo && WingOutside(master, s.condor, side) ==>
      WingOutside(master, Final(s, run).condor, side)
    decreases |run|
  {
    if run != [] {
      TurnPlacesWing(cfg, master, s, run[0], side, b);
      if RollStored(run[0], side) && b.wingHi < b.shortLo {
        var chain :| Searched(cfg, run[0].tick.market, side, b, chain);
        BandsApartKeepWidth(cfg, run[0].tick.market, side, b, chain);
      }
      RollsKeepWingOut(cfg, master, After(s, run[0]), run[1..], side, b);
    }
  }
}
