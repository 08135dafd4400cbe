/** The expiry and profit levels of a tick, told from its days to expiry, its money and the stored lock. With
    `CondorDeltas` and `CondorGuards` every event of the ladder is told without the table. */
module CondorTicks {
  import opened Wrappers
  import opened PaperLedger
  import opened CondorRoll
  import opened CondorLadder
  import opened CondorDeltas
  import opened CondorReadings

  function WholeClose(kind: EventKind, reason: Reason): Event {
    Event(kind, ACTION, None, reason, Some(CloseFull), [], None, None)
  }

  predicate ExpiryReason(r: Reason) { r == DteForceClose || r == DteCloseFull }

  /** The events are that of the i-th level, before which nothing fires. */
  lemma LevelDecides(cfg: Config, st: RollState, lock: Option<Lock>, t: Tick, events: seq<Event>, i: nat)
    requires MatchesTable(cfg, st, lock, t, events) && Evaluable(t) && i < |LEVELS|
    requires Fires(cfg, st, lock, t, LEVELS[i]) && forall j :: 0 <= j < i ==> !Fires(cfg, st, lock, t, LEVELS[j])
    ensures events == [Outcome(cfg, st, lock, t, LEVELS[i])]
  {
    var k: nat :| Decides(cfg, st, lock, t, k) && events == [Outcome(cfg, st, lock, t, LEVELS[k])];
    assert k == i;
  }

  /** An open condor on its last day, or within the days its configuration closes at, is closed before anything else is
      looked at, for that reason; and no other tick is closed for it. */
  lemma ExpiryForcesClose(cfg: Config, st: RollState, lock: Option<Lock>, t: Tick, events: seq<Event>)
    requires MatchesTable(cfg, st, lock, t, events)
    ensures if Live(t.positions) != [] && t.dte.Some? && (t.dte.value <= 1 || t.dte.value <= cfg.closeFullDte) then
              events == [WholeClose(FORCED_CLOSE, if t.dte.value <= 1 then DteForceClose else DteCloseFull)]
            else forall e :: e in events ==> !ExpiryReason(e.reason)
  {
    assert LEVELS[0] == DteHardClose;
    if Evaluable(t) {
      if Fires(cfg, st, lock, t, LEVELS[0]) {
        LevelDecides(cfg, st, lock, t, events, 0);
      } else if events != [] {
        var k: nat :| Decides(cfg, st, lock, t, k) && events == [Outcome(cfg, st, lock, t, LEVELS[k])];
      }
    }
  }

  /** What is left to pay for closing is at most the retained fraction of a positive credit. */
  predicate TargetReached(cfg: Config, t: Tick, credit: real) {
    && Complete(t.market, Live(t.positions)) && credit > 0.0
    && LeftToPay(t.market, Live(t.positions)) <= cfg.profitRetention * credit
  }

  predicate WantsZoneTwo(cfg: Config, lock: Option<Lock>, t: Tick, credit: real) {
    && lock.Some? && Gained(t, credit, cfg.zone2Trigger) && !lock.value.zone2Executed
    && ShortsKnown(t) && t.decision != NoAction
  }

  predicate EntersZoneOne(cfg: Config, lock: Option<Lock>, t: Tick, credit: real) {
    && lock.Some? && Gained(t, credit, cfg.zone1Trigger) && !Gained(t, credit, cfg.zone2Trigger) && lock.value.zone < 1
  }

  ghost predicate PastDeltas(cfg: Config, st: RollState, t: Tick) {
    PastExpiryLevels(cfg, t) && !Unanswerable(cfg, st, t, Put) && !Unanswerable(cfg, st, t, Call)
  }

  /** Past expiry and hard deltas the money decides: the profit target closes the condor, else what the engine answers
      in Zone 2 closes it or locks its wings, else Zone 1 is told. Each is the only event of the tick. */
  lemma ProfitDecides(cfg: Config, st: RollState, lock: Option<Lock>, t: Tick, events: seq<Event>, credit: real)
    requires MatchesTable(cfg, st, lock, t, events) && PastDeltas(cfg, st, t) && CreditIs(t, credit)
    ensures
      if TargetReached(cfg, t, credit) then events == [WholeClose(CLOSE_FULL, ProfitTarget)]
      else if WantsZoneTwo(cfg, lock, t, credit) then
        if t.decision.CloseAll? then events == [WholeClose(FORCED_CLOSE, ProfitLockClose)]
        else
          && |events| == 1 && events[0] == ZoneTwo(t, lock.value)
          && events[0].kind == PROFIT_LOCK_ZONE2 && events[0].severity == ACTION
          && events[0].action == Some(ProfitLockZone2) && events[0].side.None? && events[0].roll.None?
      else if EntersZoneOne(cfg, lock, t, credit) then
        events == [Event(PROFIT_LOCK_ZONE1, INFO, None, NoReason, None, [], None, None)]
      else forall e :: e in events ==> e.kind in {ROLL_WING, DELTA_STOP, DELTA_WARN}
  {
    assert LEVELS[0] == DteHardClose && LEVELS[1] == HardDelta && LEVELS[2] == TakeProfit && LEVELS[3] == LockZone2;
    assert LEVELS[4] == LockZone1;
    DeltasPassed(cfg, st, lock, t);
    MoneyLevels(cfg, st, lock, t, credit);
    if TargetReached(cfg, t, credit) {
      LevelDecides(cfg, st, lock, t, events, 2);
    } else if WantsZoneTwo(cfg, lock, t, credit) {
      LevelDecides(cfg, st, lock, t, events, 3);
    } else if EntersZoneOne(cfg, lock, t, credit) {
      LevelDecides(cfg, st, lock, t, events, 4);
    } else if events != [] {
      var k: nat :| Decides(cfg, st, lock, t, k) && events == [Outcome(cfg, st, lock, t, LEVELS[k])];
      assert k >= 5;
      LaterKinds(cfg, st, lock, t, k);
    }
  }

  lemma DeltasPassed(cfg: Config, st: RollState, lock: Option<Lock>, t: Tick)
    requires PastDeltas(cfg, st, t)
    ensures !Fires(cfg, st, lock, t, DteHardClose) && !Fires(cfg, st, lock, t, HardDelta)
  {
    BreachIff(t, Put, cfg.forcedDelta);
    BreachIff(t, Call, cfg.forcedDelta);
    BreachIff(t, Put, cfg.rollDelta);
    BreachIff(t, Call, cfg.rollDelta);
  }

  lemma MoneyLevels(cfg: Config, st: RollState, lock: Option<Lock>, t: Tick, credit: real)
    requires t.dte.Some? && CreditIs(t, credit)
    ensures Fires(cfg, st, lock, t, TakeProfit) <==> TargetReached(cfg, t, credit)
    ensures Fires(cfg, st, lock, t, LockZone2) <==> WantsZoneTwo(cfg, lock, t, credit)
    ensures Fires(cfg, st, lock, t, LockZone1) <==> EntersZoneOne(cfg, lock, t, credit)
  {
    TargetIsRetainedFraction(cfg, st, lock, t, credit);
    if lock.Some? { ZonesAreSharesOfCredit(cfg, st, lock.value, t, credit); }
  }

  lemma LaterKinds(cfg: Config, st: RollState, lock: Option<Lock>, t: Tick, k: nat)
    requires t.dte.Some? && 5 <= k < |LEVELS| && Fires(cfg, st, lock, t, LEVELS[k])
    ensures Outcome(cfg, st, lock, t, LEVELS[k]).kind in {ROLL_WING, DELTA_STOP, DELTA_WARN}
  {
    assert LEVELS[5] == RollTrigger && LEVELS[6] == Warning;
  }
}
