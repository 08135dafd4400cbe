/** The strategy object: roll counters, entry credit and the persisted profit lock, and the evaluators
    that read and update them, each proved against the table of `CondorLadder`. */
module CondorSignals {
  import opened Wrappers
  import opened PaperLedger
  import opened CondorRoll
  import opened CondorLadder
  import opened CondorStore

  const SIDES: seq<Side> := [Put, Call]

  datatype Adjustment =
    | Hold
    | Forced(side: Side, exhausted: bool)
    | Roll(side: Side, update: Update)
    | Stop(side: Side, guard: Guard)
    | Warn(side: Side)

  datatype DteAction = Normal | CloseNow | ForceNow

  /** What the second evaluator should answer, threshold by threshold over both sides. */
  function Adjust(cfg: Config, st: RollState, m: Market, live: seq<Position>, rollAllowedByDte: bool): Adjustment {
    if Breach(m, live, Put, cfg.forcedDelta) || Breach(m, live, Call, cfg.forcedDelta) then
      Forced(FirstSide(s => Breach(m, live, s, cfg.forcedDelta)), false)
    else if Breach(m, live, Put, cfg.rollDelta) || Breach(m, live, Call, cfg.rollDelta) then
      var side := FirstSide(s => Breach(m, live, s, cfg.rollDelta));
      if st.Rolls(side) >= cfg.maxRolls then Forced(side, true)
      else
        match ExecutePartialRoll(cfg, st, m, live, side, rollAllowedByDte)
        case Rolled(u) => Roll(side, u)
        case Blocked(guard) => Stop(side, guard)
    else if Breach(m, live, Put, cfg.warnDelta) || Breach(m, live, Call, cfg.warnDelta) then
      Warn(FirstSide(s => Breach(m, live, s, cfg.warnDelta)))
    else Hold
  }

  function DteDecision(cfg: Config, dte: int): DteAction {
    if dte <= 1 then ForceNow else if dte <= cfg.closeFullDte then CloseNow else Normal
  }

  function RollResultToSignal(r: Adjustment, dteAction: DteAction): Event
    requires !r.Hold?
  {
    match r
    case Warn(side) => Signal(DELTA_WARN, WARN, Some(side), NoReason, None)
    case Roll(side, u) => RollSignal(side, u)
    case Stop(side, guard) =>
      if guard == DteCutoff && dteAction == CloseNow then ForcedClose(Some(side), DteBlocksRoll)
      else Signal(DELTA_STOP, ACTION, Some(side), RollBlocked(guard), Some(CloseFull))
    case Forced(side, exhausted) => ForcedClose(Some(side), if exhausted then RollsExhausted else ExtremeDelta)
  }

  /** The two evaluators agree that a forced close is due, except when the call has used up its rolls
      while the put, looked at first, may still roll and neither delta is extreme. */
  lemma EvaluatorsAgreeIff(cfg: Config, st: RollState, m: Market, live: seq<Position>, allowed: bool)
    ensures Adjust(cfg, st, m, live, allowed).Forced? ==> Hard(cfg, st, m, live, Put) || Hard(cfg, st, m, live, Call)
    ensures var hard := Hard(cfg, st, m, live, Put) || Hard(cfg, st, m, live, Call);
      (hard && !Adjust(cfg, st, m, live, allowed).Forced?)
      <==> (&& !Breach(m, live, Put, cfg.forcedDelta) && !Breach(m, live, Call, cfg.forcedDelta)
            && Breach(m, live, Put, cfg.rollDelta) && st.put < cfg.maxRolls
            && Breach(m, live, Call, cfg.rollDelta) && st.call >= cfg.maxRolls)
  {
  }

  /** Once the ladder's levels 1 to 3 pass, the second evaluator never forces a close, never meets the
      expiry or used-up guards, and its answer is the ladder's roll or warning level. */
  lemma AdjustmentAfterHardLevels(cfg: Config, st: RollState, lock: Option<Lock>, t: Tick)
    requires t.dte.Some?
    requires !Fires(cfg, st, lock, t, DteHardClose) && !Fires(cfg, st, lock, t, HardDelta)
    ensures var r := Adjust(cfg, st, t.market, Live(t.positions), t.dte.value > cfg.closeFullDte);
      && !r.Forced? && (r.Stop? ==> r.guard != DteCutoff && r.guard != MaxRollsExhausted)
      && (r.Hold? <==> !Fires(cfg, st, lock, t, RollTrigger) && !Fires(cfg, st, lock, t, Warning))
      && (r.Hold? ||
          RollResultToSignal(r, Normal)
          == Outcome(cfg, st, lock, t, if Fires(cfg, st, lock, t, RollTrigger) then RollTrigger else Warning))
  {
    var live := Live(t.positions);
    var dte := t.dte.value;
    if Fires(cfg, st, lock, t, RollTrigger) {
      var side := FirstSide(s => Breach(t.market, live, s, cfg.rollDelta));
      RollNeverMeetsPassedGuards(cfg, st, t.market, live, dte, side);
    }
  }

  /** The state in which a cycle starts. */
  function FreshRolls(credit: real): RollState { RollState(0, 0, credit) }

  /** The counters after a tick's events: a roll is counted when it is signalled. */
  function StateAfter(st: RollState, events: seq<Event>): RollState {
    if |events| == 1 && events[0].kind == ROLL_WING && events[0].side.Some? then st.Counted(events[0].side.value)
    else st
  }

  /** The stored lock after a tick's events: reaching Zone 1 is stored when it is signalled. */
  function LockAfter(lock: Option<Lock>, events: seq<Event>): Option<Lock> {
    if |events| == 1 && events[0].kind == PROFIT_LOCK_ZONE1 && lock.Some? then Some(lock.value.(zone := 1)) else lock
  }

  class IronCondor {
    const cfg: Config
    const store: PaperStore?
    var state: RollState

    constructor (cfg: Config, store: PaperStore?)
      ensures this.cfg == cfg && this.store == store && state == FreshRolls(0.0)
    {
      this.cfg, this.store, this.state := cfg, store, FreshRolls(0.0);
    }

    function LockNow(): Option<Lock>
      reads store
    {
      if store == null then None else Some(store.lock)
    }

    /** Without a store nothing is read from it. */
    function Seen(t: Tick): Tick { if store == null then t.(storedCredit := None) else t }

    method ResetRollState()
      modifies this
      ensures state == FreshRolls(0.0)
    {
      state := FreshRolls(0.0);
    }

    method SetOriginalCredit(credit: real)
      modifies this
      ensures state == old(state).(credit := credit)
    {
      state := state.(credit := credit);
    }

    /** What the caller does after an entry, whatever the cycle before it was. */
    method BeginCycle(credit: real)
      modifies this
      ensures state == FreshRolls(credit)
    {
      ResetRollState();
      SetOriginalCredit(credit);
    }

    /** Fails closed: one leg missing from the chain and there is no mark. */
    method CombinedPnl(m: Market, live: seq<Position>) returns (mark: Option<real>, credit: real)
      ensures mark == CombinedMark(m, live) && credit == EntryCredit(live)
    {
      var combined, available := 0.0, true;
      credit := 0.0;
      for i := 0 to |live|
        invariant credit == EntryCredit(live[..i])
        invariant available == CombinedMark(m, live[..i]).Some?
        invariant available ==> CombinedMark(m, live[..i]) == Some(combined)
      {
        var pos := live[i];
        var leg := m.leg(pos.key);
        assert live[..i + 1][..i] == live[..i];
        if pos.role.Short? {
          credit := credit + pos.avgSell;
          if leg.Some? { combined := combined + leg.value.ltp; } else { available := false; }
        } else if pos.role.Long? {
          credit := credit - pos.avgCost;
          if leg.Some? { combined := combined - leg.value.ltp; } else { available := false; }
        }
      }
      assert live[..|live|] == live;
      mark := if available then Some(combined) else None;
    }

    method EvaluateAdjustment(m: Market, live: seq<Position>, rollAllowedByDte: bool) returns (r: Adjustment)
      modifies this`state
      ensures r == Adjust(cfg, old(state), m, live, rollAllowedByDte)
      ensures state == if r.Roll? then old(state).Counted(r.side) else old(state)
    {
      for i := 0 to 2
        invariant state == old(state)
        invariant forall j :: 0 <= j < i ==> !Breach(m, live, SIDES[j], cfg.forcedDelta)
      {
        var delta := DeltaOf(m, live, SIDES[i]);
        if delta.Some? && Abs(delta.value) >= cfg.forcedDelta {
          assert i == 1 ==> !Breach(m, live, SIDES[0], cfg.forcedDelta);
          return Forced(SIDES[i], false);
        }
      }
      assert !Breach(m, live, SIDES[0], cfg.forcedDelta) && !Breach(m, live, SIDES[1], cfg.forcedDelta);
      for i := 0 to 2
        invariant state == old(state)
        invariant forall j :: 0 <= j < i ==> !Breach(m, live, SIDES[j], cfg.rollDelta)
      {
        var side := SIDES[i];
        var delta := DeltaOf(m, live, side);
        if delta.None? || Abs(delta.value) < cfg.rollDelta { continue; }
        if state.Rolls(side) >= cfg.maxRolls {
          return Forced(side, true);
        }
        var outcome := ExecutePartialRoll(cfg, state, m, live, side, rollAllowedByDte);
        match outcome {
          case Rolled(u) =>
            state := state.Counted(side);
            return Roll(side, u);
          case Blocked(guard) =>
            return Stop(side, guard);
        }
      }
      assert !Breach(m, live, SIDES[0], cfg.rollDelta) && !Breach(m, live, SIDES[1], cfg.rollDelta);
      for i := 0 to 2
        invariant forall j :: 0 <= j < i ==> !Breach(m, live, SIDES[j], cfg.warnDelta)
      {
        var delta := DeltaOf(m, live, SIDES[i]);
        if delta.Some? && Abs(delta.value) >= cfg.warnDelta {
          return Warn(SIDES[i]);
        }
      }
      assert !Breach(m, live, SIDES[0], cfg.warnDelta) && !Breach(m, live, SIDES[1], cfg.warnDelta);
      return Hold;
    }

    method CheckProfitLock(t: Tick, captured: real) returns (events: seq<Event>)
      requires store != null && t.dte.Some? && Captured(t) == Some(captured)
      modifies store`lock
      ensures var lock := old(LockNow());
        events == if Fires(cfg, state, lock, t, LockZone2) then [Outcome(cfg, state, lock, t, LockZone2)]
                  else if Fires(cfg, state, lock, t, LockZone1) then [Outcome(cfg, state, lock, t, LockZone1)]
                  else []
      ensures LockNow() == LockAfter(old(LockNow()), events)
    {
      var live := Live(t.positions);
      if captured >= cfg.zone2Trigger {
        if !store.lock.zone2Executed {
          var shortPut := StrikeAt(t.market, First(live, Short(Put)));
          var shortCall := StrikeAt(t.market, First(live, Short(Call)));
          if shortPut.None? || shortCall.None? { return []; }
          if t.decision.LockWings? { return [ZoneTwo(t, store.lock)]; }
          if t.decision.CloseAll? { return [ForcedClose(None, ProfitLockClose)]; }
        }
      } else if captured >= cfg.zone1Trigger {
        if store.lock.zone < 1 {
          store.lock := store.lock.(zone := 1);
          return [Signal(PROFIT_LOCK_ZONE1, INFO, None, NoReason, None)];
        }
      }
      return [];
    }

    /** Levels 2 and 3 of the ladder: the put's two conditions, then the call's. */
    method HardDeltaSignal(t: Tick) returns (e: Option<Event>)
      requires t.dte.Some?
      ensures e.Some? <==> Fires(cfg, state, LockNow(), t, HardDelta)
      ensures e.Some? ==> e.value == Outcome(cfg, state, LockNow(), t, HardDelta)
    {
      var live := Live(t.positions);
      for i := 0 to 2
        invariant forall j :: 0 <= j < i ==> !Hard(cfg, state, t.market, live, SIDES[j])
      {
        var side := SIDES[i];
        var delta := DeltaOf(t.market, live, side);
        if delta.None? { continue; }
        assert i == 1 ==> !Hard(cfg, state, t.market, live, SIDES[0]);
        if Abs(delta.value) >= cfg.forcedDelta {
          return Some(ForcedClose(Some(side), ExtremeDelta));
        }
        if Abs(delta.value) >= cfg.rollDelta && state.Rolls(side) >= cfg.maxRolls {
          return Some(ForcedClose(Some(side), RollsExhausted));
        }
      }
      assert !Hard(cfg, state, t.market, live, SIDES[0]) && !Hard(cfg, state, t.market, live, SIDES[1]);
      return None;
    }

    /** Levels 4 to 6. */
    method ProfitSignals(t: Tick) returns (events: seq<Event>)
      requires t.dte.Some? && (store == null ==> t.storedCredit.None?)
      modifies store
      ensures store != null ==> store.ledger == old(store.ledger)
      ensures events == ProfitOutcome(cfg, state, old(LockNow()), t)
      ensures LockNow() == LockAfter(old(LockNow()), events)
    {
      var mark, credit := CombinedPnl(t.market, Live(t.positions));
      if t.storedCredit.Some? { credit := t.storedCredit.value; }
      if mark.Some? && credit > 0.0 {
        if mark.value <= cfg.profitRetention * credit {
          return [Signal(CLOSE_FULL, ACTION, None, ProfitTarget, Some(CloseFull))];
        }
        if store != null {
          events := CheckProfitLock(t, (credit - mark.value) / credit);
          return;
        }
      }
      return [];
    }

    /** One tick matches the table, counts the roll it signals and stores the Zone 1 it signals. */
    method EvaluateSignals(tick: Tick) returns (events: seq<Event>)
      modifies this`state, store
      ensures store != null ==> store.ledger == old(store.ledger)
      ensures MatchesTable(cfg, old(state), old(LockNow()), Seen(tick), events)
      ensures state == StateAfter(old(state), events)
      ensures LockNow() == LockAfter(old(LockNow()), events)
    {
      var t := Seen(tick);
      ghost var st, lock := state, LockNow();
      if Live(t.positions) == [] || t.dte.None? { return []; }
      var dteAction := DteDecision(cfg, t.dte.value);
      if dteAction != Normal {
        events := [ForcedClose(None, if dteAction == ForceNow then DteForceClose else DteCloseFull)];
        LevelDecides(cfg, st, lock, t, 0);
        return;
      }
      var hard := HardDeltaSignal(t);
      if hard.Some? {
        LevelDecides(cfg, st, lock, t, 1);
        return [hard.value];
      }
      events := ProfitSignals(t);
      ProfitDecides(cfg, st, lock, t);
      if events != [] {
        return;
      }
      AdjustmentAfterHardLevels(cfg, st, lock, t);
      var r := EvaluateAdjustment(t.market, Live(t.positions), t.dte.value > cfg.closeFullDte);
      if r.Hold? { return []; }
      events := [RollResultToSignal(r, dteAction)];
      LevelDecides(cfg, st, lock, t, if Fires(cfg, st, lock, t, RollTrigger) then 5 else 6);
    }
  }

  /** What levels 4 to 6 ask for, taken alone. */
  ghost function ProfitOutcome(cfg: Config, st: RollState, lock: Option<Lock>, t: Tick): seq<Event>
    requires t.dte.Some?
  {
    if Fires(cfg, st, lock, t, TakeProfit) then [Outcome(cfg, st, lock, t, TakeProfit)]
    else if Fires(cfg, st, lock, t, LockZone2) then [Outcome(cfg, st, lock, t, LockZone2)]
    else if Fires(cfg, st, lock, t, LockZone1) then [Outcome(cfg, st, lock, t, LockZone1)]
    else []
  }

  lemma LevelDecides(cfg: Config, st: RollState, lock: Option<Lock>, t: Tick, i: nat)
    requires Evaluable(t) && i < |LEVELS| && Fires(cfg, st, lock, t, LEVELS[i])
    requires i > 0 ==> !Fires(cfg, st, lock, t, DteHardClose)
    requires i > 1 ==> !Fires(cfg, st, lock, t, HardDelta)
    requires i > 2 ==> !Fires(cfg, st, lock, t, TakeProfit)
    requires i > 3 ==> !Fires(cfg, st, lock, t, LockZone2)
    requires i > 4 ==> !Fires(cfg, st, lock, t, LockZone1)
    requires i > 5 ==> !Fires(cfg, st, lock, t, RollTrigger)
    ensures MatchesTable(cfg, st, lock, t, [Outcome(cfg, st, lock, t, LEVELS[i])])
  {
    forall j | 0 <= j < i ensures !Fires(cfg, st, lock, t, LEVELS[j]) {
    }
    assert Decides(cfg, st, lock, t, i);
  }

  /** The three profit levels decide when the hard levels pass. */
  lemma ProfitDecides(cfg: Config, st: RollState, lock: Option<Lock>, t: Tick)
    requires Evaluable(t) && !Fires(cfg, st, lock, t, DteHardClose) && !Fires(cfg, st, lock, t, HardDelta)
    ensures var events := ProfitOutcome(cfg, st, lock, t);
      if events != [] then MatchesTable(cfg, st, lock, t, events) && |events| == 1 && events[0].kind != ROLL_WING
      else forall i :: 2 <= i < 5 ==> !Fires(cfg, st, lock, t, LEVELS[i])
  {
    if Fires(cfg, st, lock, t, TakeProfit) {
      LevelDecides(cfg, st, lock, t, 2);
    } else if Fires(cfg, st, lock, t, LockZone2) {
      LevelDecides(cfg, st, lock, t, 3);
    } else if Fires(cfg, st, lock, t, LockZone1) {
      LevelDecides(cfg, st, lock, t, 4);
    }
  }
}
