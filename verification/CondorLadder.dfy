/** What one tick of the iron condor should signal, as a table: each level has a
    condition on the tick alone and an outcome, and the first level whose
    condition holds decides. No level refers to another. */
module CondorLadder {
  import opened Wrappers
  import opened PaperLedger
  import opened CondorRoll

  /** The persisted profit-lock state. */
  datatype Lock = Lock(zone: int, zone2Executed: bool, zone3Executed: bool, cumulativeDebit: real,
                       putWidth: int, callWidth: int, cycle: string)

  /** The profit-lock engine's answer for the tick, whatever it is. */
  datatype Decision =
    | LockWings(putWing: Option<OptionLeg>, callWing: Option<OptionLeg>, netDebit: Option<real>)
    | CloseAll
    | NoAction

  /** A tick: chain, this strategy's positions, days to expiry if any key reveals the expiry, and what
      the store answers (`storedCredit` is None when nothing is stored or the read fails). */
  datatype Tick = Tick(market: Market, positions: seq<Position>, dte: Option<int>,
                       storedCredit: Option<real>, decision: Decision)

  datatype EventKind =
    | FORCED_CLOSE | CLOSE_FULL | PROFIT_LOCK_ZONE2 | PROFIT_LOCK_ZONE1 | ROLL_WING | DELTA_STOP | DELTA_WARN

  datatype Severity = INFO | WARN | ACTION

  datatype ActionType =
    | CloseFull | CloseCallSpread | ClosePutSpread | RollWing | ProfitLockZone2 | OtherAction(name: string)

  datatype Reason =
    | DteForceClose | DteCloseFull | ExtremeDelta | RollsExhausted | ProfitTarget | ProfitLockClose
    | RollBlocked(guard: Guard) | DteBlocksRoll | NoReason

  datatype Event = Event(kind: EventKind, severity: Severity, side: Option<Side>, reason: Reason,
                         action: Option<ActionType>, opens: seq<LegSpec>, roll: Option<Update>, lock: Option<Lock>)

  function Signal(kind: EventKind, severity: Severity, side: Option<Side>, reason: Reason,
                  action: Option<ActionType>): Event
  {
    Event(kind, severity, side, reason, action, [], None, None)
  }

  function ForcedClose(side: Option<Side>, reason: Reason): Event {
    Signal(FORCED_CLOSE, ACTION, side, reason, Some(CloseFull))
  }

  // --- Readings ---------------------------------------------------------------

  function Live(positions: seq<Position>): seq<Position> {
    if positions == [] then []
    else if positions[0].netQty != 0 then [positions[0]] + Live(positions[1..]) else Live(positions[1..])
  }

  function DeltaOf(m: Market, positions: seq<Position>, side: Side): Option<real> {
    var p := First(positions, Short(side));
    if p.None? then None
    else var leg := m.leg(p.value.key); if leg.None? then None else leg.value.delta
  }

  predicate Breach(m: Market, positions: seq<Position>, side: Side, level: real) {
    var d := DeltaOf(m, positions, side);
    d.Some? && Abs(d.value) >= level
  }

  /** The put side is looked at first. */
  function FirstSide(p: Side -> bool): Side
    requires p(Put) || p(Call)
  {
    if p(Put) then Put else Call
  }

  /** A short delta no roll can answer: extreme, or over the roll trigger with the side's rolls used up. */
  predicate Hard(cfg: Config, st: RollState, m: Market, positions: seq<Position>, side: Side) {
    Breach(m, positions, side, cfg.forcedDelta)
    || (Breach(m, positions, side, cfg.rollDelta) && st.Rolls(side) >= cfg.maxRolls)
  }

  /** Signed sum over the condor's legs: credit collected at entry. */
  function EntryCredit(positions: seq<Position>): real {
    if positions == [] then 0.0
    else
      var n := |positions| - 1;
      EntryCredit(positions[..n])
      + (match positions[n].role
         case Short(_) => positions[n].avgSell
         case Long(_) => -positions[n].avgCost
         case _ => 0.0)
  }

  /** What closing every leg costs now, or None when the chain lacks one of the condor's legs. */
  function CombinedMark(m: Market, positions: seq<Position>): Option<real> {
    if positions == [] then Some(0.0)
    else
      var n := |positions| - 1;
      var rest := CombinedMark(m, positions[..n]);
      if !positions[n].role.Short? && !positions[n].role.Long? then rest
      else
        var leg := m.leg(positions[n].key);
        if rest.None? || leg.None? then None
        else Some(rest.value + (if positions[n].role.Short? then leg.value.ltp else -leg.value.ltp))
  }

  /** The credit that profit is measured against. */
  function Anchor(t: Tick): real {
    if t.storedCredit.Some? then t.storedCredit.value else EntryCredit(Live(t.positions))
  }

  function Captured(t: Tick): Option<real> {
    var mark := CombinedMark(t.market, Live(t.positions));
    if mark.Some? && Anchor(t) > 0.0 then Some((Anchor(t) - mark.value) / Anchor(t)) else None
  }

  predicate ShortsKnown(t: Tick) {
    StrikeAt(t.market, First(Live(t.positions), Short(Put))).Some?
    && StrikeAt(t.market, First(Live(t.positions), Short(Call))).Some?
  }

  // --- The table ----------------------------------------------------------------

  datatype Level = DteHardClose | HardDelta | TakeProfit | LockZone2 | LockZone1 | RollTrigger | Warning

  /** The condition of each level. `lock` is None when the strategy has no store. */
  predicate Fires(cfg: Config, st: RollState, lock: Option<Lock>, t: Tick, level: Level)
    requires t.dte.Some?
  {
    var live := Live(t.positions);
    match level
    case DteHardClose => t.dte.value <= 1 || t.dte.value <= cfg.closeFullDte
    case HardDelta => Hard(cfg, st, t.market, live, Put) || Hard(cfg, st, t.market, live, Call)
    case TakeProfit => Captured(t).Some? && CombinedMark(t.market, live).value <= cfg.profitRetention * Anchor(t)
    case LockZone2 =>
      && lock.Some? && Captured(t).Some? && Captured(t).value >= cfg.zone2Trigger && !lock.value.zone2Executed
      && ShortsKnown(t) && !t.decision.NoAction?
    case LockZone1 =>
      && lock.Some? && Captured(t).Some? && cfg.zone1Trigger <= Captured(t).value < cfg.zone2Trigger
      && lock.value.zone < 1
    case RollTrigger => Breach(t.market, live, Put, cfg.rollDelta) || Breach(t.market, live, Call, cfg.rollDelta)
    case Warning => Breach(t.market, live, Put, cfg.warnDelta) || Breach(t.market, live, Call, cfg.warnDelta)
  }

  /** The event of each level, given that it decides. */
  ghost function Outcome(cfg: Config, st: RollState, lock: Option<Lock>, t: Tick, level: Level): Event
    requires t.dte.Some? && Fires(cfg, st, lock, t, level)
  {
    var live := Live(t.positions);
    match level
    case DteHardClose => ForcedClose(None, if t.dte.value <= 1 then DteForceClose else DteCloseFull)
    case HardDelta =>
      var side := FirstSide(s => Hard(cfg, st, t.market, live, s));
      ForcedClose(Some(side), if Breach(t.market, live, side, cfg.forcedDelta) then ExtremeDelta else RollsExhausted)
    case TakeProfit => Signal(CLOSE_FULL, ACTION, None, ProfitTarget, Some(CloseFull))
    case LockZone2 => if t.decision.CloseAll? then ForcedClose(None, ProfitLockClose) else ZoneTwo(t, lock.value)
    case LockZone1 => Signal(PROFIT_LOCK_ZONE1, INFO, None, NoReason, None)
    case RollTrigger =>
      var side := FirstSide(s => Breach(t.market, live, s, cfg.rollDelta));
      (match ExecutePartialRoll(cfg, st, t.market, live, side, true)
       case Rolled(u) => RollSignal(side, u)
       case Blocked(guard) => Signal(DELTA_STOP, ACTION, Some(side), RollBlocked(guard), Some(CloseFull)))
    case Warning =>
      Signal(DELTA_WARN, WARN, Some(FirstSide(s => Breach(t.market, live, s, cfg.warnDelta))), NoReason, None)
  }

  function Opens(legs: seq<LegSpec>): seq<LegSpec> {
    if legs == [] then [] else if legs[0].opens then [legs[0]] + Opens(legs[1..]) else Opens(legs[1..])
  }

  function RollSignal(side: Side, u: Update): Event {
    Event(ROLL_WING, ACTION, Some(side), NoReason, Some(RollWing), Opens(u.legs), Some(u), None)
  }

  function WingOpen(m: Market, side: Side, wing: Option<OptionLeg>): seq<LegSpec> {
    if wing.None? then []
    else
      var key := m.resolve(side, wing.value.strike);
      if key.None? || key.value == "" then []
      else [LegSpec(key.value, BUY, 1, Long(side), true, wing.value.ltp)]
  }

  /** int() truncates toward zero. */
  function Truncate(x: real): int { if x >= 0.0 then x.Floor else -((-x).Floor) }

  function ZoneTwo(t: Tick, lock: Lock): Event
    requires t.decision.LockWings? && ShortsKnown(t)
  {
    var live := Live(t.positions);
    var d := t.decision;
    var shortPut := StrikeAt(t.market, First(live, Short(Put))).value;
    var shortCall := StrikeAt(t.market, First(live, Short(Call))).value;
    Event(PROFIT_LOCK_ZONE2, ACTION, None, NoReason, Some(ProfitLockZone2),
          WingOpen(t.market, Put, d.putWing) + WingOpen(t.market, Call, d.callWing), None,
          Some(Lock(2, true, false,
                    lock.cumulativeDebit + (if d.netDebit.Some? then d.netDebit.value else 0.0),
                    if d.putWing.Some? then Truncate(shortPut - d.putWing.value.strike) else 0,
                    if d.callWing.Some? then Truncate(d.callWing.value.strike - shortCall) else 0,
                    lock.cycle)))
  }

  const LEVELS: seq<Level> := [DteHardClose, HardDelta, TakeProfit, LockZone2, LockZone1, RollTrigger, Warning]

  predicate Evaluable(t: Tick) { Live(t.positions) != [] && t.dte.Some? }

  /** `level` fires and no level before it does. */
  ghost predicate Decides(cfg: Config, st: RollState, lock: Option<Lock>, t: Tick, i: nat)
    requires t.dte.Some?
  {
    && i < |LEVELS| && Fires(cfg, st, lock, t, LEVELS[i])
    && (forall j :: 0 <= j < i ==> !Fires(cfg, st, lock, t, LEVELS[j]))
  }

  /** The events of a tick match the table. */
  ghost predicate MatchesTable(cfg: Config, st: RollState, lock: Option<Lock>, t: Tick, events: seq<Event>) {
    if !Evaluable(t) then events == []
    else
      (events == [] && forall i :: 0 <= i < |LEVELS| ==> !Fires(cfg, st, lock, t, LEVELS[i]))
      || (exists i: nat :: Decides(cfg, st, lock, t, i) && events == [Outcome(cfg, st, lock, t, LEVELS[i])])
  }

  // --- What the table implies -----------------------------------------------------

  predicate WholeAction(e: Event) {
    && (if e.severity == ACTION then e.action in {Some(CloseFull), Some(RollWing), Some(ProfitLockZone2)}
        else e.action.None?)
    && (e.roll.Some? <==> e.action == Some(RollWing))
    && (e.lock.Some? <==> e.action == Some(ProfitLockZone2))
  }

  /** At most one event; every ACTION event names a full close, a roll or the Zone 2 lock, never a single
      spread; other events name no action. */
  lemma ActionsAreWhole(cfg: Config, st: RollState, lock: Option<Lock>, t: Tick, events: seq<Event>)
    requires MatchesTable(cfg, st, lock, t, events)
    ensures |events| <= 1
    ensures forall e :: e in events ==> WholeAction(e)
  {
  }

  /** Once the close levels pass, the roll evaluation can neither be blocked by expiry nor find the
      side's rolls used up. */
  lemma RollNeverMeetsPassedGuards(cfg: Config, st: RollState, m: Market, live: seq<Position>, dte: int, side: Side)
    requires dte > 1 && dte > cfg.closeFullDte
    requires !Hard(cfg, st, m, live, side) && Breach(m, live, side, cfg.rollDelta)
    ensures ExecutePartialRoll(cfg, st, m, live, side, dte > cfg.closeFullDte) != Blocked(DteCutoff)
    ensures ExecutePartialRoll(cfg, st, m, live, side, dte > cfg.closeFullDte) != Blocked(MaxRollsExhausted)
  {
  }

  /** The documented ladder ranks an extreme delta before used-up rolls. The code looks at the put first,
      so the two disagree on the reported reason exactly when the put has used up its rolls without being
      extreme while the call is extreme. */
  lemma DocumentedReasonDiffersIff(cfg: Config, st: RollState, lock: Option<Lock>, t: Tick)
    requires t.dte.Some? && Fires(cfg, st, lock, t, HardDelta)
    ensures var live := Live(t.positions);
      var extreme := Breach(t.market, live, Put, cfg.forcedDelta) || Breach(t.market, live, Call, cfg.forcedDelta);
      (Outcome(cfg, st, lock, t, HardDelta).reason != (if extreme then ExtremeDelta else RollsExhausted))
      <==> (Hard(cfg, st, t.market, live, Put) && !Breach(t.market, live, Put, cfg.forcedDelta)
            && Breach(t.market, live, Call, cfg.forcedDelta))
  {
  }

  /** A profit target below the engine's closing zone means the engine is never asked in that zone. */
  lemma EngineNeverSeesZone3(cfg: Config, st: RollState, lock: Option<Lock>, t: Tick, zone3Trigger: real)
    requires t.dte.Some? && !Fires(cfg, st, lock, t, TakeProfit) && Captured(t).Some?
    requires zone3Trigger >= 1.0 - cfg.profitRetention
    ensures Captured(t).value < zone3Trigger
  {
    var mark := CombinedMark(t.market, Live(t.positions)).value;
    var c := Anchor(t);
    assert mark > cfg.profitRetention * c;
    CapturedBelow(c, mark, cfg.profitRetention);
  }

  lemma CapturedBelow(credit: real, mark: real, retention: real)
    requires credit > 0.0 && mark > retention * credit
    ensures (credit - mark) / credit < 1.0 - retention
  {
    var f, g := (credit - mark) / credit, 1.0 - retention;
    assert f * credit == credit - mark;
    assert g * credit == credit - retention * credit;
    assert f * credit < g * credit;
  }
}
