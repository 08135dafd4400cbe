/** Every run of ticks between two resets of the roll state: whatever the chain shows and whichever
    updates reach the ledger, the condor stays inside the limits it was entered with. */
module CondorCycle {
  import opened Wrappers
  import opened PaperLedger
  import opened CondorRoll
  import opened CondorLadder
  import opened CondorSignals

  /** `debit` is the net paid so far for rolls that reached the ledger. */
  datatype Cycle = Cycle(condor: Condor, st: RollState, lock: Option<Lock>, debit: real)

  /** One tick, its events, whether an event's action was applied, and whether its trades reached the ledger. */
  datatype Turn = Turn(tick: Tick, events: seq<Event>, applied: bool, stored: bool)

  ghost predicate Possible(cfg: Config, master: Key -> Option<real>, s: Cycle, turn: Turn) {
    var m := turn.tick.market;
    && m.strikeOf == master && MasterConsistent(m)
    && Holds(Live(turn.tick.positions), s.condor)
    && MatchesTable(cfg, s.st, s.lock, turn.tick, turn.events)
    && (turn.stored ==> turn.applied)
    && (forall e :: e in turn.events && e.lock.Some? && turn.stored ==> |e.opens| == 2)
  }

  /** The counter moves when the roll is signalled and the lock when it is applied; strikes and
      debit only move when the trades reach the ledger. */
  function After(s: Cycle, turn: Turn): Cycle {
    if |turn.events| != 1 then s
    else
      var e := turn.events[0];
      var counted := s.(st := StateAfter(s.st, turn.events), lock := LockAfter(s.lock, turn.events));
      if e.roll.Some? && e.side.Some? && |e.roll.value.legs| == 4 && turn.stored then
        counted.(condor := AfterRoll(s.condor, e.side.value, e.roll.value), debit := s.debit + e.roll.value.net)
      else if e.lock.Some? && turn.applied then
        counted.(lock := e.lock,
                 condor := if turn.stored && |e.opens| == 2
                           then s.condor.(longPut := e.opens[0].key, longCall := e.opens[1].key) else s.condor)
      else counted
  }

  ghost predicate CycleRun(cfg: Config, master: Key -> Option<real>, s: Cycle, run: seq<Turn>)
    decreases |run|
  {
    run == [] || (Possible(cfg, master, s, run[0]) && CycleRun(cfg, master, After(s, run[0]), run[1..]))
  }

  function Final(s: Cycle, run: seq<Turn>): Cycle
    decreases |run|
  {
    if run == [] then s else Final(After(s, run[0]), run[1..])
  }

  predicate Known(master: Key -> Option<real>, c: Condor) {
    master(c.shortPut).Some? && master(c.longPut).Some? && master(c.shortCall).Some? && master(c.longCall).Some?
  }

  function WidthOf(master: Key -> Option<real>, c: Condor, side: Side): real
    requires Known(master, c)
  {
    if side == Put then Abs(master(c.shortPut).value - master(c.longPut).value)
    else Abs(master(c.shortCall).value - master(c.longCall).value)
  }

  predicate InOrder(master: Key -> Option<real>, c: Condor)
    requires Known(master, c)
  {
    master(c.shortPut).value < master(c.shortCall).value
  }

  /** The condor's strikes stay known and its shorts in order. */
  ghost predicate OrderKept(master: Key -> Option<real>, a: Condor, b: Condor) {
    Known(master, a) ==> Known(master, b) && (InOrder(master, a) ==> InOrder(master, b))
  }

  ghost predicate WidthsKept(master: Key -> Option<real>, a: Condor, b: Condor) {
    && Known(master, a) && Known(master, b)
    && WidthOf(master, b, Put) <= WidthOf(master, a, Put) && WidthOf(master, b, Call) <= WidthOf(master, a, Call)
  }

  /** A Zone 2 lock whose trades reached the ledger: the one turn besides rolls that moves strikes. */
  predicate ZoneTwoStored(turn: Turn) { turn.stored && |turn.events| == 1 && turn.events[0].lock.Some? }

  /** What one turn does to the counters and the debit: at most one more roll, inside the cap. */
  predicate BudgetKept(cfg: Config, a: Cycle, b: Cycle) {
    || (b.st == a.st && b.debit == a.debit)
    || (exists side: Side {:trigger a.st.Counted(side)} ::
          && b.st == a.st.Counted(side) && a.st.Rolls(side) < cfg.maxRolls
          && (b.debit == a.debit
              || (a.st.credit > 0.0 ==> b.debit - a.debit <= cfg.debitCapFraction * a.st.credit)))
  }

  predicate LockSound(lock: Option<Lock>) {
    lock.Some? ==> lock.value.zone <= 2 && (lock.value.zone2Executed ==> lock.value.zone == 2)
  }

  /** The lock's zone never goes down, and a lock once executed stays as it is. */
  predicate LockKept(a: Option<Lock>, b: Option<Lock>) {
    && LockSound(b) && a.Some? == b.Some?
    && (a.Some? ==> a.value.zone <= b.value.zone && (a.value.zone2Executed ==> a == b))
  }

  /** The event the table gives when a level decides. */
  lemma DecidingLevel(cfg: Config, st: RollState, lock: Option<Lock>, t: Tick, events: seq<Event>)
    returns (level: Level)
    requires MatchesTable(cfg, st, lock, t, events) && events != []
    ensures t.dte.Some? && Fires(cfg, st, lock, t, level) && events == [Outcome(cfg, st, lock, t, level)]
  {
    var i: nat :| Decides(cfg, st, lock, t, i) && events == [Outcome(cfg, st, lock, t, LEVELS[i])];
    level := LEVELS[i];
  }

  lemma TurnKeepsLock(cfg: Config, master: Key -> Option<real>, s: Cycle, turn: Turn)
    requires Possible(cfg, master, s, turn) && LockSound(s.lock)
    ensures LockKept(s.lock, After(s, turn).lock)
  {
    if turn.events != [] {
      var level := DecidingLevel(cfg, s.st, s.lock, turn.tick, turn.events);
    }
  }

  /** A roll event is the outcome of a roll that passed every guard, with that side's rolls not used up. */
  lemma RollEvent(cfg: Config, st: RollState, lock: Option<Lock>, t: Tick, events: seq<Event>)
    requires MatchesTable(cfg, st, lock, t, events) && events != [] && events[0].roll.Some?
    ensures |events| == 1 && events[0].side.Some? && events[0].lock.None? && events[0].kind == ROLL_WING
    ensures ExecutePartialRoll(cfg, st, t.market, Live(t.positions), events[0].side.value, true)
         == Rolled(events[0].roll.value)
  {
    var level := DecidingLevel(cfg, st, lock, t, events);
    assert level == RollTrigger;
  }

  /** Without a roll the counters stay. */
  lemma OtherEvent(cfg: Config, st: RollState, lock: Option<Lock>, t: Tick, events: seq<Event>)
    requires MatchesTable(cfg, st, lock, t, events) && (events == [] || events[0].roll.None?)
    ensures StateAfter(st, events) == st
    ensures events != [] && events[0].lock.Some? ==>
      ShortsKnown(t) && lock.Some? && t.decision.LockWings? && events == [ZoneTwo(t, lock.value)]
  {
    if events != [] {
      var level := DecidingLevel(cfg, st, lock, t, events);
    }
  }

  lemma RollKeepsBudget(cfg: Config, master: Key -> Option<real>, s: Cycle, turn: Turn)
    requires Possible(cfg, master, s, turn) && Known(master, s.condor)
    requires turn.events != [] && turn.events[0].roll.Some?
    ensures BudgetKept(cfg, s, After(s, turn))
  {
    var e := turn.events[0];
    RollEvent(cfg, s.st, s.lock, turn.tick, turn.events);
    RollNetCapped(cfg, s.st, turn.tick.market, Live(turn.tick.positions), s.condor, e.side.value);
    CountedRoll(cfg, s, turn);
  }

  lemma RollNetCapped(cfg: Config, st: RollState, m: Market, live: seq<Position>, c: Condor, side: Side)
    requires Holds(live, c) && Known(m.strikeOf, c) && MasterConsistent(m)
    requires ExecutePartialRoll(cfg, st, m, live, side, true).Rolled?
    ensures var u := ExecutePartialRoll(cfg, st, m, live, side, true).update;
      && |u.legs| == 4 && st.Rolls(side) < cfg.maxRolls
      && (st.credit > 0.0 ==> u.net <= cfg.debitCapFraction * st.credit)
  {
    RollIsSafe(cfg, st, m, live, c, side, true);
  }

  /** What a signalled roll that passed its guards does to counters and debit. */
  lemma CountedRoll(cfg: Config, s: Cycle, turn: Turn)
    requires |turn.events| == 1 && turn.events[0].kind == ROLL_WING && turn.events[0].side.Some?
    requires turn.events[0].roll.Some? && |turn.events[0].roll.value.legs| == 4
    requires s.st.Rolls(turn.events[0].side.value) < cfg.maxRolls
    requires s.st.credit > 0.0 ==> turn.events[0].roll.value.net <= cfg.debitCapFraction * s.st.credit
    ensures turn.events[0].lock.None? ==> BudgetKept(cfg, s, After(s, turn))
  {
    var side := turn.events[0].side.value;
    assert turn.events[0].lock.None? ==> After(s, turn).st == s.st.Counted(side);
  }

  lemma TurnKeepsBudget(cfg: Config, master: Key -> Option<real>, s: Cycle, turn: Turn)
    requires Possible(cfg, master, s, turn) && Known(master, s.condor)
    ensures BudgetKept(cfg, s, After(s, turn))
  {
    if turn.events != [] && turn.events[0].roll.Some? {
      RollKeepsBudget(cfg, master, s, turn);
    } else {
      OtherEvent(cfg, s.st, s.lock, turn.tick, turn.events);
    }
  }

  /** The wings a Zone 2 event opens resolve back to the strikes the engine chose. */
  lemma ZoneTwoWings(t: Tick, lock: Lock)
    requires t.decision.LockWings? && ShortsKnown(t) && MasterConsistent(t.market)
    requires |ZoneTwo(t, lock).opens| == 2
    ensures var e := ZoneTwo(t, lock);
      && t.decision.putWing.Some? && t.decision.callWing.Some?
      && t.market.strikeOf(e.opens[0].key) == Some(t.decision.putWing.value.strike)
      && t.market.strikeOf(e.opens[1].key) == Some(t.decision.callWing.value.strike)
  {
  }

  lemma TurnKeepsOrder(cfg: Config, master: Key -> Option<real>, s: Cycle, turn: Turn)
    requires Possible(cfg, master, s, turn)
    ensures OrderKept(master, s.condor, After(s, turn).condor)
  {
    if Known(master, s.condor) && turn.events != [] && turn.stored {
      if turn.events[0].roll.Some? {
        RollEvent(cfg, s.st, s.lock, turn.tick, turn.events);
        RollIsSafe(cfg, s.st, turn.tick.market, Live(turn.tick.positions), s.condor, turn.events[0].side.value, true);
      } else {
        OtherEvent(cfg, s.st, s.lock, turn.tick, turn.events);
        if turn.events[0].lock.Some? {
          ZoneTwoWings(turn.tick, s.lock.value);
        }
      }
    }
  }

  /** Every turn but a stored Zone 2 lock keeps both widths, whatever the chain offers. */
  lemma TurnKeepsWidths(cfg: Config, master: Key -> Option<real>, s: Cycle, turn: Turn)
    requires Possible(cfg, master, s, turn) && Known(master, s.condor) && !ZoneTwoStored(turn)
    ensures WidthsKept(master, s.condor, After(s, turn).condor)
  {
    if turn.events != [] && turn.events[0].roll.Some? {
      RollEvent(cfg, s.st, s.lock, turn.tick, turn.events);
      RollIsSafe(cfg, s.st, turn.tick.market, Live(turn.tick.positions), s.condor, turn.events[0].side.value, true);
    }
  }

  function WingOf(d: Decision, side: Side): Option<OptionLeg> {
    if !d.LockWings? then None else if side == Put then d.putWing else d.callWing
  }

  function ShortKey(c: Condor, side: Side): Key { if side == Put then c.shortPut else c.shortCall }

  function LongKey(c: Condor, side: Side): Key { if side == Put then c.longPut else c.longCall }

  /** A stored Zone 2 lock keeps a width exactly when the wing chosen is no farther from its short than the
      wing it replaces. The engine picks by delta and does not compare the two. */
  lemma ZoneTwoKeepsWidthIff(cfg: Config, master: Key -> Option<real>, s: Cycle, turn: Turn, side: Side)
    requires Possible(cfg, master, s, turn) && Known(master, s.condor) && ZoneTwoStored(turn)
    ensures var b := After(s, turn).condor;
      && Known(master, b) && WingOf(turn.tick.decision, side).Some?
      && (WidthOf(master, b, side) <= WidthOf(master, s.condor, side)
          <==> Abs(master(ShortKey(s.condor, side)).value - WingOf(turn.tick.decision, side).value.strike)
               <= WidthOf(master, s.condor, side))
  {
    if turn.events[0].roll.Some? {
      RollEvent(cfg, s.st, s.lock, turn.tick, turn.events);
    }
    OtherEvent(cfg, s.st, s.lock, turn.tick, turn.events);
    ZoneTwoWings(turn.tick, s.lock.value);
  }

  /** At most the capped fraction of the credit for each roll counted. */
  predicate WithinBudget(cfg: Config, s: Cycle) {
    && s.st.put <= cfg.maxRolls && s.st.call <= cfg.maxRolls
    && (s.st.credit > 0.0 ==> s.debit <= (s.st.put + s.st.call) as real * (cfg.debitCapFraction * s.st.credit))
  }

  /** What holds all through a cycle, relative to its start. */
  ghost predicate WithinLimits(cfg: Config, master: Key -> Option<real>, start: Cycle, s: Cycle) {
    && WithinBudget(cfg, s) && s.st.credit == start.st.credit
    && OrderKept(master, start.condor, s.condor)
    && LockKept(start.lock, s.lock)
  }

  lemma BudgetStep(cfg: Config, a: Cycle, b: Cycle)
    requires WithinBudget(cfg, a) && BudgetKept(cfg, a, b) && cfg.debitCapFraction >= 0.0
    ensures WithinBudget(cfg, b) && b.st.credit == a.st.credit
  {
    if b.st != a.st && a.st.credit > 0.0 {
      OneMoreRoll(a.st.put + a.st.call, cfg.debitCapFraction, a.st.credit);
      assert b.st.put + b.st.call == a.st.put + a.st.call + 1;
    }
  }

  lemma OneMoreRoll(n: nat, fraction: real, credit: real)
    requires fraction >= 0.0 && credit > 0.0
    ensures (n + 1) as real * (fraction * credit) == n as real * (fraction * credit) + fraction * credit
    ensures fraction * credit >= 0.0
  {
    assert (n + 1) as real == n as real + 1.0;
  }

  lemma TurnKeepsLimits(cfg: Config, master: Key -> Option<real>, start: Cycle, s: Cycle, turn: Turn)
    requires Possible(cfg, master, s, turn) && WithinLimits(cfg, master, start, s)
    requires Known(master, start.condor) && cfg.debitCapFraction >= 0.0
    ensures WithinLimits(cfg, master, start, After(s, turn))
  {
    var b := After(s, turn);
    assert LockKept(s.lock, b.lock) by { TurnKeepsLock(cfg, master, s, turn); }
    assert OrderKept(master, s.condor, b.condor) by { TurnKeepsOrder(cfg, master, s, turn); }
    assert BudgetKept(cfg, s, b) by { TurnKeepsBudget(cfg, master, s, turn); }
    LimitsStep(cfg, master, start, s, b);
  }

  lemma LimitsStep(cfg: Config, master: Key -> Option<real>, start: Cycle, s: Cycle, b: Cycle)
    requires WithinLimits(cfg, master, start, s)
    requires LockKept(s.lock, b.lock) && OrderKept(master, s.condor, b.condor) && BudgetKept(cfg, s, b)
    requires Known(master, start.condor) && cfg.debitCapFraction >= 0.0
    ensures WithinLimits(cfg, master, start, b)
  {
    BudgetStep(cfg, s, b);
  }

  lemma {:induction false} RunKeepsLimits(cfg: Config, master: Key -> Option<real>, start: Cycle, s: Cycle,
                                          run: seq<Turn>)
    requires CycleRun(cfg, master, s, run) && WithinLimits(cfg, master, start, s)
    requires Known(master, start.condor) && cfg.debitCapFraction >= 0.0
    ensures WithinLimits(cfg, master, start, Final(s, run))
    decreases |run|
  {
    if run != [] {
      TurnKeepsLimits(cfg, master, start, s, run[0]);
      RunKeepsLimits(cfg, master, start, After(s, run[0]), run[1..]);
    }
  }

  // --- Widths over runs ---------------------------------------------------------------

  function Max(a: real, b: real): real { if a < b then b else a }

  /** The widest vertical that a stored Zone 2 lock of the run leaves on a side, 0 if there is none. */
  function WidestZoneTwo(master: Key -> Option<real>, s: Cycle, run: seq<Turn>, side: Side): real
    decreases |run|
  {
    if run == [] then 0.0
    else
      var b := After(s, run[0]);
      var rest := WidestZoneTwo(master, b, run[1..], side);
      if ZoneTwoStored(run[0]) && Known(master, b.condor) then Max(WidthOf(master, b.condor, side), rest) else rest
  }

  /** Over any run a vertical is never wider than at its start or than a Zone 2 lock left it. */
  lemma {:induction false} WidthOverRun(cfg: Config, master: Key -> Option<real>, s: Cycle, run: seq<Turn>, side: Side)
    requires CycleRun(cfg, master, s, run) && Known(master, s.condor)
    ensures Known(master, Final(s, run).condor)
    ensures WidthOf(master, Final(s, run).condor, side)
         <= Max(WidthOf(master, s.condor, side), WidestZoneTwo(master, s, run, side))
    decreases |run|
  {
    if run != [] {
      TurnKeepsOrder(cfg, master, s, run[0]);
      if !ZoneTwoStored(run[0]) { TurnKeepsWidths(cfg, master, s, run[0]); }
      WidthOverRun(cfg, master, After(s, run[0]), run[1..], side);
    }
  }

  predicate RollsOnly(run: seq<Turn>) { forall i :: 0 <= i < |run| ==> !ZoneTwoStored(run[i]) }

  lemma {:induction false} NoZoneTwoNoWidth(master: Key -> Option<real>, s: Cycle, run: seq<Turn>, side: Side)
    requires RollsOnly(run)
    ensures WidestZoneTwo(master, s, run, side) == 0.0
    decreases |run|
  {
    if run != [] {
      NoZoneTwoNoWidth(master, After(s, run[0]), run[1..], side);
    }
  }

  /** From a reset on, over every run: rolls per side stay within the cap, the put short stays below the call
      short, the rolls together cost at most the capped fraction of the entry credit each, the stored
      profit-lock zone never goes down, and while rolls are the only stored strike changes no vertical
      gets wider than at entry. */
  lemma CycleStaysWithinLimits(cfg: Config, master: Key -> Option<real>, start: Cycle, run: seq<Turn>)
    requires CycleRun(cfg, master, start, run)
    requires start.st == FreshRolls(start.st.credit) && start.debit == 0.0 && LockSound(start.lock)
    requires Known(master, start.condor) && cfg.debitCapFraction >= 0.0
    ensures WithinBudget(cfg, Final(start, run)) && Final(start, run).st.credit == start.st.credit
    ensures OrderKept(master, start.condor, Final(start, run).condor)
    ensures LockKept(start.lock, Final(start, run).lock)
    ensures RollsOnly(run) ==> WidthsKept(master, start.condor, Final(start, run).condor)
  {
    assert WithinBudget(cfg, start) by {
      assert 0 as real * (cfg.debitCapFraction * start.st.credit) == 0.0;
    }
    assert WithinLimits(cfg, master, start, start);
    RunKeepsLimits(cfg, master, start, start, run);
    RunKeepsWidths(cfg, master, start, run);
  }

  lemma RunKeepsWidths(cfg: Config, master: Key -> Option<real>, start: Cycle, run: seq<Turn>)
    requires CycleRun(cfg, master, start, run) && Known(master, start.condor)
    ensures RollsOnly(run) ==> WidthsKept(master, start.condor, Final(start, run).condor)
  {
    WidthOverRun(cfg, master, start, run, Put);
    WidthOverRun(cfg, master, start, run, Call);
    if RollsOnly(run) {
      NoZoneTwoNoWidth(master, start, run, Put);
      NoZoneTwoNoWidth(master, start, run, Call);
    }
  }

  // --- An executed lock -----------------------------------------------------------------

  predicate EmitsZoneTwo(turn: Turn) { exists e :: e in turn.events && e.kind == PROFIT_LOCK_ZONE2 }

  /** A roll of the side whose trades reached the ledger. */
  predicate RollStored(turn: Turn, side: Side) {
    turn.stored && |turn.events| == 1 && turn.events[0].roll.Some? && turn.events[0].side == Some(side)
  }

  /** A Zone 2 lock that is not applied changes nothing and may come again: the same tick gives it once more. */
  lemma UnappliedZoneTwoComesAgain(cfg: Config, master: Key -> Option<real>, s: Cycle, turn: Turn)
    requires Possible(cfg, master, s, turn) && EmitsZoneTwo(turn) && !turn.applied
    ensures After(s, turn) == s
    ensures Possible(cfg, master, After(s, turn), turn.(applied := true))
  {
    var level := DecidingLevel(cfg, s.st, s.lock, turn.tick, turn.events);
    assert level == LockZone2;
  }

  /** Once executed, a turn emits no Zone 2, keeps the lock and moves a wing only by a stored roll. */
  lemma ExecutedTurn(cfg: Config, master: Key -> Option<real>, s: Cycle, turn: Turn, side: Side)
    requires Possible(cfg, master, s, turn) && s.lock.Some? && s.lock.value.zone2Executed && LockSound(s.lock)
    ensures !EmitsZoneTwo(turn) && After(s, turn).lock == s.lock
    ensures LongKey(After(s, turn).condor, side) != LongKey(s.condor, side) ==> RollStored(turn, side)
  {
    TurnKeepsLock(cfg, master, s, turn);
    if turn.events != [] {
      var level := DecidingLevel(cfg, s.st, s.lock, turn.tick, turn.events);
      if turn.events[0].roll.Some? { RollEvent(cfg, s.st, s.lock, turn.tick, turn.events); }
    }
  }

  /** Over every later run. */
  lemma {:induction false} ExecutedForGood(cfg: Config, master: Key -> Option<real>, s: Cycle, run: seq<Turn>,
                                           side: Side)
    requires CycleRun(cfg, master, s, run) && s.lock.Some? && s.lock.value.zone2Executed && LockSound(s.lock)
    ensures forall i :: 0 <= i < |run| ==> !EmitsZoneTwo(run[i])
    ensures LongKey(Final(s, run).condor, side) != LongKey(s.condor, side) ==>
      exists i :: 0 <= i < |run| && RollStored(run[i], side)
    decreases |run|
  {
    if run != [] {
      ExecutedTurn(cfg, master, s, run[0], side);
      ExecutedForGood(cfg, master, After(s, run[0]), run[1..], side);
      forall i | 0 <= i < |run| ensures !EmitsZoneTwo(run[i]) {
        if i > 0 { assert run[i] == run[1..][i - 1]; }
      }
      if LongKey(Final(s, run).condor, side) != LongKey(s.condor, side) && !RollStored(run[0], side) {
        var i :| 0 <= i < |run[1..]| && RollStored(run[1..][i], side);
        assert RollStored(run[i + 1], side);
      }
    }
  }
}
