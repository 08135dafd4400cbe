/** The delta levels of the ladder told from the position list and the chain alone: which short is read, that the
    size of its delta counts whatever its sign, and which event follows. */
module CondorDeltas {
  import opened Wrappers
  import opened PaperLedger
  import opened CondorRoll
  import opened CondorLadder
  import opened CondorSignals
  import opened CondorCycle
  import opened CondorWingExamples

  predicate Holding(p: Position, role: LegRole) { p.role == role && p.netQty != 0 }

  /** The first open position of a role. */
  predicate FirstHeld(positions: seq<Position>, role: LegRole, i: nat) {
    i < |positions| && Holding(positions[i], role) && forall j :: 0 <= j < i ==> !Holding(positions[j], role)
  }

  /** The chain's delta of the short that is read on a side. */
  ghost predicate ShortDelta(t: Tick, side: Side, d: real) {
    exists i: nat :: FirstHeld(t.positions, Short(side), i) && ChainDelta(t.market, t.positions[i].key) == Some(d)
  }

  function ChainDelta(m: Market, key: Key): Option<real> { if m.leg(key).Some? then m.leg(key).value.delta else None }

  /** At least so far from zero, on either side of it. */
  ghost predicate SizeAtLeast(t: Tick, side: Side, level: real) {
    exists d :: ShortDelta(t, side, d) && (d <= -level || d >= level)
  }

  lemma {:induction false} FirstOfLive(positions: seq<Position>, role: LegRole)
    ensures First(Live(positions), role).None? <==> forall i: nat :: !FirstHeld(positions, role, i)
    ensures forall i: nat :: FirstHeld(positions, role, i) ==> First(Live(positions), role) == Some(positions[i])
  {
    if positions != [] {
      var rest := positions[1..];
      FirstOfLive(rest, role);
      forall i: nat | i < |positions|
        ensures FirstHeld(positions, role, i)
           <==> if i == 0 then Holding(positions[0], role)
                else !Holding(positions[0], role) && FirstHeld(rest, role, i - 1)
      {
        assert forall j :: 1 <= j < |positions| ==> positions[j] == rest[j - 1];
        if i > 0 && !Holding(positions[0], role) && FirstHeld(rest, role, i - 1) {
          forall j | 0 <= j < i ensures !Holding(positions[j], role) {
            if j > 0 { assert !Holding(rest[j - 1], role); }
          }
        }
        if i > 0 && FirstHeld(positions, role, i) {
          forall j | 0 <= j < i - 1 ensures !Holding(rest[j], role) {
            assert !Holding(positions[j + 1], role);
          }
        }
      }
      if Holding(positions[0], role) {
        assert FirstHeld(positions, role, 0);
        assert ([positions[0]] + Live(rest))[0] == positions[0];
      } else if positions[0].netQty != 0 {
        assert ([positions[0]] + Live(rest))[1..] == Live(rest);
      }
      if i: nat :| FirstHeld(rest, role, i) {
        if !Holding(positions[0], role) { assert FirstHeld(positions, role, i + 1); }
      }
    }
  }

  lemma HeldIsUnique(positions: seq<Position>, role: LegRole, i: nat, j: nat)
    requires FirstHeld(positions, role, i) && FirstHeld(positions, role, j)
    ensures i == j
  {
  }

  lemma DeltaIsRead(t: Tick, side: Side)
    ensures var d := DeltaOf(t.market, Live(t.positions), side);
      forall x :: ShortDelta(t, side, x) <==> d == Some(x)
  {
    FirstOfLive(t.positions, Short(side));
    var d := DeltaOf(t.market, Live(t.positions), side);
    if i: nat :| FirstHeld(t.positions, Short(side), i) {
      assert First(Live(t.positions), Short(side)) == Some(t.positions[i]);
      assert d == ChainDelta(t.market, t.positions[i].key);
      forall x ensures ShortDelta(t, side, x) <==> d == Some(x) {
        if ShortDelta(t, side, x) {
          var j: nat :| FirstHeld(t.positions, Short(side), j) && ChainDelta(t.market, t.positions[j].key) == Some(x);
          HeldIsUnique(t.positions, Short(side), i, j);
        }
      }
    }
  }

  /** A level is breached by a delta at least so far from zero, positive or negative. */
  lemma BreachIff(t: Tick, side: Side, level: real)
    ensures Breach(t.market, Live(t.positions), side, level) <==> SizeAtLeast(t, side, level)
  {
    DeltaIsRead(t, side);
    var d := DeltaOf(t.market, Live(t.positions), side);
    if d.Some? {
      assert ShortDelta(t, side, d.value);
    }
  }

  /** A short no roll can answer: its delta is extreme, or large enough to roll with the side's rolls used up. */
  ghost predicate Unanswerable(cfg: Config, st: RollState, t: Tick, side: Side) {
    SizeAtLeast(t, side, cfg.forcedDelta) || (SizeAtLeast(t, side, cfg.rollDelta) && st.Rolls(side) >= cfg.maxRolls)
  }

  predicate PastExpiryLevels(cfg: Config, t: Tick) {
    t.dte.Some? && t.dte.value > 1 && t.dte.value > cfg.closeFullDte && Live(t.positions) != []
  }

  predicate DeltaReason(r: Reason) { r == ExtremeDelta || r == RollsExhausted }

  /** Past the expiry levels a short no roll can answer gives exactly one forced close of the whole condor, on the put
      side if that short is the put, for its extreme delta if it is extreme; and nothing else gives such a close. */
  lemma LargeDeltaForcesClose(cfg: Config, st: RollState, lock: Option<Lock>, t: Tick, events: seq<Event>)
    requires MatchesTable(cfg, st, lock, t, events) && PastExpiryLevels(cfg, t)
    ensures Unanswerable(cfg, st, t, Put) || Unanswerable(cfg, st, t, Call) ==>
      var side := if Unanswerable(cfg, st, t, Put) then Put else Call;
      events == [Event(FORCED_CLOSE, ACTION, Some(side),
                       if SizeAtLeast(t, side, cfg.forcedDelta) then ExtremeDelta else RollsExhausted,
                       Some(CloseFull), [], None, None)]
    ensures !Unanswerable(cfg, st, t, Put) && !Unanswerable(cfg, st, t, Call) ==>
      forall e :: e in events ==> !DeltaReason(e.reason)
  {
    BreachIff(t, Put, cfg.forcedDelta);
    BreachIff(t, Call, cfg.forcedDelta);
    BreachIff(t, Put, cfg.rollDelta);
    BreachIff(t, Call, cfg.rollDelta);
    if Unanswerable(cfg, st, t, Put) || Unanswerable(cfg, st, t, Call) {
      HardDecides(cfg, st, lock, t, events);
    } else if events != [] {
      var level := DecidingLevel(cfg, st, lock, t, events);
    }
  }

  lemma HardDecides(cfg: Config, st: RollState, lock: Option<Lock>, t: Tick, events: seq<Event>)
    requires MatchesTable(cfg, st, lock, t, events) && PastExpiryLevels(cfg, t) && Fires(cfg, st, lock, t, HardDelta)
    ensures events == [Outcome(cfg, st, lock, t, HardDelta)]
  {
    assert LEVELS[0] == DteHardClose && LEVELS[1] == HardDelta;
    assert Fires(cfg, st, lock, t, LEVELS[1]) && !Fires(cfg, st, lock, t, LEVELS[0]);
    var i: nat :| Decides(cfg, st, lock, t, i) && events == [Outcome(cfg, st, lock, t, LEVELS[i])];
    assert i == 1;
  }

  /** No level before the rolls fires. */
  ghost predicate NothingBefore(cfg: Config, st: RollState, lock: Option<Lock>, t: Tick) {
    && PastExpiryLevels(cfg, t) && !Unanswerable(cfg, st, t, Put) && !Unanswerable(cfg, st, t, Call)
    && !Fires(cfg, st, lock, t, TakeProfit)
    && !Fires(cfg, st, lock, t, LockZone2) && !Fires(cfg, st, lock, t, LockZone1)
  }

  /** Then a short delta as large as the roll level, the put's first, gives one roll or, when a guard blocks it, one
      full close; a smaller one as large as the warning level gives one warning; and otherwise there is no event. */
  lemma DeltaRollsOrWarns(cfg: Config, st: RollState, lock: Option<Lock>, t: Tick, events: seq<Event>)
    requires MatchesTable(cfg, st, lock, t, events) && NothingBefore(cfg, st, lock, t)
    ensures if SizeAtLeast(t, Put, cfg.rollDelta) || SizeAtLeast(t, Call, cfg.rollDelta) then
        var side := if SizeAtLeast(t, Put, cfg.rollDelta) then Put else Call;
        && |events| == 1 && events[0].side == Some(side) && events[0].severity == ACTION
        && ((events[0].kind == ROLL_WING && events[0].action == Some(RollWing))
            || (events[0].kind == DELTA_STOP && events[0].action == Some(CloseFull)))
      else if SizeAtLeast(t, Put, cfg.warnDelta) || SizeAtLeast(t, Call, cfg.warnDelta) then
        var side := if SizeAtLeast(t, Put, cfg.warnDelta) then Put else Call;
        |events| == 1 && events[0] == Event(DELTA_WARN, WARN, Some(side), NoReason, None, [], None, None)
      else events == []
  {
    BreachIff(t, Put, cfg.forcedDelta);
    BreachIff(t, Call, cfg.forcedDelta);
    BreachIff(t, Put, cfg.rollDelta);
    BreachIff(t, Call, cfg.rollDelta);
    BreachIff(t, Put, cfg.warnDelta);
    BreachIff(t, Call, cfg.warnDelta);
    LastLevels(cfg, st, lock, t, events);
  }

  lemma LastLevels(cfg: Config, st: RollState, lock: Option<Lock>, t: Tick, events: seq<Event>)
    requires MatchesTable(cfg, st, lock, t, events) && PastExpiryLevels(cfg, t)
    requires forall j :: 0 <= j < 5 ==> !Fires(cfg, st, lock, t, LEVELS[j])
    ensures events == if Fires(cfg, st, lock, t, RollTrigger) then [Outcome(cfg, st, lock, t, RollTrigger)]
                      else if Fires(cfg, st, lock, t, Warning) then [Outcome(cfg, st, lock, t, Warning)] else []
  {
    assert LEVELS[5] == RollTrigger && LEVELS[6] == Warning;
    if events != [] {
      var i: nat :| Decides(cfg, st, lock, t, i) && events == [Outcome(cfg, st, lock, t, LEVELS[i])];
      assert i == 5 || i == 6;
    } else {
      assert !Fires(cfg, st, lock, t, LEVELS[5]) && !Fires(cfg, st, lock, t, LEVELS[6]);
    }
  }

  /** A put sold at a delta of -0.60 closes the condor. */
  lemma DeepPutForcesClose(q: Six, credit: real, lock: Option<Lock>, events: seq<Event>)
    requires q.shortPut.delta == Some(-0.6)
    requires MatchesTable(MONTHLY, FreshRolls(credit), lock, TickOf(q, credit), events)
    ensures events == [ForcedClose(Some(Put), ExtremeDelta)]
  {
    var t := TickOf(q, credit);
    LegsAreLive();
    KeysDiffer(q);
    assert FirstHeld(t.positions, Short(Put), 0) && ChainDelta(t.market, t.positions[0].key) == Some(-0.6);
    assert ShortDelta(t, Put, -0.6);
    assert SizeAtLeast(t, Put, MONTHLY.forcedDelta);
    LargeDeltaForcesClose(MONTHLY, FreshRolls(credit), lock, t, events);
  }
}
