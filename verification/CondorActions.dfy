/** Applying an approved action to the condor: which positions are closed, which legs are opened, and
    what is left afterwards in every role. */
module CondorActions {
  import opened Wrappers
  import opened PaperLedger
  import opened CondorRoll
  import opened CondorLadder
  import opened CondorStore
  import opened CondorSignals
  import opened CloseExecutor
  import opened CondorCycle

  /** `auto` tells auto-executed actions; `lock` is the state carried by a Zone 2 payload. */
  datatype Approved = Approved(kind: ActionType, toClose: set<LegRole>, opens: seq<LegSpec>, lock: Option<Lock>,
                               auto: bool)

  const IC_ROLES: set<LegRole> := {Short(Put), Short(Call), Long(Put), Long(Call)}

  function Closed(a: Approved): set<LegRole> {
    if !a.auto then a.toClose
    else
      match a.kind
      case CloseFull => IC_ROLES
      case CloseCallSpread => {Short(Call), Long(Call)}
      case ClosePutSpread => {Short(Put), Long(Put)}
      case ProfitLockZone2 => {Long(Put), Long(Call)}
      case _ => a.toClose
  }

  /** The newest position of a role; the earliest listed of equally new ones. */
  function PositionForRole(positions: seq<Position>, role: LegRole): Option<Position> {
    if positions == [] then None
    else
      var best := PositionForRole(positions[..|positions| - 1], role);
      var p := positions[|positions| - 1];
      if p.role == role && (best.None? || p.entryDate > best.value.entryDate) then Some(p) else best
  }

  /** A role matches at the key of its newest open position, or at any key when it has none. */
  predicate Chosen(live: seq<Position>, role: LegRole, key: Key) {
    var p := PositionForRole(live, role);
    p.None? || p.value.key == key
  }

  predicate Matches(live: seq<Position>, roles: set<LegRole>, p: Position) {
    p.role in roles && Chosen(live, p.role, p.key)
  }

  function Kept(positions: seq<Position>, keep: Position -> bool): seq<Position> {
    if positions == [] then []
    else Kept(positions[..|positions| - 1], keep)
         + (if keep(positions[|positions| - 1]) then [positions[|positions| - 1]] else [])
  }

  function Selected(positions: seq<Position>, live: seq<Position>, roles: set<LegRole>): seq<Position> {
    Kept(positions, p => Matches(live, roles, p))
  }

  function Unmatched(positions: seq<Position>, live: seq<Position>, roles: set<LegRole>): seq<Position> {
    Kept(positions, p => !Matches(live, roles, p))
  }

  /** The stored lock after an auto-executed Zone 2: executed, with defaults for what a payload omits. */
  function StoredLock(carried: Option<Lock>): Lock {
    if carried.Some? then carried.value.(zone2Executed := true, zone3Executed := false)
    else Lock(2, true, false, 0.0, 0, 0, "")
  }

  predicate Closes(kind: ActionType) { kind in {CloseFull, CloseCallSpread, ClosePutSpread} }

  predicate Rolls(kind: ActionType) { kind in {RollWing, ProfitLockZone2} }

  /** The trades an action offers to the ledger. */
  function Batch(feeds: Feeds, positions: seq<Position>, a: Approved, notes: Notes): seq<Trade> {
    var picked := Selected(positions, Live(positions), Closed(a));
    if Closes(a.kind) then CloseTrades(feeds, ToClose(picked, Closed(a)), notes)
    else if Rolls(a.kind) then RollBatch(feeds, picked, Closed(a), a.opens, notes)
    else []
  }

  predicate Persists(a: Approved, hasBroker: bool) {
    a.auto && hasBroker && (Closes(a.kind) || (Rolls(a.kind) && AllPriced(a.opens)))
  }

  datatype Failure = NotPermitted | InvalidRow

  /** The Zone 2 lock is stored first, whatever then becomes of the trades; the trades go to the ledger
      in one batch or not at all. */
  method ApplyAction(store: PaperStore?, hasBroker: bool, feeds: Feeds, positions: seq<Position>, a: Approved,
                     notes: Notes, writeFaults: bool) returns (r: Result<seq<Position>, Failure>)
    modifies store
    ensures r == Err(NotPermitted) <==> a.kind.OtherAction?
    ensures r == Err(InvalidRow) <==>
      store != null && Persists(a, hasBroker) && !AllValid(Batch(feeds, positions, a, notes))
    ensures r.Ok? ==> r.value == Unmatched(positions, Live(positions), Closed(a))
    ensures store != null ==>
      store.lock == if a.auto && a.kind == ProfitLockZone2 then StoredLock(a.lock) else old(store.lock)
    ensures store != null ==>
      store.ledger == if Persists(a, hasBroker) && r.Ok? && !writeFaults
                      then Recorded(old(store.ledger), Batch(feeds, positions, a, notes)) else old(store.ledger)
  {
    if a.kind.OtherAction? { return Err(NotPermitted); }
    var live := Live(positions);
    var roles := Closed(a);
    if a.auto && a.kind == ProfitLockZone2 && store != null {
      store.lock := StoredLock(a.lock);
    }
    if a.auto && hasBroker && store != null {
      var picked := Selected(positions, live, roles);
      var outcome;
      if Closes(a.kind) {
        outcome := CloseIcLegs(store, feeds, picked, roles, notes, writeFaults);
      } else {
        outcome := RollIcLegs(store, feeds, picked, roles, a.opens, notes, writeFaults);
      }
      if outcome.Raised? { return Err(InvalidRow); }
    }
    return Ok(Unmatched(positions, live, roles));
  }

  /** A Zone 2 lock whose trades did not reach the ledger: what `ApplyAction` stores as the lock is the lock
      of the cycle after the turn, the condor is as it was, no later turn of any run tries again, and
      either wing stays unless a roll of its side replaces it. */
  lemma AbortedZoneTwoIsNeverRetried(cfg: Config, master: Key -> Option<real>, before: Cycle, turn: Turn,
                                     named: set<LegRole>, run: seq<Turn>, side: Side)
    requires Possible(cfg, master, before, turn) && EmitsZoneTwo(turn) && turn.applied && !turn.stored
    requires LockSound(before.lock) && CycleRun(cfg, master, After(before, turn), run)
    ensures |turn.events| == 1 && turn.events[0].action == Some(ProfitLockZone2)
    ensures After(before, turn).lock == Some(StoredLock(Approval(turn.events[0], named).lock))
    ensures After(before, turn).condor == before.condor
    ensures forall i :: 0 <= i < |run| ==> !EmitsZoneTwo(run[i])
    ensures LongKey(Final(After(before, turn), run).condor, side) != LongKey(before.condor, side) ==>
      exists i :: 0 <= i < |run| && RollStored(run[i], side)
  {
    var level := DecidingLevel(cfg, before.st, before.lock, turn.tick, turn.events);
    assert level == LockZone2;
    TurnKeepsLock(cfg, master, before, turn);
    ExecutedForGood(cfg, master, After(before, turn), run, side);
  }

  // --- What is left in a role ---------------------------------------------------------

  /** Net quantity in a contract once the batch is stored whole. */
  function Left(positions: seq<Position>, batch: seq<Trade>, role: LegRole, key: Key): int {
    HeldIn(positions, role, key) + NetContract(batch, role, key)
  }

  ghost predicate NoLegIn(positions: seq<Position>, batch: seq<Trade>, role: LegRole) {
    forall key: Key :: Left(positions, batch, role, key) == 0
  }

  ghost predicate OnlyLegAt(positions: seq<Position>, batch: seq<Trade>, role: LegRole, key: Key) {
    && Left(positions, batch, role, key) != 0
    && (forall other: Key :: other != key ==> Left(positions, batch, role, other) == 0)
  }

  ghost predicate OneLegIn(positions: seq<Position>, batch: seq<Trade>, role: LegRole) {
    exists key: Key :: OnlyLegAt(positions, batch, role, key)
  }

  /** What the store's position query guarantees: open positions, one per role and contract. */
  predicate Grouped(positions: seq<Position>) {
    && (forall i :: 0 <= i < |positions| ==> positions[i].netQty != 0)
    && (forall i, j :: 0 <= i < j < |positions| ==>
          positions[i].role != positions[j].role || positions[i].key != positions[j].key)
  }

  predicate RolesOverlap(positions: seq<Position>) {
    exists i, j :: 0 <= i < j < |positions| && positions[i].role in IC_ROLES && positions[i].role == positions[j].role
  }

  lemma {:induction false} LiveIsAll(positions: seq<Position>)
    requires Grouped(positions)
    ensures Live(positions) == positions
  {
    if positions != [] {
      LiveIsAll(positions[1..]);
    }
  }

  lemma {:induction false} HeldKept(positions: seq<Position>, keep: Position -> bool, all: bool,
                                    role: LegRole, key: Key)
    requires forall p :: p in positions && p.role == role && p.key == key ==> keep(p) == all
    ensures HeldIn(Kept(positions, keep), role, key) == if all then HeldIn(positions, role, key) else 0
  {
    if positions != [] {
      var n := |positions| - 1;
      HeldKept(positions[..n], keep, all, role, key);
      var rest := Kept(positions[..n], keep);
      if keep(positions[n]) {
        HeldOfAppend(rest, positions[n], role, key);
      } else {
        assert rest + [] == rest;
      }
    }
  }

  lemma HeldSelected(positions: seq<Position>, live: seq<Position>, roles: set<LegRole>, role: LegRole, key: Key)
    ensures HeldIn(Selected(positions, live, roles), role, key)
         == if role in roles && Chosen(live, role, key) then HeldIn(positions, role, key) else 0
  {
    HeldKept(positions, p => Matches(live, roles, p), role in roles && Chosen(live, role, key), role, key);
  }

  lemma HeldOfAppend(positions: seq<Position>, p: Position, role: LegRole, key: Key)
    ensures HeldIn(positions + [p], role, key)
         == HeldIn(positions, role, key) + (if p.role == role && p.key == key then p.netQty else 0)
  {
    assert (positions + [p])[..|positions|] == positions;
  }

  lemma {:induction false} HeldDistinct(positions: seq<Position>, i: nat)
    requires Grouped(positions) && i < |positions|
    ensures HeldIn(positions, positions[i].role, positions[i].key) == positions[i].netQty
  {
    var n := |positions| - 1;
    if i < n {
      HeldDistinct(positions[..n], i);
    } else {
      HeldNowhere(positions[..n], positions[n].role, positions[n].key);
    }
  }

  lemma {:induction false} HeldNowhere(positions: seq<Position>, role: LegRole, key: Key)
    requires forall i :: 0 <= i < |positions| ==> positions[i].role != role || positions[i].key != key
    ensures HeldIn(positions, role, key) == 0
  {
    if positions != [] {
      HeldNowhere(positions[..|positions| - 1], role, key);
    }
  }

  lemma HolderOf(positions: seq<Position>, role: LegRole, key: Key) returns (i: nat)
    requires HeldIn(positions, role, key) != 0
    ensures i < |positions| && positions[i].role == role && positions[i].key == key
  {
    if forall j :: 0 <= j < |positions| ==> positions[j].role != role || positions[j].key != key {
      HeldNowhere(positions, role, key);
    }
    i :| 0 <= i < |positions| && positions[i].role == role && positions[i].key == key;
  }

  lemma {:induction false} NewestIsListed(positions: seq<Position>, role: LegRole)
    ensures var p := PositionForRole(positions, role);
      if p.Some? then p.value in positions && p.value.role == role
      else forall q :: q in positions ==> q.role != role
  {
    if positions != [] {
      NewestIsListed(positions[..|positions| - 1], role);
      forall q | q in positions ensures q in positions[..|positions| - 1] || q == positions[|positions| - 1] {
      }
    }
  }

  /** What an action's closing trades leave: nothing at the chosen contract of a closed role, everything
      as it was elsewhere. */
  lemma ClosingLeaves(feeds: Feeds, positions: seq<Position>, roles: set<LegRole>, notes: Notes,
                      role: LegRole, key: Key)
    requires Grouped(positions)
    ensures var legs := ToClose(Selected(positions, Live(positions), roles), roles);
      Left(positions, CloseTrades(feeds, legs, notes), role, key)
         == if role in roles && Chosen(positions, role, key) then 0 else HeldIn(positions, role, key)
  {
    LiveIsAll(positions);
    var picked := Selected(positions, positions, roles);
    ClosingFlattensExactly(feeds, picked, roles, notes, role, key);
    HeldSelected(positions, positions, roles, role, key);
  }

  /** A full close leaves no condor leg exactly when no role is held in two contracts. */
  lemma FullCloseFlattensIff(feeds: Feeds, positions: seq<Position>, a: Approved, notes: Notes)
    requires Grouped(positions) && a.auto && a.kind == CloseFull
    ensures (forall role :: role in IC_ROLES ==> NoLegIn(positions, Batch(feeds, positions, a, notes), role))
       <==> !RolesOverlap(positions)
  {
    var batch := Batch(feeds, positions, a, notes);
    forall role: LegRole, key: Key | role in IC_ROLES
      ensures Left(positions, batch, role, key)
           == if Chosen(positions, role, key) then 0 else HeldIn(positions, role, key)
    {
      ClosingLeaves(feeds, positions, IC_ROLES, notes, role, key);
    }
    if RolesOverlap(positions) {
      var i, j :| 0 <= i < j < |positions| && positions[i].role in IC_ROLES && positions[i].role == positions[j].role;
      HeldDistinct(positions, i);
      HeldDistinct(positions, j);
      assert !Chosen(positions, positions[i].role, positions[i].key)
        || !Chosen(positions, positions[j].role, positions[j].key)
      by {
        NewestIsListed(positions, positions[i].role);
      }
    } else {
      forall role, key: Key | role in IC_ROLES ensures Left(positions, batch, role, key) == 0 {
        if HeldIn(positions, role, key) != 0 {
          var i := HolderOf(positions, role, key);
          NewestIsListed(positions, role);
        }
      }
    }
  }

  // --- Rolls ------------------------------------------------------------------------

  /** A condor of `size` units: short legs short, wings long, one contract per role. */
  function Size(role: LegRole, size: int): int { if role.Short? then -size else size }

  ghost predicate HoldsCondor(positions: seq<Position>, c: Condor, size: nat) {
    forall role: LegRole, key: Key :: role in IC_ROLES ==>
      HeldIn(positions, role, key) == if c.KeyOf(role) == Some(key) then Size(role, size) else 0
  }

  /** One unit in each of some distinct roles, short legs sold and wings bought. */
  predicate OpensOneEach(opens: seq<LegSpec>) {
    && (forall i :: 0 <= i < |opens| ==>
          && opens[i].role in IC_ROLES && opens[i].quantity == 1
          && opens[i].action == (if opens[i].role.Short? then SELL else BUY))
    && (forall i, j :: 0 <= i < j < |opens| ==> opens[i].role != opens[j].role)
  }

  function OpenedAt(opens: seq<LegSpec>, role: LegRole): Option<Key> {
    if opens == [] then None
    else if opens[|opens| - 1].role == role then Some(opens[|opens| - 1].key)
    else OpenedAt(opens[..|opens| - 1], role)
  }

  lemma {:induction false} NetOfOpens(feeds: Feeds, opens: seq<LegSpec>, notes: Notes, role: LegRole, key: Key)
    requires OpensOneEach(opens)
    ensures NetContract(OpenTrades(feeds, opens, notes), role, key)
         == if OpenedAt(opens, role) == Some(key) then Size(role, 1) else 0
  {
    if opens != [] {
      var init, leg := opens[..|opens| - 1], opens[|opens| - 1];
      assert opens == init + [leg];
      NetOfOpens(feeds, init, notes, role, key);
      NetOfLastOpen(feeds, init, leg, notes, role, key);
      OpenedLast(init, leg, role);
      if leg.role == role {
        OpenedNowhere(init, role);
        assert leg.action == opens[|init|].action && leg.quantity == 1;
      }
    }
  }

  lemma OpenedLast(init: seq<LegSpec>, leg: LegSpec, role: LegRole)
    ensures OpenedAt(init + [leg], role) == if leg.role == role then Some(leg.key) else OpenedAt(init, role)
  {
    assert (init + [leg])[..|init|] == init;
  }

  lemma NetOfLastOpen(feeds: Feeds, init: seq<LegSpec>, leg: LegSpec, notes: Notes, role: LegRole, key: Key)
    ensures NetContract(OpenTrades(feeds, init + [leg], notes), role, key)
         == NetContract(OpenTrades(feeds, init, notes), role, key)
          + (if leg.role == role && leg.key == key then OpenTrade(feeds, leg, notes).Signed() else 0)
  {
    assert OpenTrades(feeds, init + [leg], notes) == OpenTrades(feeds, init, notes) + [OpenTrade(feeds, leg, notes)];
    NetOfAppend(OpenTrades(feeds, init, notes), OpenTrade(feeds, leg, notes), role, key);
  }

  lemma {:induction false} OpenedNowhere(opens: seq<LegSpec>, role: LegRole)
    requires forall i :: 0 <= i < |opens| ==> opens[i].role != role
    ensures OpenedAt(opens, role).None?
  {
    if opens != [] {
      OpenedNowhere(opens[..|opens| - 1], role);
    }
  }

  lemma HeldIsChosen(positions: seq<Position>, c: Condor, size: nat, role: LegRole, key: Key)
    requires Grouped(positions) && HoldsCondor(positions, c, size) && role in IC_ROLES
    requires HeldIn(positions, role, key) != 0
    ensures Chosen(positions, role, key)
  {
    NewestIsListed(positions, role);
    var p := PositionForRole(positions, role);
    if p.Some? {
      var i: nat :| i < |positions| && positions[i] == p.value;
      HeldDistinct(positions, i);
    }
  }

  /** What a roll leaves in each contract of a condor role. */
  lemma RollLeaves(feeds: Feeds, positions: seq<Position>, c: Condor, size: nat, a: Approved, notes: Notes,
                   role: LegRole, key: Key)
    requires Grouped(positions) && HoldsCondor(positions, c, size) && Rolls(a.kind) && OpensOneEach(a.opens)
    requires role in IC_ROLES
    ensures Left(positions, Batch(feeds, positions, a, notes), role, key)
         == (if role !in Closed(a) && c.KeyOf(role) == Some(key) then Size(role, size) else 0)
          + (if OpenedAt(a.opens, role) == Some(key) then Size(role, 1) else 0)
  {
    var closing := CloseTrades(feeds, ToClose(Selected(positions, Live(positions), Closed(a)), Closed(a)), notes);
    NetOfConcat(closing, OpenTrades(feeds, a.opens, notes), role, key);
    NetOfOpens(feeds, a.opens, notes, role, key);
    ClosingLeaves(feeds, positions, Closed(a), notes, role, key);
    if HeldIn(positions, role, key) != 0 {
      HeldIsChosen(positions, c, size, role, key);
    }
  }

  /** A role ends with exactly one leg when it is closed and reopened, or kept and not reopened at another
      contract; in every other case it ends with none or with two. */
  lemma RollLeavesOneLegIff(feeds: Feeds, positions: seq<Position>, c: Condor, size: nat, a: Approved, notes: Notes,
                            role: LegRole)
    requires Grouped(positions) && HoldsCondor(positions, c, size) && size > 0 && Rolls(a.kind) && OpensOneEach(a.opens)
    requires role in IC_ROLES
    ensures OneLegIn(positions, Batch(feeds, positions, a, notes), role)
       <==> if role in Closed(a) then OpenedAt(a.opens, role).Some?
            else OpenedAt(a.opens, role) in {None, c.KeyOf(role)}
  {
    var batch := Batch(feeds, positions, a, notes);
    var reopened := OpenedAt(a.opens, role);
    forall key: Key
      ensures Left(positions, batch, role, key)
           == (if role !in Closed(a) && c.KeyOf(role) == Some(key) then Size(role, size) else 0)
            + (if reopened == Some(key) then Size(role, 1) else 0)
    {
      RollLeaves(feeds, positions, c, size, a, notes, role, key);
    }
    if reopened.Some? && (role in Closed(a) || reopened == c.KeyOf(role)) {
      assert OnlyLegAt(positions, batch, role, reopened.value);
    } else if reopened.None? && role !in Closed(a) {
      assert OnlyLegAt(positions, batch, role, c.KeyOf(role).value);
    } else if reopened.Some? {
      assert Left(positions, batch, role, reopened.value) != 0;
      assert Left(positions, batch, role, c.KeyOf(role).value) != 0;
    }
  }

  /** Exactly one leg in every condor role. */
  ghost predicate WholeCondor(positions: seq<Position>, batch: seq<Trade>) {
    forall role :: role in IC_ROLES ==> OneLegIn(positions, batch, role)
  }

  /** The action an auto-executed event turns into; `named` are the roles its approval lists. */
  function Approval(e: Event, named: set<LegRole>): Approved
    requires e.action.Some?
  {
    Approved(e.action.value, named, e.opens, e.lock, true)
  }

  /** The legs a roll event opens: both legs of the rolled side. */
  lemma OpensOfRoll(cfg: Config, st: RollState, lock: Option<Lock>, t: Tick, e: Event)
    requires MatchesTable(cfg, st, lock, t, [e]) && e.action == Some(RollWing)
    ensures e.side.Some? && OpensOneEach(e.opens)
    ensures forall role: LegRole ::
      OpenedAt(e.opens, role).Some? <==> role in {Short(e.side.value), Long(e.side.value)}
  {
    var level := DecidingLevel(cfg, st, lock, t, [e]);
    assert level == RollTrigger;
    var outcome := ExecutePartialRoll(cfg, st, t.market, Live(t.positions), e.side.value, true);
    var legs := outcome.update.legs;
    SecondHalfOpens(legs);
    TwoOpened(legs[2], legs[3]);
  }

  lemma SecondHalfOpens(legs: seq<LegSpec>)
    requires |legs| == 4 && !legs[0].opens && !legs[1].opens && legs[2].opens && legs[3].opens
    ensures Opens(legs) == [legs[2], legs[3]]
  {
    assert legs[3..][1..] == [];
    assert Opens(legs[3..]) == [legs[3]];
    assert legs[2..][1..] == legs[3..];
    assert Opens(legs[2..]) == [legs[2], legs[3]];
    assert legs[1..][1..] == legs[2..];
    assert Opens(legs[1..]) == Opens(legs[2..]);
  }

  lemma OneOpened(a: LegSpec)
    ensures forall role: LegRole :: OpenedAt([a], role) == if a.role == role then Some(a.key) else None
  {
  }

  lemma TwoOpened(a: LegSpec, b: LegSpec)
    ensures forall role: LegRole ::
      OpenedAt([a, b], role) == if b.role == role then Some(b.key) else if a.role == role then Some(a.key) else None
  {
    assert [a, b][..1] == [a];
    OneOpened(a);
  }

  /** The legs a Zone 2 event opens: the wings whose contracts resolved. */
  lemma OpensOfZoneTwo(cfg: Config, st: RollState, lock: Option<Lock>, t: Tick, e: Event)
    requires MatchesTable(cfg, st, lock, t, [e]) && e.action == Some(ProfitLockZone2)
    ensures OpensOneEach(e.opens)
    ensures |e.opens| == 2 ==> OpenedAt(e.opens, Long(Put)).Some? && OpenedAt(e.opens, Long(Call)).Some?
    ensures |e.opens| < 2 ==> OpenedAt(e.opens, Long(Put)).None? || OpenedAt(e.opens, Long(Call)).None?
    ensures |e.opens| <= 2 && OpenedAt(e.opens, Short(Put)).None? && OpenedAt(e.opens, Short(Call)).None?
  {
    var level := DecidingLevel(cfg, st, lock, t, [e]);
    assert level == LockZone2;
    WingsOpened(WingOpen(t.market, Put, t.decision.putWing), WingOpen(t.market, Call, t.decision.callWing));
  }

  predicate IsWing(l: LegSpec, side: Side) { l.role == Long(side) && l.quantity == 1 && l.action == BUY }

  lemma WingsOpened(put: seq<LegSpec>, call: seq<LegSpec>)
    requires |put| <= 1 && |call| <= 1
    requires put != [] ==> IsWing(put[0], Put)
    requires call != [] ==> IsWing(call[0], Call)
    ensures var opens := put + call;
      && OpensOneEach(opens) && |opens| == |put| + |call|
      && (OpenedAt(opens, Long(Put)).Some? <==> put != []) && (OpenedAt(opens, Long(Call)).Some? <==> call != [])
      && OpenedAt(opens, Short(Put)).None? && OpenedAt(opens, Short(Call)).None?
  {
    if put == [] && call == [] {
      assert put + call == [];
    } else if put != [] && call != [] {
      TwoWings(put[0], call[0]);
      assert put + call == [put[0], call[0]];
    } else {
      OneWing(if put != [] then put[0] else call[0], if put != [] then Put else Call);
      assert put + call == [if put != [] then put[0] else call[0]];
    }
  }

  lemma OneWing(l: LegSpec, side: Side)
    requires IsWing(l, side)
    ensures OpensOneEach([l]) && forall role: LegRole :: OpenedAt([l], role).Some? <==> role == Long(side)
  {
    OneOpened(l);
  }

  lemma TwoWings(a: LegSpec, b: LegSpec)
    requires IsWing(a, Put) && IsWing(b, Call)
    ensures OpensOneEach([a, b])
    ensures forall role: LegRole :: OpenedAt([a, b], role).Some? <==> role in {Long(Put), Long(Call)}
  {
    TwoOpened(a, b);
  }

  /** Every auto-executed ACTION event of a tick, applied to a condor held in one contract per role, leaves no
      leg at all or exactly one per role, with two exact conditions: a roll needs its approval to name
      exactly the two legs of the rolled side (a leg not named survives unless it is reopened at its own
      contract), and a Zone 2 lock needs both replacement wings to resolve. */
  lemma NoOneSidedCondor(cfg: Config, st: RollState, lock: Option<Lock>, t: Tick, e: Event, named: set<LegRole>,
                         feeds: Feeds, positions: seq<Position>, c: Condor, size: nat, notes: Notes)
    requires MatchesTable(cfg, st, lock, t, [e]) && e.severity == ACTION
    requires Grouped(positions) && HoldsCondor(positions, c, size) && size > 0
    ensures e.action.Some?
    ensures var batch := Batch(feeds, positions, Approval(e, named), notes);
      match e.action.value
      case CloseFull => forall role :: role in IC_ROLES ==> NoLegIn(positions, batch, role)
      case ProfitLockZone2 => WholeCondor(positions, batch) <==> |e.opens| == 2
      case RollWing =>
        e.side.Some? &&
        (WholeCondor(positions, batch) <==>
           forall role :: role in IC_ROLES ==> NamedRight(e, named, c, role))
      case _ => false
  {
    ActionsAreWhole(cfg, st, lock, t, [e]);
    assert e in [e];
    var a := Approval(e, named);
    match a.kind {
      case CloseFull =>
        NoOverlapInCondor(positions, c, size);
        FullCloseFlattensIff(feeds, positions, a, notes);
      case ProfitLockZone2 =>
        OpensOfZoneTwo(cfg, st, lock, t, e);
        forall role | role in IC_ROLES
          ensures OneLegIn(positions, Batch(feeds, positions, a, notes), role)
             <==> (role.Long? ==> OpenedAt(e.opens, role).Some?)
        {
          RollLeavesOneLegIff(feeds, positions, c, size, a, notes, role);
        }
      case RollWing =>
        OpensOfRoll(cfg, st, lock, t, e);
        forall role | role in IC_ROLES
          ensures OneLegIn(positions, Batch(feeds, positions, a, notes), role) <==> NamedRight(e, named, c, role)
        {
          RollLeavesOneLegIff(feeds, positions, c, size, a, notes, role);
        }
      case _ =>
    }
  }

  /** A role of the rolled side is named, or reopened at its own contract; any other role is not named. */
  predicate NamedRight(e: Event, named: set<LegRole>, c: Condor, role: LegRole)
    requires e.side.Some?
  {
    if role in {Short(e.side.value), Long(e.side.value)} then role in named || OpenedAt(e.opens, role) == c.KeyOf(role)
    else role !in named
  }

  lemma NoOverlapInCondor(positions: seq<Position>, c: Condor, size: nat)
    requires Grouped(positions) && HoldsCondor(positions, c, size)
    ensures !RolesOverlap(positions)
  {
    forall i, j | 0 <= i < j < |positions| && positions[i].role in IC_ROLES
      ensures positions[i].role != positions[j].role
    {
      HeldDistinct(positions, i);
      HeldDistinct(positions, j);
    }
  }

  /** When the approval names only `short_put`, which is what a payload without closing legs is filled
      with, no roll to fresh contracts leaves a whole condor: a put roll keeps the old wing beside the
      new one, a call roll loses the short put. */
  lemma DefaultApprovalBreaksRolls(cfg: Config, st: RollState, lock: Option<Lock>, t: Tick, e: Event,
                                   feeds: Feeds, positions: seq<Position>, c: Condor, size: nat, notes: Notes)
    requires MatchesTable(cfg, st, lock, t, [e]) && e.action == Some(RollWing)
    requires Grouped(positions) && HoldsCondor(positions, c, size) && size > 0
    requires e.side == Some(Call) || OpenedAt(e.opens, Long(Put)) != c.KeyOf(Long(Put))
    ensures !WholeCondor(positions, Batch(feeds, positions, Approval(e, {Short(Put)}), notes))
    ensures e.side == Some(Call) ==>
      NoLegIn(positions, Batch(feeds, positions, Approval(e, {Short(Put)}), notes), Short(Put))
  {
    OpensOfRoll(cfg, st, lock, t, e);
    var a := Approval(e, {Short(Put)});
    var role := if e.side == Some(Call) then Short(Put) else Long(Put);
    RollLeavesOneLegIff(feeds, positions, c, size, a, notes, role);
    forall key: Key | e.side == Some(Call)
      ensures Left(positions, Batch(feeds, positions, a, notes), Short(Put), key) == 0
    {
      RollLeaves(feeds, positions, c, size, a, notes, Short(Put), key);
    }
  }

  /** A correctly named roll opens one unit where it closed `size`: the rolled side is as large as the
      other side only for a condor of one unit. */
  lemma RollKeepsSizeIff(cfg: Config, st: RollState, lock: Option<Lock>, t: Tick, e: Event,
                         feeds: Feeds, positions: seq<Position>, c: Condor, size: nat, notes: Notes)
    requires MatchesTable(cfg, st, lock, t, [e]) && e.action == Some(RollWing) && e.side.Some?
    requires Grouped(positions) && HoldsCondor(positions, c, size)
    ensures var side := e.side.value;
      var batch := Batch(feeds, positions, Approval(e, {Short(side), Long(side)}), notes);
      && OpenedAt(e.opens, Short(side)).Some?
      && (Left(positions, batch, Short(side), OpenedAt(e.opens, Short(side)).value)
          == Left(positions, batch, Short(Other(side)), c.KeyOf(Short(Other(side))).value)
          <==> size == 1)
  {
    OpensOfRoll(cfg, st, lock, t, e);
    var side := e.side.value;
    var a := Approval(e, {Short(side), Long(side)});
    RollLeaves(feeds, positions, c, size, a, notes, Short(side), OpenedAt(e.opens, Short(side)).value);
    RollLeaves(feeds, positions, c, size, a, notes, Short(Other(side)), c.KeyOf(Short(Other(side))).value);
  }
}
