/** What the ledger holds after an action, when the store skips rows whose unique key is taken: the exact
    condition for a whole condor, role by role. */
module CondorLedger {
  import opened Wrappers
  import opened PaperLedger
  import opened CondorRoll
  import opened CondorLadder
  import opened CondorStore
  import opened CloseExecutor
  import opened CondorActions

  /** The unique key of a row, whatever the rest of it. */
  predicate KeyTaken(ledger: seq<Trade>, role: LegRole, key: Key, date: int, action: Action) {
    exists i :: 0 <= i < |ledger| && ledger[i].On(role, key) && ledger[i].date == date && ledger[i].action == action
  }

  lemma ConflictsIffTaken(ledger: seq<Trade>, t: Trade)
    ensures Conflicts(ledger, t) <==> KeyTaken(ledger, t.role, t.key, t.date, t.action)
  {
    if KeyTaken(ledger, t.role, t.key, t.date, t.action) {
      var i :| 0 <= i < |ledger| && ledger[i].On(t.role, t.key) && ledger[i].date == t.date
               && ledger[i].action == t.action;
      assert ledger[i].SameKey(t);
    }
  }

  /** The rows of a batch that the store does not skip, if the batch itself repeats no key. */
  function Unskipped(ledger: seq<Trade>, batch: seq<Trade>): seq<Trade> {
    if batch == [] then []
    else Unskipped(ledger, batch[..|batch| - 1])
         + (if Conflicts(ledger, batch[|batch| - 1]) then [] else [batch[|batch| - 1]])
  }

  predicate RepeatsNoKey(batch: seq<Trade>) { forall i, j :: 0 <= i < j < |batch| ==> !batch[i].SameKey(batch[j]) }

  lemma {:induction false} UnskippedAreRows(ledger: seq<Trade>, batch: seq<Trade>)
    ensures forall t :: t in Unskipped(ledger, batch) ==> t in batch
  {
    if batch != [] {
      UnskippedAreRows(ledger, batch[..|batch| - 1]);
    }
  }

  lemma {:induction false} RecordedAppends(ledger: seq<Trade>, batch: seq<Trade>)
    requires RepeatsNoKey(batch)
    ensures Recorded(ledger, batch) == ledger + Unskipped(ledger, batch)
  {
    if batch != [] {
      var init, last := batch[..|batch| - 1], batch[|batch| - 1];
      RecordedAppends(ledger, init);
      UnskippedAreRows(ledger, init);
      NoNewConflict(ledger, Unskipped(ledger, init), init, last);
      assert ledger + (Unskipped(ledger, init) + [last]) == ledger + Unskipped(ledger, init) + [last];
      assert Unskipped(ledger, init) + [] == Unskipped(ledger, init);
    } else {
      assert ledger + [] == ledger;
    }
  }

  lemma NoNewConflict(ledger: seq<Trade>, added: seq<Trade>, init: seq<Trade>, last: Trade)
    requires forall t :: t in added ==> t in init
    requires forall i :: 0 <= i < |init| ==> !init[i].SameKey(last)
    ensures Conflicts(ledger + added, last) <==> Conflicts(ledger, last)
  {
    if Conflicts(ledger, last) {
      var i :| 0 <= i < |ledger| && ledger[i].SameKey(last);
      assert (ledger + added)[i].SameKey(last);
    }
    forall i | |ledger| <= i < |ledger + added| ensures !(ledger + added)[i].SameKey(last) {
      assert added[i - |ledger|] in added;
    }
  }

  /** In one contract, with one action and date, either all rows of the batch are skipped or none. */
  lemma {:induction false} UnskippedNet(ledger: seq<Trade>, batch: seq<Trade>, role: LegRole, key: Key, date: int,
                                        action: Action)
    requires forall i :: 0 <= i < |batch| && batch[i].On(role, key) ==>
      batch[i].date == date && batch[i].action == action
    ensures NetContract(Unskipped(ledger, batch), role, key)
         == if KeyTaken(ledger, role, key, date, action) then 0 else NetContract(batch, role, key)
  {
    if batch != [] {
      var init, last := batch[..|batch| - 1], batch[|batch| - 1];
      assert batch == init + [last];
      UnskippedNet(ledger, init, role, key, date, action);
      UnskippedAppendNet(ledger, init, last, role, key);
      NetOfAppend(init, last, role, key);
      if last.On(role, key) { ConflictsIffTaken(ledger, last); }
    }
  }

  lemma UnskippedAppendNet(ledger: seq<Trade>, init: seq<Trade>, last: Trade, role: LegRole, key: Key)
    ensures NetContract(Unskipped(ledger, init + [last]), role, key)
         == NetContract(Unskipped(ledger, init), role, key)
          + (if last.On(role, key) && !Conflicts(ledger, last) then last.Signed() else 0)
  {
    assert (init + [last])[..|init|] == init;
    if Conflicts(ledger, last) {
      assert Unskipped(ledger, init) + [] == Unskipped(ledger, init);
    } else {
      NetOfAppend(Unskipped(ledger, init), last, role, key);
    }
  }

  lemma {:induction false} UnskippedConcat(ledger: seq<Trade>, a: seq<Trade>, b: seq<Trade>)
    ensures Unskipped(ledger, a + b) == Unskipped(ledger, a) + Unskipped(ledger, b)
  {
    if b == [] {
      assert a + b == a && Unskipped(ledger, a) + [] == Unskipped(ledger, a);
    } else {
      var init, last := b[..|b| - 1], b[|b| - 1];
      UnskippedConcat(ledger, a, init);
      assert (a + b)[..|a + b| - 1] == a + init;
      var tail := if Conflicts(ledger, last) then [] else [last];
      assert Unskipped(ledger, a) + Unskipped(ledger, init) + tail
          == Unskipped(ledger, a) + (Unskipped(ledger, init) + tail);
    }
  }

  // --- The batch of an action repeats no key -------------------------------------------------

  predicate DistinctLegs(legs: seq<Position>) {
    forall i, j :: 0 <= i < j < |legs| ==> legs[i].role != legs[j].role || legs[i].key != legs[j].key
  }

  lemma {:induction false} KeptDistinct(positions: seq<Position>, keep: Position -> bool)
    requires DistinctLegs(positions)
    ensures DistinctLegs(Kept(positions, keep))
    ensures forall p :: p in Kept(positions, keep) ==> p in positions
  {
    if positions != [] {
      var init, last := positions[..|positions| - 1], positions[|positions| - 1];
      KeptDistinct(init, keep);
      forall p | p in init ensures p.role != last.role || p.key != last.key {
        var i :| 0 <= i < |init| && init[i] == p;
        assert positions[i] == p;
      }
    }
  }

  lemma {:induction false} ToCloseDistinct(positions: seq<Position>, roles: set<LegRole>)
    requires DistinctLegs(positions)
    ensures DistinctLegs(ToClose(positions, roles))
    ensures forall p :: p in ToClose(positions, roles) ==> p in positions
  {
    if positions != [] {
      var init, last := positions[..|positions| - 1], positions[|positions| - 1];
      ToCloseDistinct(init, roles);
      forall p | p in init ensures p.role != last.role || p.key != last.key {
        var i :| 0 <= i < |init| && init[i] == p;
        assert positions[i] == p;
      }
    }
  }

  /** Closing trades stand leg by leg for their legs. */
  lemma {:induction false} CloseTradeOf(feeds: Feeds, legs: seq<Position>, notes: Notes, i: nat)
    requires i < |legs|
    ensures var t := CloseTrades(feeds, legs, notes)[i];
      t.role == legs[i].role && t.key == legs[i].key && t.date == feeds.today
      && t.action == if legs[i].netQty > 0 then SELL else BUY
  {
    if i < |legs| - 1 {
      CloseTradeOf(feeds, legs[..|legs| - 1], notes, i);
    }
  }

  lemma ClosesRepeatNoKey(feeds: Feeds, legs: seq<Position>, notes: Notes)
    requires DistinctLegs(legs)
    ensures RepeatsNoKey(CloseTrades(feeds, legs, notes))
  {
    var batch := CloseTrades(feeds, legs, notes);
    forall i, j | 0 <= i < j < |batch| ensures !batch[i].SameKey(batch[j]) {
      CloseTradeOf(feeds, legs, notes, i);
      CloseTradeOf(feeds, legs, notes, j);
    }
  }

  /** The action that opens a condor role, and the one that closes it. */
  function Opening(role: LegRole): Action { if role.Short? then SELL else BUY }

  function Closing(role: LegRole): Action { if role.Short? then BUY else SELL }

  function OpensOf(a: Approved): seq<LegSpec> { if Rolls(a.kind) then a.opens else [] }

  /** The legs an action closes. */
  function ClosedLegs(positions: seq<Position>, a: Approved): seq<Position> {
    ToClose(Selected(positions, Live(positions), Closed(a)), Closed(a))
  }

  lemma BatchParts(feeds: Feeds, positions: seq<Position>, a: Approved, notes: Notes)
    requires Closes(a.kind) || Rolls(a.kind)
    ensures Batch(feeds, positions, a, notes)
         == CloseTrades(feeds, ClosedLegs(positions, a), notes) + OpenTrades(feeds, OpensOf(a), notes)
  {
    var closes := CloseTrades(feeds, ClosedLegs(positions, a), notes);
    assert closes + [] == closes;
  }

  lemma ClosedLegsShape(positions: seq<Position>, c: Condor, size: nat, a: Approved)
    requires Grouped(positions) && HoldsCondor(positions, c, size)
    ensures DistinctLegs(ClosedLegs(positions, a))
    ensures forall p :: p in ClosedLegs(positions, a) ==>
      p in positions && (p.role in IC_ROLES ==> p.netQty == Size(p.role, size))
  {
    assert DistinctLegs(positions);
    var live, roles := Live(positions), Closed(a);
    KeptDistinct(positions, p => Matches(live, roles, p));
    ToCloseDistinct(Selected(positions, live, roles), roles);
    forall p | p in positions && p.role in IC_ROLES ensures p.netQty == Size(p.role, size) {
      var i: nat :| i < |positions| && positions[i] == p;
      HeldDistinct(positions, i);
    }
  }

  lemma BatchRepeatsNoKey(feeds: Feeds, positions: seq<Position>, c: Condor, size: nat, a: Approved, notes: Notes)
    requires Grouped(positions) && HoldsCondor(positions, c, size) && size > 0
    requires (Closes(a.kind) || Rolls(a.kind)) && OpensOneEach(OpensOf(a))
    ensures RepeatsNoKey(Batch(feeds, positions, a, notes))
  {
    var legs := ClosedLegs(positions, a);
    ClosedLegsShape(positions, c, size, a);
    ClosesRepeatNoKey(feeds, legs, notes);
    BatchParts(feeds, positions, a, notes);
    var closes, opens := CloseTrades(feeds, legs, notes), OpenTrades(feeds, OpensOf(a), notes);
    forall i, j | 0 <= i < |closes| && 0 <= j < |opens| ensures !closes[i].SameKey(opens[j]) {
      CloseTradeOf(feeds, legs, notes, i);
      assert legs[i] in legs;
    }
  }

  // --- The ledger after the action ------------------------------------------------------------

  /** The store's rows are worth exactly the positions, contract by contract. */
  ghost predicate Backs(ledger: seq<Trade>, positions: seq<Position>) {
    forall role: LegRole, key: Key :: role in IC_ROLES ==>
      NetContract(ledger, role, key) == HeldIn(positions, role, key)
  }

  /** The closing row of a role reaches the ledger. */
  predicate CloseStored(ledger: seq<Trade>, feeds: Feeds, c: Condor, a: Approved, role: LegRole)
    requires c.KeyOf(role).Some?
  {
    role in Closed(a) && !KeyTaken(ledger, role, c.KeyOf(role).value, feeds.today, Closing(role))
  }

  /** The opening row of a role reaches the ledger. */
  predicate OpenStored(ledger: seq<Trade>, feeds: Feeds, a: Approved, role: LegRole) {
    var key := OpenedAt(OpensOf(a), role);
    key.Some? && !KeyTaken(ledger, role, key.value, feeds.today, Opening(role))
  }

  lemma OpenTradesNet(ledger: seq<Trade>, feeds: Feeds, opens: seq<LegSpec>, notes: Notes, role: LegRole, key: Key)
    requires OpensOneEach(opens) && role in IC_ROLES
    ensures NetContract(Unskipped(ledger, OpenTrades(feeds, opens, notes)), role, key)
         == if OpenedAt(opens, role) == Some(key) && !KeyTaken(ledger, role, key, feeds.today, Opening(role))
            then Size(role, 1) else 0
  {
    var batch := OpenTrades(feeds, opens, notes);
    forall i | 0 <= i < |batch| && batch[i].On(role, key)
      ensures batch[i].date == feeds.today && batch[i].action == Opening(role)
    {
      assert batch[i] == OpenTrade(feeds, opens[i], notes);
    }
    UnskippedNet(ledger, batch, role, key, feeds.today, Opening(role));
    NetOfOpens(feeds, opens, notes, role, key);
  }

  lemma CloseTradesNet(ledger: seq<Trade>, feeds: Feeds, positions: seq<Position>, c: Condor, size: nat, a: Approved,
                       notes: Notes, role: LegRole, key: Key)
    requires Grouped(positions) && HoldsCondor(positions, c, size) && size > 0 && role in IC_ROLES
    ensures HeldIn(positions, role, key)
          + NetContract(Unskipped(ledger, CloseTrades(feeds, ClosedLegs(positions, a), notes)), role, key)
         == if c.KeyOf(role) == Some(key) && !CloseStored(ledger, feeds, c, a, role) then Size(role, size) else 0
  {
    var legs := ClosedLegs(positions, a);
    var batch := CloseTrades(feeds, legs, notes);
    ClosedLegsShape(positions, c, size, a);
    forall i | 0 <= i < |batch| && batch[i].On(role, key)
      ensures batch[i].date == feeds.today && batch[i].action == Closing(role)
    {
      CloseTradeOf(feeds, legs, notes, i);
      assert legs[i] in legs;
    }
    UnskippedNet(ledger, batch, role, key, feeds.today, Closing(role));
    ClosingLeaves(feeds, positions, Closed(a), notes, role, key);
    if HeldIn(positions, role, key) != 0 {
      HeldIsChosen(positions, c, size, role, key);
    }
  }

  /** The net of each contract after the batch: the old leg unless its close was stored, and the new leg if its
      opening was. */
  lemma NetAfter(ledger: seq<Trade>, feeds: Feeds, positions: seq<Position>, c: Condor, size: nat, a: Approved,
                 notes: Notes, role: LegRole, key: Key)
    requires Grouped(positions) && HoldsCondor(positions, c, size) && size > 0 && Backs(ledger, positions)
    requires (Closes(a.kind) || Rolls(a.kind)) && OpensOneEach(OpensOf(a)) && role in IC_ROLES
    ensures NetContract(Recorded(ledger, Batch(feeds, positions, a, notes)), role, key)
         == (if c.KeyOf(role) == Some(key) && !CloseStored(ledger, feeds, c, a, role) then Size(role, size) else 0)
          + (if OpenedAt(OpensOf(a), role) == Some(key) && OpenStored(ledger, feeds, a, role) then Size(role, 1) else 0)
  {
    var batch := Batch(feeds, positions, a, notes);
    var closes, opens := CloseTrades(feeds, ClosedLegs(positions, a), notes), OpenTrades(feeds, OpensOf(a), notes);
    BatchRepeatsNoKey(feeds, positions, c, size, a, notes);
    BatchParts(feeds, positions, a, notes);
    RecordedAppends(ledger, batch);
    UnskippedConcat(ledger, closes, opens);
    NetOfConcat(ledger, Unskipped(ledger, batch), role, key);
    NetOfConcat(Unskipped(ledger, closes), Unskipped(ledger, opens), role, key);
    CloseTradesNet(ledger, feeds, positions, c, size, a, notes, role, key);
    OpenTradesNet(ledger, feeds, OpensOf(a), notes, role, key);
  }

  ghost predicate LedgerLegAt(ledger: seq<Trade>, role: LegRole, key: Key) {
    NetContract(ledger, role, key) != 0 && forall other: Key :: other != key ==> NetContract(ledger, role, other) == 0
  }

  ghost predicate OneLegStored(ledger: seq<Trade>, role: LegRole) { exists key: Key :: LedgerLegAt(ledger, role, key) }

  ghost predicate NoLegStored(ledger: seq<Trade>, role: LegRole) {
    forall key: Key :: NetContract(ledger, role, key) == 0
  }

  /** A role ends with one leg exactly when its close and its opening are both stored, or the close is not and no
      other contract is opened; with a stored close and a skipped opening the role is lost. */
  lemma RoleStoredIff(ledger: seq<Trade>, feeds: Feeds, positions: seq<Position>, c: Condor, size: nat, a: Approved,
                      notes: Notes, role: LegRole)
    requires Grouped(positions) && HoldsCondor(positions, c, size) && size > 0 && Backs(ledger, positions)
    requires (Closes(a.kind) || Rolls(a.kind)) && OpensOneEach(OpensOf(a)) && role in IC_ROLES
    ensures var after := Recorded(ledger, Batch(feeds, positions, a, notes));
      var closed, reopened := CloseStored(ledger, feeds, c, a, role), OpenStored(ledger, feeds, a, role);
      && (OneLegStored(after, role)
          <==> if closed then reopened else reopened ==> OpenedAt(OpensOf(a), role) == c.KeyOf(role))
      && (NoLegStored(after, role) <==> closed && !reopened)
  {
    var after := Recorded(ledger, Batch(feeds, positions, a, notes));
    var closed, stored := CloseStored(ledger, feeds, c, a, role), OpenStored(ledger, feeds, a, role);
    var held, target := c.KeyOf(role).value, OpenedAt(OpensOf(a), role);
    forall key: Key ensures NetContract(after, role, key)
      == (if key == held && !closed then Size(role, size) else 0)
       + (if target == Some(key) && stored then Size(role, 1) else 0)
    {
      NetAfter(ledger, feeds, positions, c, size, a, notes, role, key);
    }
    if stored && (closed || target == Some(held)) {
      assert LedgerLegAt(after, role, target.value);
    } else if !stored && !closed {
      assert LedgerLegAt(after, role, held);
    } else if stored {
      assert NetContract(after, role, held) != 0 && NetContract(after, role, target.value) != 0;
    }
  }

  ghost predicate WholeCondorStored(ledger: seq<Trade>) {
    forall role :: role in IC_ROLES ==> OneLegStored(ledger, role)
  }

  /** The ledger after an action that reaches it holds a whole condor exactly when, in every role, a stored close
      comes with a stored opening and an opening beside a kept leg is at that leg's own contract. */
  lemma LedgerHoldsCondorIff(ledger: seq<Trade>, feeds: Feeds, positions: seq<Position>, c: Condor, size: nat,
                             a: Approved, notes: Notes)
    requires Grouped(positions) && HoldsCondor(positions, c, size) && size > 0 && Backs(ledger, positions)
    requires (Closes(a.kind) || Rolls(a.kind)) && OpensOneEach(OpensOf(a))
    ensures WholeCondorStored(Recorded(ledger, Batch(feeds, positions, a, notes))) <==>
      forall role :: role in IC_ROLES ==> RoleKept(ledger, feeds, c, a, role)
  {
    forall role | role in IC_ROLES
      ensures OneLegStored(Recorded(ledger, Batch(feeds, positions, a, notes)), role)
         <==> RoleKept(ledger, feeds, c, a, role)
    {
      RoleStoredIff(ledger, feeds, positions, c, size, a, notes, role);
    }
  }

  predicate RoleKept(ledger: seq<Trade>, feeds: Feeds, c: Condor, a: Approved, role: LegRole)
    requires c.KeyOf(role).Some?
  {
    if CloseStored(ledger, feeds, c, a, role) then OpenStored(ledger, feeds, a, role)
    else OpenStored(ledger, feeds, a, role) ==> OpenedAt(OpensOf(a), role) == c.KeyOf(role)
  }

  /** The case that loses a role: a roll to a contract already sold in that role on the same date. */
  lemma ReopeningSoldContractLosesRole(ledger: seq<Trade>, feeds: Feeds, positions: seq<Position>, c: Condor, size: nat,
                                       a: Approved, notes: Notes, side: Side)
    requires Grouped(positions) && HoldsCondor(positions, c, size) && size > 0 && Backs(ledger, positions)
    requires a.kind == RollWing && OpensOneEach(a.opens) && Short(side) in Closed(a)
    requires OpenedAt(a.opens, Short(side)).Some?
    requires KeyTaken(ledger, Short(side), OpenedAt(a.opens, Short(side)).value, feeds.today, SELL)
    requires !KeyTaken(ledger, Short(side), c.KeyOf(Short(side)).value, feeds.today, BUY)
    ensures NoLegStored(Recorded(ledger, Batch(feeds, positions, a, notes)), Short(side))
  {
    RoleStoredIff(ledger, feeds, positions, c, size, a, notes, Short(side));
  }
}
