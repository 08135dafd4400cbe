/** A day's history of the ledger that loses a role: a condor is entered, closed in full and entered in other
    contracts, and a roll then goes back to a contract of the first one. */
module CondorHistory {
  import opened Wrappers
  import opened PaperLedger
  import opened CondorRoll
  import opened CondorLadder
  import opened CloseExecutor
  import opened CondorActions
  import opened CondorLedger

  function EntryLeg(c: Condor, role: LegRole, price: real): LegSpec
    requires c.KeyOf(role).Some?
  {
    LegSpec(c.KeyOf(role).value, Opening(role), 1, role, true, price)
  }

  /** The four legs of an entry. */
  function EntryLegs(c: Condor, price: LegRole -> real): seq<LegSpec> {
    [EntryLeg(c, Short(Put), price(Short(Put))), EntryLeg(c, Short(Call), price(Short(Call))),
     EntryLeg(c, Long(Put), price(Long(Put))), EntryLeg(c, Long(Call), price(Long(Call)))]
  }

  const FULL_CLOSE: Approved := Approved(CloseFull, {}, [], None, true)

  /** No contract of one condor is the other's in the same role. */
  predicate NoSharedLeg(a: Condor, b: Condor) { forall role :: role in IC_ROLES ==> a.KeyOf(role) != b.KeyOf(role) }

  /** All condor rows are in the contracts of c. */
  predicate OnlyIn(ledger: seq<Trade>, c: Condor) {
    forall i :: 0 <= i < |ledger| && ledger[i].role in IC_ROLES ==> c.KeyOf(ledger[i].role) == Some(ledger[i].key)
  }

  lemma EntryOpensOneEach(c: Condor, price: LegRole -> real)
    ensures OpensOneEach(EntryLegs(c, price))
    ensures forall role :: role in IC_ROLES ==> OpenedAt(EntryLegs(c, price), role) == c.KeyOf(role)
  {
    var legs := EntryLegs(c, price);
    assert legs[..3][..2] == legs[..2] == [legs[0], legs[1]];
    TwoOpened(legs[0], legs[1]);
    OpenedLast(legs[..2], legs[2], Long(Put));
    forall role | role in IC_ROLES ensures OpenedAt(legs, role) == c.KeyOf(role) {
      assert legs[..3] == legs[..2] + [legs[2]] && legs == legs[..3] + [legs[3]];
      OpenedLast(legs[..2], legs[2], role);
      OpenedLast(legs[..3], legs[3], role);
    }
  }

  lemma {:induction false} EntryRows(feeds: Feeds, c: Condor, price: LegRole -> real, notes: Notes)
    ensures RowsOf(OpenTrades(feeds, EntryLegs(c, price), notes), c)
  {
    EntryOpensOneEach(c, price);
  }

  predicate RowsOf(batch: seq<Trade>, c: Condor) {
    && (forall j :: 0 <= j < |batch| ==> batch[j].role in IC_ROLES && c.KeyOf(batch[j].role) == Some(batch[j].key))
    && RepeatsNoKey(batch)
  }

  lemma RowsStored(ledger: seq<Trade>, c: Condor, batch: seq<Trade>)
    requires RowsOf(batch, c)
    requires forall i :: 0 <= i < |ledger| && ledger[i].role in IC_ROLES ==>
      c.KeyOf(ledger[i].role) != Some(ledger[i].key)
    ensures Recorded(ledger, batch) == ledger + batch
  {
    assert FreshBatch(ledger, batch);
    BatchStoredWholeIff(ledger, batch);
  }

  /** The rows of an entry are all stored when no condor row is in their contracts. */
  lemma {:induction false} EntryStored(ledger: seq<Trade>, feeds: Feeds, c: Condor, price: LegRole -> real,
                                       notes: Notes)
    requires forall i :: 0 <= i < |ledger| && ledger[i].role in IC_ROLES ==>
      c.KeyOf(ledger[i].role) != Some(ledger[i].key)
    ensures Recorded(ledger, OpenTrades(feeds, EntryLegs(c, price), notes))
         == ledger + OpenTrades(feeds, EntryLegs(c, price), notes)
  {
    EntryRows(feeds, c, price, notes);
    RowsStored(ledger, c, OpenTrades(feeds, EntryLegs(c, price), notes));
  }

  /** The ledger holds one unit of a condor and nothing else in its roles. */
  ghost predicate NetsCondor(ledger: seq<Trade>, c: Condor) {
    forall role: LegRole, key: Key :: role in IC_ROLES ==>
      NetContract(ledger, role, key) == if c.KeyOf(role) == Some(key) then Size(role, 1) else 0
  }

  lemma HeldCondor(ledger: seq<Trade>, positions: seq<Position>, c: Condor)
    requires Backs(ledger, positions) && NetsCondor(ledger, c)
    ensures HoldsCondor(positions, c, 1)
  {
  }

  /** After the entry. */
  lemma {:induction false} EntryNets(ledger: seq<Trade>, feeds: Feeds, c: Condor, price: LegRole -> real, notes: Notes)
    requires forall role: LegRole, key: Key :: role in IC_ROLES ==> NetContract(ledger, role, key) == 0
    ensures NetsCondor(ledger + OpenTrades(feeds, EntryLegs(c, price), notes), c)
  {
    var batch := OpenTrades(feeds, EntryLegs(c, price), notes);
    EntryOpensOneEach(c, price);
    forall role: LegRole, key: Key | role in IC_ROLES
      ensures NetContract(ledger + batch, role, key) == if c.KeyOf(role) == Some(key) then Size(role, 1) else 0
    {
      NetOfConcat(ledger, batch, role, key);
      NetOfOpens(feeds, EntryLegs(c, price), notes, role, key);
    }
  }

  /** A full close on the day of the entry, which is all the ledger holds: every leg goes, and all rows stay in the
      contracts of the condor. */
  lemma ClosedAgain(ledger: seq<Trade>, feeds: Feeds, positions: seq<Position>, c: Condor, notes: Notes)
    requires Grouped(positions) && HoldsCondor(positions, c, 1) && Backs(ledger, positions) && OnlyIn(ledger, c)
    requires forall i :: 0 <= i < |ledger| && ledger[i].role in IC_ROLES ==> ledger[i].action == Opening(ledger[i].role)
    ensures var after := Recorded(ledger, Batch(feeds, positions, FULL_CLOSE, notes));
      && (forall role: LegRole, key: Key :: role in IC_ROLES ==> NetContract(after, role, key) == 0)
      && OnlyIn(after, c) && |after| >= |ledger| && after[..|ledger|] == ledger
  {
    var batch := Batch(feeds, positions, FULL_CLOSE, notes);
    forall role: LegRole, key: Key | role in IC_ROLES
      ensures NetContract(Recorded(ledger, batch), role, key) == 0
    {
      NetAfter(ledger, feeds, positions, c, 1, FULL_CLOSE, notes, role, key);
    }
    BatchRepeatsNoKey(feeds, positions, c, 1, FULL_CLOSE, notes);
    RecordedAppends(ledger, batch);
    ClosesOnlyIn(feeds, positions, c, notes);
    UnskippedAreRows(ledger, batch);
    OnlyInConcat(ledger, Unskipped(ledger, batch), batch, c);
  }

  lemma OnlyInConcat(ledger: seq<Trade>, added: seq<Trade>, batch: seq<Trade>, c: Condor)
    requires OnlyIn(ledger, c) && OnlyIn(batch, c) && forall t :: t in added ==> t in batch
    ensures OnlyIn(ledger + added, c)
  {
    forall i | |ledger| <= i < |ledger + added| && (ledger + added)[i].role in IC_ROLES
      ensures c.KeyOf((ledger + added)[i].role) == Some((ledger + added)[i].key)
    {
      assert (ledger + added)[i] == added[i - |ledger|] && added[i - |ledger|] in added;
    }
  }

  lemma ClosesOnlyIn(feeds: Feeds, positions: seq<Position>, c: Condor, notes: Notes)
    requires Grouped(positions) && HoldsCondor(positions, c, 1)
    ensures OnlyIn(Batch(feeds, positions, FULL_CLOSE, notes), c)
  {
    var legs := ClosedLegs(positions, FULL_CLOSE);
    ClosedLegsShape(positions, c, 1, FULL_CLOSE);
    BatchParts(feeds, positions, FULL_CLOSE, notes);
    var batch := CloseTrades(feeds, legs, notes);
    assert OpenTrades(feeds, [], notes) == [] && batch + [] == batch;
    forall i | 0 <= i < |batch| && batch[i].role in IC_ROLES
      ensures c.KeyOf(batch[i].role) == Some(batch[i].key)
    {
      CloseTradeOf(feeds, legs, notes, i);
      assert legs[i] in legs;
      var k: nat :| k < |positions| && positions[k] == legs[i];
      HeldDistinct(positions, k);
    }
  }

  /** The ledger after an entry in a, a full close, and an entry in b. */
  function Reentered(first: Feeds, second: Feeds, third: Feeds, a: Condor, b: Condor, price: LegRole -> real,
                     price': LegRole -> real, before: seq<Position>, notes: Notes): seq<Trade>
  {
    var entered := Recorded([], OpenTrades(first, EntryLegs(a, price), notes));
    var closed := Recorded(entered, Batch(second, before, FULL_CLOSE, notes));
    Recorded(closed, OpenTrades(third, EntryLegs(b, price'), notes))
  }

  lemma FirstEntry(first: Feeds, a: Condor, price: LegRole -> real, notes: Notes)
    ensures var opens := OpenTrades(first, EntryLegs(a, price), notes);
      Recorded([], opens) == opens && OnlyIn(opens, a) && NetsCondor(opens, a)
  {
    var opens := OpenTrades(first, EntryLegs(a, price), notes);
    EntryStored([], first, a, price, notes);
    assert [] + opens == opens;
    EntryRows(first, a, price, notes);
    EntryNets([], first, a, price, notes);
  }

  /** What the second entry leads to. */
  lemma ReenteredLedger(first: Feeds, second: Feeds, third: Feeds, a: Condor, b: Condor, price: LegRole -> real,
                        price': LegRole -> real, before: seq<Position>, notes: Notes, side: Side)
    requires NoSharedLeg(a, b) && Grouped(before)
    requires Backs(Recorded([], OpenTrades(first, EntryLegs(a, price), notes)), before)
    ensures var again := Reentered(first, second, third, a, b, price, price', before, notes);
      && NetsCondor(again, b)
      && KeyTaken(again, Short(side), a.KeyOf(Short(side)).value, first.today, SELL)
      && !KeyTaken(again, Short(side), b.KeyOf(Short(side)).value, third.today, BUY)
  {
    var opens := OpenTrades(first, EntryLegs(a, price), notes);
    FirstEntry(first, a, price, notes);
    HeldCondor(opens, before, a);
    EntryOpensOneEach(a, price);
    ClosedAgain(opens, second, before, a, notes);
    var closed := Recorded(opens, Batch(second, before, FULL_CLOSE, notes));
    EntryStored(closed, third, b, price', notes);
    EntryNets(closed, third, b, price', notes);
    RolledBack(opens, closed, first, third, a, b, price, price', notes, side);
  }

  /** Entry, full close, entry in other contracts and a roll back to the first condor's short contract, all on one
      date, whatever was quoted and whatever the store answered as positions in between: the rolled role is
      empty in the ledger. */
  lemma RollBackLosesRole(first: Feeds, second: Feeds, third: Feeds, last: Feeds, a: Condor, b: Condor,
                          price: LegRole -> real, price': LegRole -> real, before: seq<Position>,
                          positions: seq<Position>, roll: Approved, notes: Notes, side: Side)
    requires first.today == second.today == third.today == last.today && NoSharedLeg(a, b)
    requires Grouped(before) && Backs(Recorded([], OpenTrades(first, EntryLegs(a, price), notes)), before)
    requires Grouped(positions) && Backs(Reentered(first, second, third, a, b, price, price', before, notes), positions)
    requires roll.kind == RollWing && OpensOneEach(roll.opens) && Short(side) in Closed(roll)
    requires OpenedAt(roll.opens, Short(side)) == a.KeyOf(Short(side))
    ensures HoldsCondor(positions, b, 1)
    ensures var again := Reentered(first, second, third, a, b, price, price', before, notes);
      NoLegStored(Recorded(again, Batch(last, positions, roll, notes)), Short(side))
  {
    ReenteredLedger(first, second, third, a, b, price, price', before, notes, side);
    HeldCondor(Reentered(first, second, third, a, b, price, price', before, notes), positions, b);
    ReopeningSoldContractLosesRole(Reentered(first, second, third, a, b, price, price', before, notes), last,
                                   positions, b, 1, roll, notes, side);
  }

  /** The first condor's short contract has its sale of the day, the second one's no purchase. */
  lemma RolledBack(opens: seq<Trade>, closed: seq<Trade>, first: Feeds, third: Feeds, a: Condor, b: Condor,
                   price: LegRole -> real, price': LegRole -> real, notes: Notes, side: Side)
    requires NoSharedLeg(a, b) && opens == OpenTrades(first, EntryLegs(a, price), notes)
    requires |closed| >= |opens| && closed[..|opens|] == opens && OnlyIn(closed, a)
    ensures var again := closed + OpenTrades(third, EntryLegs(b, price'), notes);
      && KeyTaken(again, Short(side), a.KeyOf(Short(side)).value, first.today, SELL)
      && !KeyTaken(again, Short(side), b.KeyOf(Short(side)).value, third.today, BUY)
  {
    var added := OpenTrades(third, EntryLegs(b, price'), notes);
    var again, i := closed + added, if side == Put then 0 else 1;
    assert again[i] == closed[i] == opens[i];
    forall k | 0 <= k < |again| && again[k].role == Short(side)
      ensures again[k].key != b.KeyOf(Short(side)).value || again[k].action == SELL
    {
      assert again[k] == if k < |closed| then closed[k] else added[k - |closed|];
    }
  }

  // --- Positions as the store groups them --------------------------------------------------

  function PositionsOf(c: Condor): seq<Position> {
    [Position(Short(Put), c.shortPut, -1, 0.0, 0.0, 0), Position(Short(Call), c.shortCall, -1, 0.0, 0.0, 0),
     Position(Long(Put), c.longPut, 1, 0.0, 0.0, 0), Position(Long(Call), c.longCall, 1, 0.0, 0.0, 0)]
  }

  /** A ledger that holds one unit of a condor has positions to match. */
  lemma PositionsBack(ledger: seq<Trade>, c: Condor)
    requires NetsCondor(ledger, c)
    ensures Grouped(PositionsOf(c)) && Backs(ledger, PositionsOf(c))
  {
    var p := PositionsOf(c);
    assert p[..3][..2] == p[..2] && p[..2][..1] == p[..1] && p[..1][..0] == [];
    forall role: LegRole, key: Key | role in IC_ROLES ensures NetContract(ledger, role, key) == HeldIn(p, role, key) {
      assert p == p[..3] + [p[3]] && p[..3] == p[..2] + [p[2]] && p[..2] == p[..1] + [p[1]] && p[..1] == [] + [p[0]];
      HeldOfAppend([], p[0], role, key);
      HeldOfAppend(p[..1], p[1], role, key);
      HeldOfAppend(p[..2], p[2], role, key);
      HeldOfAppend(p[..3], p[3], role, key);
    }
  }

  /** A roll back to a's short contract and any wing. */
  function RollBack(a: Condor, side: Side, wing: Key, price: real): Approved {
    Approved(RollWing, {Short(side), Long(side)},
             [LegSpec(a.KeyOf(Short(side)).value, SELL, 1, Short(side), true, price),
              LegSpec(wing, BUY, 1, Long(side), true, price)],
             None, true)
  }

  /** Such a day happens: for any two condors without a shared leg, with the positions the store then groups, the role
      is lost. */
  lemma RollBackHappens(first: Feeds, second: Feeds, third: Feeds, last: Feeds, a: Condor, b: Condor,
                        price: LegRole -> real, price': LegRole -> real, notes: Notes, side: Side, wing: Key)
    requires first.today == second.today == third.today == last.today && NoSharedLeg(a, b)
    ensures Backs(Recorded([], OpenTrades(first, EntryLegs(a, price), notes)), PositionsOf(a))
    ensures var again := Reentered(first, second, third, a, b, price, price', PositionsOf(a), notes);
      && Backs(again, PositionsOf(b))
      && NoLegStored(Recorded(again, Batch(last, PositionsOf(b), RollBack(a, side, wing, 1.0), notes)), Short(side))
  {
    FirstEntry(first, a, price, notes);
    PositionsBack(Recorded([], OpenTrades(first, EntryLegs(a, price), notes)), a);
    ReenteredLedger(first, second, third, a, b, price, price', PositionsOf(a), notes, side);
    PositionsBack(Reentered(first, second, third, a, b, price, price', PositionsOf(a), notes), b);
    var roll := RollBack(a, side, wing, 1.0);
    TwoOpened(roll.opens[0], roll.opens[1]);
    RollBackLosesRole(first, second, third, last, a, b, price, price', PositionsOf(a), PositionsOf(b), roll, notes,
                      side);
  }
}
