/** The agreement between trade ledger and signal log, and why every gamma
    transaction keeps it. Nothing here needs scans to be serialised. */
module GammaAgreement {
  import opened Wrappers
  import opened PaperLedger
  import opened GammaTables

  predicate BuysSignal(t: Trade, id: SignalId) { t.action == BUY && t.notes == EntryOf(id) }

  ghost predicate Bought(db: Db, id: SignalId) {
    exists i :: 0 <= i < |db.ledger| && BuysSignal(db.ledger[i], id)
  }

  /** The log row that belongs to a BUY row: filled, at that price and on that date. */
  ghost predicate FillMatches(db: Db, t: Trade, id: SignalId) {
    && id in db.log && db.log[id].filled
    && db.log[id].fillPrice == Some(t.price) && db.log[id].bestAsk == t.price
    && db.log[id].fillTime.Some? && db.log[id].fillTime.value.date == t.date
    && db.log[id].unfilled.None? && Leg(db, id) == t.role
  }

  ghost predicate BuysMatchFills(db: Db) {
    forall i :: 0 <= i < |db.ledger| && db.ledger[i].action == BUY ==>
      db.ledger[i].notes.EntryOf? && FillMatches(db, db.ledger[i], db.ledger[i].notes.signal)
  }

  ghost predicate FillsWereBought(db: Db) {
    forall id :: id in db.log && db.log[id].filled ==> Bought(db, id)
  }

  ghost predicate UnfilledRowsSayWhy(db: Db) {
    forall id :: id in db.log && !db.log[id].filled ==> db.log[id].Unfilled()
  }

  ghost predicate OneBuyPerSignal(db: Db) {
    forall i, j :: 0 <= i < j < |db.ledger| && db.ledger[i].action == BUY && db.ledger[j].action == BUY
      ==> db.ledger[i].notes != db.ledger[j].notes
  }

  /** At most one open signal position per option type. */
  ghost predicate OneOpenPerType(db: Db) {
    forall a, b :: (a in db.log && b in db.log && db.log[a].Open() && db.log[b].Open()
                    && db.log[a].contract.optionType == db.log[b].contract.optionType) ==> a == b
  }

  ghost predicate Agreed(db: Db) {
    && BuysMatchFills(db) && FillsWereBought(db)
    && UnfilledRowsSayWhy(db) && OneBuyPerSignal(db) && OneOpenPerType(db)
  }

  /** An unevaluated candidate: built by the scan, triggered, nothing filled yet. */
  predicate IsCandidate(ev: Evaluated) {
    ev.row.triggered && !ev.row.filled && ev.row.exit.None?
    && ev.row.fillPrice.None? && ev.row.fillTime.None?
  }

  /** Either nothing is bought, or the new BUY row is the last one and its log row is filled from it. */
  lemma EntryShape(db: Db, ev: Evaluated, now: Moment, lot: int)
    requires EntryTx(db, ev, now, lot).Some?
    ensures ev.id !in db.log
    ensures var after := EntryTx(db, ev, now, lot).value;
      var buy := BuyTrade(ev, now, lot);
      || (after == Db(db.ledger, db.log[ev.id := RefusedRow(ev)]))
      || (after == Db(db.ledger, db.log[ev.id := AttemptedRow(ev, now, false)]))
      || (after == Db(db.ledger + [buy], db.log[ev.id := AttemptedRow(ev, now, true)])
          && Clear(db, ev.row.contract.optionType))
  {
  }

  lemma NewRowKeepsAgreement(db: Db, id: SignalId, row: LogRow)
    requires Agreed(db) && id !in db.log && row.Unfilled()
    ensures Agreed(Db(db.ledger, db.log[id := row]))
  {
    var after := Db(db.ledger, db.log[id := row]);
    forall id2 | id2 in after.log && after.log[id2].filled ensures Bought(after, id2) {
      assert Bought(db, id2);
      var i :| 0 <= i < |db.ledger| && BuysSignal(db.ledger[i], id2);
      assert BuysSignal(after.ledger[i], id2);
    }
    forall i | 0 <= i < |after.ledger| && after.ledger[i].action == BUY
      ensures after.ledger[i].notes.EntryOf? && FillMatches(after, after.ledger[i], after.ledger[i].notes.signal)
    {
      assert FillMatches(db, db.ledger[i], db.ledger[i].notes.signal);
    }
  }

  lemma PurchaseKeepsAgreement(db: Db, ev: Evaluated, now: Moment, lot: int)
    requires Agreed(db) && IsCandidate(ev) && ev.id !in db.log && Clear(db, ev.row.contract.optionType)
    ensures Agreed(Db(db.ledger + [BuyTrade(ev, now, lot)], db.log[ev.id := AttemptedRow(ev, now, true)]))
  {
    var buy := BuyTrade(ev, now, lot);
    var after := Db(db.ledger + [buy], db.log[ev.id := AttemptedRow(ev, now, true)]);
    assert BuysSignal(after.ledger[|db.ledger|], ev.id);
    forall id | id in after.log && after.log[id].filled ensures Bought(after, id) {
      if id != ev.id {
        assert Bought(db, id);
        var i :| 0 <= i < |db.ledger| && BuysSignal(db.ledger[i], id);
        assert BuysSignal(after.ledger[i], id);
      }
    }
    forall i | 0 <= i < |after.ledger| && after.ledger[i].action == BUY
      ensures after.ledger[i].notes.EntryOf? && FillMatches(after, after.ledger[i], after.ledger[i].notes.signal)
      ensures i < |db.ledger| ==> after.ledger[i].notes != buy.notes
    {
      if i < |db.ledger| {
        assert after.ledger[i] == db.ledger[i];
        assert FillMatches(db, db.ledger[i], db.ledger[i].notes.signal);
      }
    }
  }

  lemma EntryKeepsAgreement(db: Db, ev: Evaluated, now: Moment, lot: int)
    requires Agreed(db) && IsCandidate(ev) && EntryTx(db, ev, now, lot).Some?
    ensures Agreed(EntryTx(db, ev, now, lot).value)
  {
    EntryShape(db, ev, now, lot);
    var after := EntryTx(db, ev, now, lot).value;
    if after.ledger == db.ledger {
      NewRowKeepsAgreement(db, ev.id, after.log[ev.id]);
    } else {
      PurchaseKeepsAgreement(db, ev, now, lot);
    }
  }

  /** Rows keep their action, notes, price, date and role when a close marks them. */
  predicate SameButState(a: Trade, b: Trade) { a.(state := b.state) == b }

  lemma CloseLongShape(ledger: seq<Trade>, t: Trade)
    ensures var after := CloseLong(ledger, t);
      && |after| == |Insert(ledger, t)|
      && (forall i :: 0 <= i < |after| ==> SameButState(Insert(ledger, t)[i], after[i]))
      && (forall i :: 0 <= i < |ledger| ==> SameButState(ledger[i], after[i]))
      && |ledger| <= |after| <= |ledger| + 1
      && (|after| == |ledger| + 1 ==> SameButState(t, after[|ledger|]))
  {
  }

  /** Marking rows, appending SELL rows and setting the exit of a filled row keep the agreement. */
  lemma ClosingKeepsAgreement(db: Db, after: Db, id: SignalId, e: Exit)
    requires Agreed(db) && id in db.log && db.log[id].filled
    requires |db.ledger| <= |after.ledger|
    requires forall i :: 0 <= i < |db.ledger| ==> SameButState(db.ledger[i], after.ledger[i])
    requires forall i :: |db.ledger| <= i < |after.ledger| ==> after.ledger[i].action == SELL
    requires after.log == WithExit(db.log, id, e)
    ensures Agreed(after)
  {
    forall id2 | id2 in after.log && after.log[id2].filled ensures Bought(after, id2) {
      assert Bought(db, id2);
      var i :| 0 <= i < |db.ledger| && BuysSignal(db.ledger[i], id2);
      assert BuysSignal(after.ledger[i], id2);
    }
    ClosingKeepsMatches(db, after, id, e);
  }

  lemma ClosingKeepsMatches(db: Db, after: Db, id: SignalId, e: Exit)
    requires BuysMatchFills(db) && OneBuyPerSignal(db)
    requires |db.ledger| <= |after.ledger|
    requires forall i :: 0 <= i < |db.ledger| ==> SameButState(db.ledger[i], after.ledger[i])
    requires forall i :: |db.ledger| <= i < |after.ledger| ==> after.ledger[i].action == SELL
    requires after.log == WithExit(db.log, id, e)
    ensures BuysMatchFills(after) && OneBuyPerSignal(after)
  {
    forall i | 0 <= i < |after.ledger| && after.ledger[i].action == BUY
      ensures after.ledger[i].notes.EntryOf? && FillMatches(after, after.ledger[i], after.ledger[i].notes.signal)
    {
      assert FillMatches(db, db.ledger[i], db.ledger[i].notes.signal);
    }
  }

  lemma ExitKeepsAgreement(db: Db, o: ExitOrder, now: Moment, lot: int)
    requires Agreed(db) && ExitTx(db, o, now, lot).Some?
    requires o.id in db.log && db.log[o.id].filled
    ensures Agreed(ExitTx(db, o, now, lot).value)
  {
    CloseLongShape(db.ledger, SellTrade(o, now, lot));
    ClosingKeepsAgreement(db, ExitTx(db, o, now, lot).value, o.id, Exit(o.price, now, o.reason));
  }

  lemma LogKeepsAgreement(db: Db, id: SignalId, row: LogRow)
    requires Agreed(db) && row.Unfilled() && LogTx(db, id, row).Some?
    ensures Agreed(LogTx(db, id, row).value)
  {
    var after := LogTx(db, id, row).value;
    assert after.ledger == db.ledger;
    forall id2 | id2 in after.log && after.log[id2].filled ensures Bought(after, id2) {
      assert Bought(db, id2);
    }
    forall i | 0 <= i < |after.ledger| && after.ledger[i].action == BUY
      ensures after.ledger[i].notes.EntryOf? && FillMatches(after, after.ledger[i], after.ledger[i].notes.signal)
    {
      assert FillMatches(db, db.ledger[i], db.ledger[i].notes.signal);
    }
  }

  /** Only unfilled rows were added. */
  ghost predicate Extends(before: Db, after: Db) {
    && after.ledger == before.ledger
    && (forall id :: id in before.log ==> id in after.log && after.log[id] == before.log[id])
    && (forall id :: id in after.log && id !in before.log ==> after.log[id].Unfilled())
  }

  lemma ExtendsKeepsAgreement(before: Db, after: Db)
    requires Agreed(before) && Extends(before, after)
    ensures Agreed(after)
  {
    forall id | id in after.log && after.log[id].filled ensures Bought(after, id) {
      assert Bought(before, id);
    }
    forall i | 0 <= i < |after.ledger| && after.ledger[i].action == BUY
      ensures after.ledger[i].notes.EntryOf? && FillMatches(after, after.ledger[i], after.ledger[i].notes.signal)
    {
      assert FillMatches(before, before.ledger[i], before.ledger[i].notes.signal);
    }
  }

  /** A log row is marked filled exactly when its BUY row is in the ledger, with price, date and
      null reason agreeing; a triggered row that is not filled names its reason. */
  lemma FilledIffBought(db: Db, id: SignalId)
    requires Agreed(db) && id in db.log
    ensures db.log[id].filled <==> Bought(db, id)
    ensures db.log[id].triggered ==> (db.log[id].filled <==> db.log[id].unfilled.None?)
    ensures db.log[id].filled <==> db.log[id].fillPrice.Some?
    ensures db.log[id].filled <==> db.log[id].fillTime.Some?
    ensures db.log[id].filled ==> (exists i :: TheBuyOf(db, id, i))
  {
    if Bought(db, id) {
      var i :| 0 <= i < |db.ledger| && BuysSignal(db.ledger[i], id);
      assert FillMatches(db, db.ledger[i], id);
      assert TheBuyOf(db, id, i);
    }
  }

  /** Row i is the only BUY row of the signal and agrees with its fill price and date. */
  ghost predicate TheBuyOf(db: Db, id: SignalId, i: int) {
    && 0 <= i < |db.ledger| && BuysSignal(db.ledger[i], id)
    && id in db.log && db.log[id].fillPrice == Some(db.ledger[i].price)
    && db.log[id].fillTime.Some? && db.log[id].fillTime.value.date == db.ledger[i].date
    && (forall j :: 0 <= j < |db.ledger| && BuysSignal(db.ledger[j], id) ==> j == i)
  }
}
