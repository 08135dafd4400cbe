/** Quantities over whole runs in which scans are serialised by the process lock. */
module GammaSerial {
  import opened Wrappers
  import opened PaperLedger
  import opened GammaTables
  import opened GammaAgreement
  import opened GammaLegs
  import opened GammaProtocol

  ghost predicate BothLegsOk(cfg: Cfg, db: Db) {
    forall t: OptionType :: LegOk(db, cfg.resolve, t)
  }

  /** Positions this scan may still exit. */
  function Pending(scan: Scan): set<SignalId> {
    match scan.stage
    case Entering => scan.positions
    case Exiting(todo) => todo
  }

  ghost predicate NoReentry(db: Db, scan: Scan) {
    forall a, b :: a in scan.entered && b in scan.positions && a in db.log && b in db.log
      ==> db.log[a].contract.optionType != db.log[b].contract.optionType
  }

  ghost predicate SerialScanOk(db: Db, scan: Scan) {
    && Pending(scan) <= OpenIds(db) && LotFits(db, OpenIds(db) * scan.positions, scan.lot)
    && NoReentry(db, scan)
  }

  ghost predicate SoldRecorded(ledger: seq<Trade>, sold: multiset<Sale>) {
    forall sale: Sale :: sale in sold <==> HasSale(ledger, sale)
  }

  ghost predicate HasSale(ledger: seq<Trade>, sale: Sale) {
    exists i :: 0 <= i < |ledger| && ledger[i].action == SELL && IsSale(ledger[i], sale)
  }

  predicate IsSale(t: Trade, sale: Sale) {
    t.role == Gamma(sale.optionType) && t.key == sale.key && t.date == sale.date
  }

  ghost predicate SoldTwice(sold: multiset<Sale>, t: OptionType) {
    exists sale: Sale :: sale.optionType == t && sold[sale] >= 2
  }

  ghost predicate SurplusIsDoubleSale(db: Db, sold: multiset<Sale>) {
    forall t: OptionType :: Surplus(db, t) <==> SoldTwice(sold, t)
  }

  ghost predicate SerialInv(cfg: Cfg, s: Sys) {
    && Inv(cfg, s)
    && (forall p, q :: p in s.scans && q in s.scans ==> p == q)
    && BothLegsOk(cfg, s.committed)
    && (forall p :: p in s.scans ==> SerialScanOk(s.committed, s.scans[p]))
    && (s.txn.Some? && s.txn.value.job.ExitJob? ==> s.txn.value.job.order.id in OpenIds(s.committed))
    && SoldRecorded(s.committed.ledger, s.sold)
    && SurplusIsDoubleSale(s.committed, s.sold)
  }

  // --- Commits, one kind at a time -----------------------------------------

  /** What a commit does to a leg: nothing but fill it, empty it, or strand its lot. */
  ghost predicate LegMoves(cfg: Cfg, before: Db, after: Db, t: OptionType) {
    && LegOk(after, cfg.resolve, t)
    && (Surplus(before, t) ==>
          Surplus(after, t) && Net(after.ledger, Gamma(t)) == Net(before.ledger, Gamma(t)))
  }

  lemma EntryMoves(cfg: Cfg, db: Db, ev: Evaluated, now: Moment, lot: int, t: OptionType)
    requires Agreed(db) && LegOk(db, cfg.resolve, t) && IsCandidate(ev) && ev.key == cfg.resolve(ev.row.contract)
    requires EntryTx(db, ev, now, lot).Some?
    ensures LegMoves(cfg, db, EntryTx(db, ev, now, lot).value, t)
    ensures Surplus(EntryTx(db, ev, now, lot).value, t) <==> Surplus(db, t)
  {
    var buy := BuyTrade(ev, now, lot);
    if ev.row.contract.optionType == t && Clear(db, t) && !Conflicts(db.ledger, buy) {
      assert LegFlat(db, t);
      BuyHoldsOneLot(db, cfg.resolve, ev, now, lot);
    } else {
      EntryKeepsLeg(db, cfg.resolve, ev, now, lot, t);
    }
  }

  lemma ExitMoves(cfg: Cfg, db: Db, o: ExitOrder, now: Moment, lot: int, t: OptionType)
    requires Agreed(db) && BothLegsOk(cfg, db) && ExitTx(db, o, now, lot).Some?
    requires o.id in OpenIds(db) && db.log[o.id].contract == o.contract && cfg.resolve(o.contract) == Some(o.key)
    requires LotFits(db, {o.id}, lot)
    ensures LegMoves(cfg, db, ExitTx(db, o, now, lot).value, t)
    ensures o.contract.optionType != t ==> (Surplus(ExitTx(db, o, now, lot).value, t) <==> Surplus(db, t))
    ensures o.contract.optionType == t ==> !Surplus(db, t)
    ensures o.contract.optionType == t ==>
      (Surplus(ExitTx(db, o, now, lot).value, t) <==> Conflicts(db.ledger, SellTrade(o, now, lot)))
  {
    if o.contract.optionType == t {
      assert HasOpen(db, t);
      assert LegOk(db, cfg.resolve, t) && !LegFlat(db, t);
      var key, q :| LegHolds(db, cfg.resolve, t, key, q);
      assert key == o.key;
      assert Bought(db, o.id);
      var i :| 0 <= i < |db.ledger| && BuysSignal(db.ledger[i], o.id);
      assert db.ledger[i].quantity == q == lot;
      SellFlattensOrStrands(db, cfg.resolve, o, now, lot);
    } else {
      ExitKeepsOtherLeg(db, cfg.resolve, o, now, lot, t);
    }
  }

  lemma RowsMove(cfg: Cfg, before: Db, after: Db, t: OptionType)
    requires LegOk(before, cfg.resolve, t) && Extends(before, after)
    ensures LegMoves(cfg, before, after, t)
    ensures Surplus(after, t) <==> Surplus(before, t)
  {
    LegFrame(before, after, cfg.resolve, t);
  }

  // --- The system invariant -------------------------------------------------

  /** The position an exit is closing is still open, and was bought as the scan's lot. */
  lemma OrderFits(cfg: Cfg, s: Sys, x: Txn)
    requires SerialInv(cfg, s) && s.txn == Some(x) && x.job.ExitJob?
    ensures var o := x.job.order;
      && o.id in OpenIds(s.committed) && s.committed.log[o.id].contract == o.contract
      && cfg.resolve(o.contract) == Some(o.key) && LotFits(s.committed, {o.id}, s.scans[x.pid].lot)
  {
    var scan := s.scans[x.pid];
    assert SerialScanOk(s.committed, scan);
    assert x.job.order.id in OpenIds(s.committed) * scan.positions;
  }

  /** Legs after any commit. */
  lemma CommitMoves(cfg: Cfg, s: Sys, x: Txn, t: OptionType)
    requires SerialInv(cfg, s) && s.txn == Some(x) && StepTxn(s, x, s.scans[x.pid], Commit).Some?
    ensures LegMoves(cfg, s.committed, StepTxn(s, x, s.scans[x.pid], Commit).value.committed, t)
  {
    var scan := s.scans[x.pid];
    CommitShape(cfg, s, x, scan);
    assert LegOk(s.committed, cfg.resolve, t);
    match x.job
    case LogJob => RowsMove(cfg, s.committed, x.pending, t);
    case EntryJob(ev) => EntryMoves(cfg, s.committed, ev, scan.now, scan.lot, t);
    case ExitJob(o) =>
      OrderFits(cfg, s, x);
      ExitMoves(cfg, s.committed, o, scan.now, scan.lot, t);
  }

  lemma RowsKeepScan(db: Db, after: Db, scan: Scan)
    requires ScanOk(db, scan) && SerialScanOk(db, scan) && Extends(db, after)
    ensures SerialScanOk(after, scan)
  {
    forall id, i | id in OpenIds(after) * scan.positions && 0 <= i < |after.ledger| && BuysSignal(after.ledger[i], id)
      ensures after.ledger[i].quantity == scan.lot
    {
      assert id in OpenIds(db) * scan.positions;
    }
  }

  lemma RowsCommit(cfg: Cfg, s: Sys, x: Txn)
    requires SerialInv(cfg, s) && s.txn == Some(x) && x.job.LogJob?
    requires StepTxn(s, x, s.scans[x.pid], Commit).Some?
    ensures SerialInv(cfg, StepTxn(s, x, s.scans[x.pid], Commit).value)
  {
    var scan := s.scans[x.pid];
    CommitKeepsScans(cfg, s, x);
    CommitShape(cfg, s, x, scan);
    RowsKeepLegs(cfg, s.committed, x.pending, s.sold);
    assert SerialScanOk(s.committed, scan);
    RowsKeepScan(s.committed, x.pending, scan);
  }

  lemma RowsKeepLegs(cfg: Cfg, before: Db, after: Db, sold: multiset<Sale>)
    requires Extends(before, after) && BothLegsOk(cfg, before) && SurplusIsDoubleSale(before, sold)
    ensures BothLegsOk(cfg, after) && SurplusIsDoubleSale(after, sold)
  {
    forall t: OptionType ensures LegOk(after, cfg.resolve, t) ensures Surplus(after, t) <==> Surplus(before, t) {
      assert LegOk(before, cfg.resolve, t);
      RowsMove(cfg, before, after, t);
    }
  }

  lemma EntryCommit(cfg: Cfg, s: Sys, x: Txn)
    requires SerialInv(cfg, s) && s.txn == Some(x) && x.job.EntryJob?
    requires StepTxn(s, x, s.scans[x.pid], Commit).Some?
    ensures SerialInv(cfg, StepTxn(s, x, s.scans[x.pid], Commit).value)
  {
    var scan := s.scans[x.pid];
    var ev := x.job.ev;
    var s' := StepTxn(s, x, scan, Commit).value;
    CommitKeepsScans(cfg, s, x);
    CommitShape(cfg, s, x, scan);
    EntryKeepsLegs(cfg, s.committed, ev, scan.now, scan.lot, s.sold);
    assert SoldRecorded(s'.committed.ledger, s'.sold) by {
      EntryKeepsSales(s.committed, ev, scan.now, scan.lot, s.sold);
    }
    assert SerialScanOk(s'.committed, s'.scans[x.pid]) by {
      EntryKeepsScan(s.committed, ev, scan);
    }
  }

  lemma EntryKeepsLegs(cfg: Cfg, db: Db, ev: Evaluated, now: Moment, lot: int, sold: multiset<Sale>)
    requires Agreed(db) && BothLegsOk(cfg, db) && SurplusIsDoubleSale(db, sold)
    requires IsCandidate(ev) && ev.key == cfg.resolve(ev.row.contract) && EntryTx(db, ev, now, lot).Some?
    ensures BothLegsOk(cfg, EntryTx(db, ev, now, lot).value)
    ensures SurplusIsDoubleSale(EntryTx(db, ev, now, lot).value, sold)
  {
    var after := EntryTx(db, ev, now, lot).value;
    forall t: OptionType ensures LegOk(after, cfg.resolve, t) ensures Surplus(after, t) <==> Surplus(db, t) {
      assert LegOk(db, cfg.resolve, t);
      EntryMoves(cfg, db, ev, now, lot, t);
    }
  }

  lemma EntryKeepsSales(db: Db, ev: Evaluated, now: Moment, lot: int, sold: multiset<Sale>)
    requires SoldRecorded(db.ledger, sold) && EntryTx(db, ev, now, lot).Some?
    ensures SoldRecorded(EntryTx(db, ev, now, lot).value.ledger, sold)
  {
    var after := EntryTx(db, ev, now, lot).value;
    forall sale: Sale ensures HasSale(db.ledger, sale) <==> HasSale(after.ledger, sale) {
      if i :| 0 <= i < |db.ledger| && db.ledger[i].action == SELL && IsSale(db.ledger[i], sale) {
        assert after.ledger[i] == db.ledger[i];
      }
    }
  }

  /** Filling one direction leaves the open positions of the other to the scan's exits. */
  lemma EntryKeepsScan(db: Db, ev: Evaluated, scan: Scan)
    requires Agreed(db) && ScanOk(db, scan) && SerialScanOk(db, scan) && scan.stage.Entering?
    requires EntryTx(db, ev, scan.now, scan.lot).Some? && IsCandidate(ev)
    ensures var after := EntryTx(db, ev, scan.now, scan.lot).value;
      SerialScanOk(after, scan.(entered := scan.entered + Fills(after, ev.id)))
  {
    var after := EntryTx(db, ev, scan.now, scan.lot).value;
    assert forall id :: id in db.log ==> after.log[id] == db.log[id];
    assert scan.positions <= OpenIds(db);
    assert ev.id !in scan.positions;
    forall id, i | id in OpenIds(after) * scan.positions && 0 <= i < |after.ledger| && BuysSignal(after.ledger[i], id)
      ensures after.ledger[i].quantity == scan.lot
    {
      assert id in OpenIds(db) * scan.positions;
      if i < |db.ledger| { assert after.ledger[i] == db.ledger[i]; }
    }
    if after.log[ev.id].filled {
      forall b | b in scan.positions ensures db.log[b].contract.optionType != ev.row.contract.optionType {
        assert b in OpenIds(db);
      }
    }
  }

  lemma ExitCommit(cfg: Cfg, s: Sys, x: Txn)
    requires SerialInv(cfg, s) && s.txn == Some(x) && x.job.ExitJob?
    requires StepTxn(s, x, s.scans[x.pid], Commit).Some?
    ensures SerialInv(cfg, StepTxn(s, x, s.scans[x.pid], Commit).value)
  {
    var scan := s.scans[x.pid];
    var o := x.job.order;
    var s' := StepTxn(s, x, scan, Commit).value;
    CommitKeepsScans(cfg, s, x);
    CommitShape(cfg, s, x, scan);
    OrderFits(cfg, s, x);
    assert SoldRecorded(s'.committed.ledger, s'.sold) && SurplusIsDoubleSale(s'.committed, s'.sold) by {
      ExitKeepsSales(cfg, s, o, scan.now, scan.lot);
    }
    assert BothLegsOk(cfg, s'.committed) by {
      forall t: OptionType ensures LegOk(s'.committed, cfg.resolve, t) {
        ExitMoves(cfg, s.committed, o, scan.now, scan.lot, t);
      }
    }
    assert SerialScanOk(s'.committed, s'.scans[x.pid]) by {
      assert SerialScanOk(s.committed, scan);
      ExitKeepsScan(s.committed, o, scan);
    }
  }

  lemma ExitKeepsScan(db: Db, o: ExitOrder, scan: Scan)
    requires Agreed(db) && ScanOk(db, scan) && SerialScanOk(db, scan) && scan.stage.Exiting?
    requires ExitTx(db, o, scan.now, scan.lot).Some? && o.id !in scan.stage.todo
    ensures SerialScanOk(ExitTx(db, o, scan.now, scan.lot).value, scan.(exited := scan.exited + {o.id}))
  {
    var after := ExitTx(db, o, scan.now, scan.lot).value;
    assert forall id :: id in db.log && id != o.id ==> after.log[id] == db.log[id];
    assert OpenIds(after) <= OpenIds(db);
    ExitKeepsFit(db, o, scan.now, scan.lot, OpenIds(db) * scan.positions);
  }

  /** A close leaves the purchases of the remaining positions as they were. */
  lemma ExitKeepsFit(db: Db, o: ExitOrder, now: Moment, lot: int, ids: set<SignalId>)
    requires ExitTx(db, o, now, lot).Some? && LotFits(db, ids, lot)
    ensures forall some :: some <= ids ==> LotFits(ExitTx(db, o, now, lot).value, some, lot)
  {
    var after := ExitTx(db, o, now, lot).value;
    CloseLongShape(db.ledger, SellTrade(o, now, lot));
    forall id, i | id in ids && 0 <= i < |after.ledger| && BuysSignal(after.ledger[i], id)
      ensures after.ledger[i].quantity == lot
    {
      assert i < |db.ledger| && SameButState(db.ledger[i], after.ledger[i]);
      assert BuysSignal(db.ledger[i], id);
    }
  }

  /** A sale is recorded once more, and twice exactly when its SELL row was swallowed. */
  lemma ExitKeepsSales(cfg: Cfg, s: Sys, o: ExitOrder, now: Moment, lot: int)
    requires SerialInv(cfg, s) && ExitTx(s.committed, o, now, lot).Some?
    requires o.id in OpenIds(s.committed) && s.committed.log[o.id].contract == o.contract
    requires cfg.resolve(o.contract) == Some(o.key) && LotFits(s.committed, {o.id}, lot)
    ensures var sale := Sale(o.contract.optionType, o.key, now.date);
      var after := ExitTx(s.committed, o, now, lot).value;
      SoldRecorded(after.ledger, s.sold + multiset{sale}) && SurplusIsDoubleSale(after, s.sold + multiset{sale})
  {
    var sale := Sale(o.contract.optionType, o.key, now.date);
    var sell := SellTrade(o, now, lot);
    var after := ExitTx(s.committed, o, now, lot).value;
    SalesAfterClose(s.committed.ledger, after.ledger, sell, sale, s.sold);
    forall t: OptionType ensures Surplus(after, t) <==> SoldTwice(s.sold + multiset{sale}, t) {
      ExitMoves(cfg, s.committed, o, now, lot, t);
      assert Surplus(s.committed, t) <==> SoldTwice(s.sold, t);
      if o.contract.optionType != t {
        SoldTwiceElsewhere(s.sold, sale, t);
      } else {
        assert !SoldTwice(s.sold, t);
        assert (s.sold + multiset{sale})[sale] == s.sold[sale] + 1;
        if Conflicts(s.committed.ledger, sell) {
          assert sale in s.sold;
          assert SoldTwice(s.sold + multiset{sale}, t);
        } else {
          assert sale !in s.sold;
          forall other: Sale | other.optionType == t ensures (s.sold + multiset{sale})[other] < 2 {
            assert s.sold[other] < 2;
          }
        }
      }
    }
  }

  lemma SoldTwiceElsewhere(sold: multiset<Sale>, sale: Sale, t: OptionType)
    requires sale.optionType != t
    ensures SoldTwice(sold + multiset{sale}, t) <==> SoldTwice(sold, t)
  {
    forall other: Sale | other.optionType == t ensures (sold + multiset{sale})[other] == sold[other] {
      assert other != sale;
    }
  }

  lemma SalesAfterClose(ledger: seq<Trade>, after: seq<Trade>, sell: Trade, sale: Sale, sold: multiset<Sale>)
    requires after == CloseLong(ledger, sell) && sell.action == SELL && IsSale(sell, sale)
    requires SoldRecorded(ledger, sold)
    ensures SoldRecorded(after, sold + multiset{sale})
    ensures sale in sold <==> Conflicts(ledger, sell)
  {
    CloseLongShape(ledger, sell);
    if Conflicts(ledger, sell) {
      var i :| 0 <= i < |ledger| && ledger[i].SameKey(sell);
      assert ledger[i].action == SELL && IsSale(ledger[i], sale);
      assert SameButState(ledger[i], after[i]);
    }
    forall other: Sale ensures other in sold + multiset{sale} <==> HasSale(after, other) {
      if other in sold {
        assert HasSale(ledger, other);
        var i :| 0 <= i < |ledger| && ledger[i].action == SELL && IsSale(ledger[i], other);
        assert SameButState(ledger[i], after[i]);
        assert after[i].action == SELL && IsSale(after[i], other);
      } else if i :| 0 <= i < |after| && after[i].action == SELL && IsSale(after[i], other) {
        if i < |ledger| {
          assert SameButState(ledger[i], after[i]);
          assert ledger[i].action == SELL && IsSale(ledger[i], other);
        } else {
          assert SameButState(sell, after[i]);
          assert other == sale;
        }
      } else if other == sale {
        assert !Conflicts(ledger, sell);
        assert SameButState(sell, after[|ledger|]);
      }
    }
  }

  /** Scheduling a scan changes neither database nor sales. */
  ghost predicate Schedules(lbl: Label) { lbl.StartScan? || lbl.Begin? || lbl.ToExits? || lbl.EndScan? }

  lemma ScheduleShape(cfg: Cfg, s: Sys, lbl: Label)
    requires cfg.serialised && SerialInv(cfg, s) && Step(cfg, s, lbl).Some? && Schedules(lbl)
    ensures var s' := Step(cfg, s, lbl).value;
      && s'.committed == s.committed && s'.sold == s.sold
      && (forall p, q :: p in s'.scans && q in s'.scans ==> p == q)
      && (s'.txn.Some? && s'.txn.value.job.ExitJob? ==> s'.txn.value.job.order.id in OpenIds(s.committed))
  {
    match lbl
    case StartScan(pid, now, lot) =>
    case Begin(pid, job) =>
      assert SerialScanOk(s.committed, s.scans[pid]);
    case ToExits(pid) =>
    case EndScan(pid) =>
  }

  lemma ScheduleKeepsScans(cfg: Cfg, s: Sys, lbl: Label)
    requires cfg.serialised && SerialInv(cfg, s) && Step(cfg, s, lbl).Some? && Schedules(lbl)
    ensures var s' := Step(cfg, s, lbl).value;
      forall p :: p in s'.scans ==> SerialScanOk(s.committed, s'.scans[p])
  {
    var s' := Step(cfg, s, lbl).value;
    forall p | p in s'.scans ensures SerialScanOk(s.committed, s'.scans[p]) {
      if p in s.scans { assert SerialScanOk(s.committed, s.scans[p]); }
    }
  }

  lemma ScheduleKeepsSerial(cfg: Cfg, s: Sys, lbl: Label)
    requires cfg.serialised && SerialInv(cfg, s) && Step(cfg, s, lbl).Some? && Schedules(lbl)
    ensures SerialInv(cfg, Step(cfg, s, lbl).value)
  {
    StepKeepsInv(cfg, s, lbl);
    ScheduleShape(cfg, s, lbl);
    ScheduleKeepsScans(cfg, s, lbl);
  }

  lemma CommitKeepsSerial(cfg: Cfg, s: Sys, x: Txn)
    requires SerialInv(cfg, s) && s.txn == Some(x) && StepTxn(s, x, s.scans[x.pid], Commit).Some?
    ensures SerialInv(cfg, StepTxn(s, x, s.scans[x.pid], Commit).value)
  {
    match x.job
    case LogJob => RowsCommit(cfg, s, x);
    case EntryJob(_) => EntryCommit(cfg, s, x);
    case ExitJob(_) => ExitCommit(cfg, s, x);
  }

  lemma WriteKeepsSerial(cfg: Cfg, s: Sys, lbl: Label)
    requires SerialInv(cfg, s) && s.txn.Some? && lbl != Commit
    requires StepTxn(s, s.txn.value, s.scans[s.txn.value.pid], lbl).Some?
    ensures SerialInv(cfg, StepTxn(s, s.txn.value, s.scans[s.txn.value.pid], lbl).value)
    ensures StepTxn(s, s.txn.value, s.scans[s.txn.value.pid], lbl).value.committed == s.committed
  {
    WriteKeepsInv(cfg, s, lbl);
    WriteKeepsTxnOk(cfg, s, s.txn.value, s.scans[s.txn.value.pid], lbl);
  }

  lemma StepKeepsSerial(cfg: Cfg, s: Sys, lbl: Label)
    requires cfg.serialised && SerialInv(cfg, s) && Step(cfg, s, lbl).Some?
    ensures SerialInv(cfg, Step(cfg, s, lbl).value)
  {
    if Schedules(lbl) {
      ScheduleKeepsSerial(cfg, s, lbl);
    } else if lbl == Commit {
      CommitKeepsSerial(cfg, s, s.txn.value);
    } else {
      WriteKeepsSerial(cfg, s, lbl);
    }
  }

  lemma StepMoves(cfg: Cfg, s: Sys, lbl: Label, t: OptionType)
    requires cfg.serialised && SerialInv(cfg, s) && Step(cfg, s, lbl).Some?
    ensures LegMoves(cfg, s.committed, Step(cfg, s, lbl).value.committed, t)
  {
    assert LegOk(s.committed, cfg.resolve, t);
    if lbl == Commit {
      CommitMoves(cfg, s, s.txn.value, t);
    } else if Schedules(lbl) {
      ScheduleShape(cfg, s, lbl);
    } else {
      WriteKeepsSerial(cfg, s, lbl);
    }
  }

  lemma {:induction false} RunKeepsSerial(cfg: Cfg, s: Sys, run: seq<Label>)
    requires cfg.serialised && SerialInv(cfg, s) && RunFrom(cfg, s, run).Some?
    ensures SerialInv(cfg, RunFrom(cfg, s, run).value)
    decreases |run|
  {
    if run != [] {
      StepKeepsSerial(cfg, s, run[0]);
      RunKeepsSerial(cfg, Step(cfg, s, run[0]).value, run[1..]);
    }
  }

  lemma {:induction false} RunMoves(cfg: Cfg, s: Sys, run: seq<Label>, t: OptionType)
    requires cfg.serialised && SerialInv(cfg, s) && RunFrom(cfg, s, run).Some?
    ensures LegMoves(cfg, s.committed, RunFrom(cfg, s, run).value.committed, t)
    decreases |run|
  {
    assert LegOk(s.committed, cfg.resolve, t);
    if run != [] {
      var next := Step(cfg, s, run[0]).value;
      StepKeepsSerial(cfg, s, run[0]);
      StepMoves(cfg, s, run[0], t);
      RunMoves(cfg, next, run[1..], t);
    }
  }

  lemma InitIsSerial(cfg: Cfg)
    ensures SerialInv(cfg, Init)
  {
    forall t: OptionType ensures LegFlat(Init.committed, t) {}
  }

  // --- Main results -----------------------------------------------------------

  /** In every reachable state each leg nets to 0, or to exactly the lot of its last purchase, which is
      then the purchase of any open position: never short, never two lots. The net is 0 just when no
      position is open exactly when no contract of the leg was sold twice on one date. */
  lemma LegNetsOverRuns(cfg: Cfg, run: seq<Label>, s: Sys, t: OptionType)
    requires cfg.serialised && Reaches(cfg, run, s)
    ensures Net(s.committed.ledger, Gamma(t)) >= 0
    ensures if Net(s.committed.ledger, Gamma(t)) == 0 then !HasOpen(s.committed, t)
            else exists i :: NetIsLot(s.committed, t, i)
    ensures (Net(s.committed.ledger, Gamma(t)) == 0 <==> !HasOpen(s.committed, t)) <==> !SoldTwice(s.sold, t)
  {
    InitIsSerial(cfg);
    RunKeepsSerial(cfg, Init, run);
    assert LegOk(s.committed, cfg.resolve, t);
    LegNetIsZeroOrOneLot(s.committed, cfg.resolve, t);
    assert Surplus(s.committed, t) <==> SoldTwice(s.sold, t);
  }

  /** Every scan of the run has the same lot size. */
  predicate ScansOfLot(run: seq<Label>, lot: int) {
    forall i :: 0 <= i < |run| && run[i].StartScan? ==> run[i].lot == lot
  }

  ghost predicate LotsOf(s: Sys, lot: int) {
    && (forall p :: p in s.scans ==> s.scans[p].lot == lot)
    && (forall i :: 0 <= i < |s.committed.ledger| && s.committed.ledger[i].action == BUY ==>
          s.committed.ledger[i].quantity == lot)
  }

  /** A commit appends at most one BUY row, of its scan's lot. */
  lemma CommitKeepsLots(cfg: Cfg, s: Sys, x: Txn, lot: int)
    requires Inv(cfg, s) && s.txn == Some(x) && LotsOf(s, lot)
    requires StepTxn(s, x, s.scans[x.pid], Commit).Some?
    ensures LotsOf(StepTxn(s, x, s.scans[x.pid], Commit).value, lot)
  {
    var scan := s.scans[x.pid];
    CommitShape(cfg, s, x, scan);
    match x.job
    case LogJob =>
    case EntryJob(ev) =>
      EntryShape(s.committed, ev, scan.now, scan.lot);
    case ExitJob(o) =>
      ExitAddsNoBuy(s.committed, o, scan.now, scan.lot, lot);
  }

  lemma ExitAddsNoBuy(db: Db, o: ExitOrder, now: Moment, scanLot: int, lot: int)
    requires ExitTx(db, o, now, scanLot).Some?
    requires forall i :: 0 <= i < |db.ledger| && db.ledger[i].action == BUY ==> db.ledger[i].quantity == lot
    ensures var ledger := ExitTx(db, o, now, scanLot).value.ledger;
      forall i :: 0 <= i < |ledger| && ledger[i].action == BUY ==> ledger[i].quantity == lot
  {
    CloseLongShape(db.ledger, SellTrade(o, now, scanLot));
  }

  lemma StepKeepsLots(cfg: Cfg, s: Sys, lbl: Label, lot: int)
    requires Inv(cfg, s) && LotsOf(s, lot) && Step(cfg, s, lbl).Some?
    requires lbl.StartScan? ==> lbl.lot == lot
    ensures LotsOf(Step(cfg, s, lbl).value, lot)
  {
    if lbl == Commit {
      CommitKeepsLots(cfg, s, s.txn.value, lot);
    } else if !Schedules(lbl) {
      WriteKeepsTxnOk(cfg, s, s.txn.value, s.scans[s.txn.value.pid], lbl);
    }
  }

  lemma {:induction false} RunKeepsLots(cfg: Cfg, s: Sys, run: seq<Label>, lot: int)
    requires Inv(cfg, s) && LotsOf(s, lot) && RunFrom(cfg, s, run).Some? && ScansOfLot(run, lot)
    ensures LotsOf(RunFrom(cfg, s, run).value, lot)
    decreases |run|
  {
    if run != [] {
      StepKeepsInv(cfg, s, run[0]);
      StepKeepsLots(cfg, s, run[0], lot);
      RunKeepsLots(cfg, Step(cfg, s, run[0]).value, run[1..], lot);
    }
  }

  /** With one lot size throughout, every leg nets to 0 or to that lot. */
  lemma LegNetsZeroOrLot(cfg: Cfg, run: seq<Label>, s: Sys, t: OptionType, lot: int)
    requires cfg.serialised && Reaches(cfg, run, s) && ScansOfLot(run, lot)
    ensures Net(s.committed.ledger, Gamma(t)) in {0, lot}
    ensures HasOpen(s.committed, t) ==> Net(s.committed.ledger, Gamma(t)) == lot
  {
    LegNetsOverRuns(cfg, run, s, t);
    RunKeepsLots(cfg, Init, run, lot);
    if Net(s.committed.ledger, Gamma(t)) != 0 {
      var i :| NetIsLot(s.committed, t, i);
    }
  }

  /** A surplus lot is absorbing: whatever runs afterwards, it is neither sold nor added to, and
      every entry that commits in its direction is a refusal. */
  lemma SurplusAbsorbs(cfg: Cfg, run: seq<Label>, s: Sys, later: seq<Label>, s': Sys, t: OptionType)
    requires cfg.serialised && Reaches(cfg, run, s) && RunFrom(cfg, s, later) == Some(s')
    requires Surplus(s.committed, t)
    ensures Surplus(s'.committed, t)
    ensures Net(s'.committed.ledger, Gamma(t)) == Net(s.committed.ledger, Gamma(t))
    ensures forall ev: Evaluated, now: Moment, lot: int ::
      ev.row.contract.optionType == t && EntryTx(s'.committed, ev, now, lot).Some? ==>
        EntryTx(s'.committed, ev, now, lot).value
          == s'.committed.(log := s'.committed.log[ev.id := RefusedRow(ev)])
  {
    InitIsSerial(cfg);
    RunKeepsSerial(cfg, Init, run);
    RunMoves(cfg, s, later, t);
  }

  /** No stale flat legs: a contract whose net is 0 has no row still OPEN or DEFENDED. */
  lemma NeverStaleFlatLegs(cfg: Cfg, run: seq<Label>, s: Sys, t: OptionType)
    requires cfg.serialised && Reaches(cfg, run, s)
    ensures NoStaleFlatLeg(s.committed.ledger, Gamma(t))
  {
    InitIsSerial(cfg);
    RunKeepsSerial(cfg, Init, run);
    assert LegOk(s.committed, cfg.resolve, t);
    LegHasNoStaleRow(s.committed, cfg.resolve, t);
  }

  /** A scan never enters a direction it also exits. */
  lemma NoReentryInAScan(cfg: Cfg, run: seq<Label>, s: Sys, p: Pid, a: SignalId, b: SignalId)
    requires cfg.serialised && Reaches(cfg, run, s) && p in s.scans
    requires a in s.scans[p].entered && b in s.scans[p].exited
    ensures a in s.committed.log && b in s.committed.log
    ensures s.committed.log[a].contract.optionType != s.committed.log[b].contract.optionType
  {
    InitIsSerial(cfg);
    RunKeepsSerial(cfg, Init, run);
    assert ScanOk(s.committed, s.scans[p]) && SerialScanOk(s.committed, s.scans[p]);
  }

  /** Equality of ledger and log is not free: a contract already sold on a date, bought again and sold
      again on that date, strands its lot. */
  lemma SecondSaleOfADayStrands(cfg: Cfg, db: Db, ev: Evaluated, o: ExitOrder, now: Moment, lot: int)
    requires Agreed(db) && LegFlat(db, o.contract.optionType) && IsCandidate(ev) && ev.id !in db.log
    requires ev.row.contract == o.contract && o.id == ev.id && ev.row.bestAsk > 0.0 && lot > 0
    requires ev.key == cfg.resolve(o.contract) == Some(o.key) && o.key != ""
    requires Conflicts(db.ledger, SellTrade(o, now, lot)) && !Conflicts(db.ledger, BuyTrade(ev, now, lot))
    ensures EntryTx(db, ev, now, lot).Some? && ExitTx(EntryTx(db, ev, now, lot).value, o, now, lot).Some?
    ensures var after := ExitTx(EntryTx(db, ev, now, lot).value, o, now, lot).value;
      Surplus(after, o.contract.optionType) && Net(after.ledger, Gamma(o.contract.optionType)) == lot
  {
    BuyHoldsOneLot(db, cfg.resolve, ev, now, lot);
    EntryKeepsAgreement(db, ev, now, lot);
    var held := EntryTx(db, ev, now, lot).value;
    var i :| 0 <= i < |db.ledger| && db.ledger[i].SameKey(SellTrade(o, now, lot));
    assert held.ledger[i].SameKey(SellTrade(o, now, lot));
    SellFlattensOrStrands(held, cfg.resolve, o, now, lot);
  }
}
