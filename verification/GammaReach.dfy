/** Which databases the micro-steps can reach: a scan run without interruption commits the one-step entry
    or exit, and such scans in a row reach a stranded lot. */
module GammaReach {
  import opened Wrappers
  import opened PaperLedger
  import opened GammaTables
  import opened GammaAgreement
  import opened GammaLegs
  import opened GammaProtocol
  import opened GammaSerial

  lemma RunCons(cfg: Cfg, s: Sys, lbl: Label, rest: seq<Label>)
    requires Step(cfg, s, lbl).Some?
    ensures RunFrom(cfg, s, [lbl] + rest) == RunFrom(cfg, Step(cfg, s, lbl).value, rest)
  {
    assert ([lbl] + rest)[1..] == rest;
  }

  lemma {:induction false} RunConcat(cfg: Cfg, s: Sys, run: seq<Label>, rest: seq<Label>)
    requires RunFrom(cfg, s, run).Some?
    ensures RunFrom(cfg, s, run + rest) == RunFrom(cfg, RunFrom(cfg, s, run).value, rest)
    decreases |run|
  {
    if run == [] {
      assert [] + rest == rest;
    } else {
      RunConcat(cfg, Step(cfg, s, run[0]).value, run[1..], rest);
      assert (run + rest)[1..] == run[1..] + rest;
    }
  }

  /** `to` is one run away from `s`. */
  ghost predicate Leads(cfg: Cfg, s: Sys, to: Sys) { exists run :: RunFrom(cfg, s, run) == Some(to) }

  lemma LeadsByStep(cfg: Cfg, s: Sys, lbl: Label, to: Sys)
    requires Step(cfg, s, lbl).Some? && Leads(cfg, Step(cfg, s, lbl).value, to)
    ensures Leads(cfg, s, to)
  {
    var rest :| RunFrom(cfg, Step(cfg, s, lbl).value, rest) == Some(to);
    RunCons(cfg, s, lbl, rest);
    assert RunFrom(cfg, s, [lbl] + rest) == Some(to);
  }

  lemma LeadsNowhere(cfg: Cfg, s: Sys)
    ensures Leads(cfg, s, s)
  {
    assert RunFrom(cfg, s, []) == Some(s);
  }

  lemma LeadsOn(cfg: Cfg, a: Sys, b: Sys, c: Sys)
    requires Leads(cfg, a, b) && Leads(cfg, b, c)
    ensures Leads(cfg, a, c)
  {
    var run :| RunFrom(cfg, a, run) == Some(b);
    var rest :| RunFrom(cfg, b, rest) == Some(c);
    RunConcat(cfg, a, run, rest);
    assert RunFrom(cfg, a, run + rest) == Some(c);
  }

  /** No scan runs: the state between two scans. */
  function Idle(db: Db, sold: multiset<Sale>): Sys { Sys(db, None, map[], sold) }

  /** One scan running, in a given transaction. */
  function Alone(db: Db, txn: Option<Txn>, scan: Scan, sold: multiset<Sale>): Sys {
    Sys(db, txn, map[0 := scan], sold)
  }

  lemma OnlyScan(scan: Scan, next: Scan)
    ensures map[0 := scan][0 := next] == map[0 := next]
  {
  }

  function EnteringScan(db: Db, now: Moment, lot: int): Scan { Scan(now, lot, OpenIds(db), Entering, {}, {}) }

  /** From the moment an entry knows whether it may trade. */
  lemma CheckedEntryCommits(cfg: Cfg, db: Db, sold: multiset<Sale>, ev: Evaluated, scan: Scan)
    requires EntryTx(db, ev, scan.now, scan.lot).Some?
    ensures var after := EntryTx(db, ev, scan.now, scan.lot).value;
      Leads(cfg, Alone(db, Some(Txn(0, EntryJob(ev), db, Checked(Clear(db, ev.row.contract.optionType)))), scan, sold),
            Alone(after, None, scan.(entered := scan.entered + Fills(after, ev.id)), sold))
  {
    var job := EntryJob(ev);
    var clear := Clear(db, ev.row.contract.optionType);
    var after := EntryTx(db, ev, scan.now, scan.lot).value;
    var filled := !Conflicts(db.ledger, BuyTrade(ev, scan.now, scan.lot));
    var checked := Alone(db, Some(Txn(0, job, db, Checked(clear))), scan, sold);
    var traded := Alone(db, Some(Txn(0, job, db.(ledger := after.ledger), Traded(filled))), scan, sold);
    var logged := Alone(db, Some(Txn(0, job, after, Logged)), scan, sold);
    var end := Alone(after, None, scan.(entered := scan.entered + Fills(after, ev.id)), sold);
    assert Step(cfg, logged, Commit) == Some(end) by { OnlyScan(scan, end.scans[0]); }
    LeadsNowhere(cfg, end);
    LeadsByStep(cfg, logged, Commit, end);
    if clear {
      assert Step(cfg, traded, WriteLog) == Some(logged);
      LeadsByStep(cfg, traded, WriteLog, end);
      assert Step(cfg, checked, WriteLedger) == Some(traded);
      LeadsByStep(cfg, checked, WriteLedger, end);
    } else {
      assert Step(cfg, checked, WriteLog) == Some(logged);
      LeadsByStep(cfg, checked, WriteLog, end);
    }
  }

  /** An uninterrupted entry: begin, check, the writes the check allows, commit. */
  lemma EntryCommits(cfg: Cfg, db: Db, sold: multiset<Sale>, ev: Evaluated, scan: Scan)
    requires scan.stage.Entering? && IsCandidate(ev) && ev.key == cfg.resolve(ev.row.contract)
    requires EntryTx(db, ev, scan.now, scan.lot).Some?
    ensures var after := EntryTx(db, ev, scan.now, scan.lot).value;
      Leads(cfg, Alone(db, None, scan, sold),
            Alone(after, None, scan.(entered := scan.entered + Fills(after, ev.id)), sold))
  {
    var job := EntryJob(ev);
    var after := EntryTx(db, ev, scan.now, scan.lot).value;
    var s := Alone(db, None, scan, sold);
    var begun := Alone(db, Some(Txn(0, job, db, Begun)), scan, sold);
    var checked := Alone(db, Some(Txn(0, job, db, Checked(Clear(db, ev.row.contract.optionType)))), scan, sold);
    var end := Alone(after, None, scan.(entered := scan.entered + Fills(after, ev.id)), sold);
    CheckedEntryCommits(cfg, db, sold, ev, scan);
    assert Step(cfg, begun, Check) == Some(checked);
    LeadsByStep(cfg, begun, Check, end);
    assert Step(cfg, s, Begin(0, job)) == Some(begun) by { OnlyScan(scan, scan); }
    LeadsByStep(cfg, s, Begin(0, job), end);
  }

  /** An uninterrupted exit: begin, both writes, commit. */
  lemma ExitCommits(cfg: Cfg, db: Db, sold: multiset<Sale>, o: ExitOrder, scan: Scan)
    requires scan.stage.Exiting? && o.id in scan.stage.todo
    requires o.id in db.log && o.contract == db.log[o.id].contract && cfg.resolve(o.contract) == Some(o.key)
    requires ExitTx(db, o, scan.now, scan.lot).Some?
    ensures var after := ExitTx(db, o, scan.now, scan.lot).value;
      Leads(cfg, Alone(db, None, scan, sold),
            Alone(after, None, scan.(stage := Exiting(scan.stage.todo - {o.id}), exited := scan.exited + {o.id}),
                  sold + multiset{Sale(o.contract.optionType, o.key, scan.now.date)}))
  {
    var job := ExitJob(o);
    var after := ExitTx(db, o, scan.now, scan.lot).value;
    var begunScan := scan.(stage := Exiting(scan.stage.todo - {o.id}));
    var s := Alone(db, None, scan, sold);
    var begun := Alone(db, Some(Txn(0, job, db, Begun)), begunScan, sold);
    var traded := Alone(db, Some(Txn(0, job, db.(ledger := after.ledger), Traded(true))), begunScan, sold);
    var logged := Alone(db, Some(Txn(0, job, after, Logged)), begunScan, sold);
    var end := Alone(after, None, begunScan.(exited := scan.exited + {o.id}),
                     sold + multiset{Sale(o.contract.optionType, o.key, scan.now.date)});
    LeadsNowhere(cfg, end);
    OnlyScan(begunScan, end.scans[0]);
    OnlyScan(scan, begunScan);
    assert Step(cfg, logged, Commit) == Some(end);
    LeadsByStep(cfg, logged, Commit, end);
    assert Step(cfg, traded, WriteLog) == Some(logged);
    LeadsByStep(cfg, traded, WriteLog, end);
    assert Step(cfg, begun, WriteLedger) == Some(traded);
    LeadsByStep(cfg, begun, WriteLedger, end);
    assert Step(cfg, s, Begin(0, job)) == Some(begun);
    LeadsByStep(cfg, s, Begin(0, job), end);
  }

  lemma ScanStarts(cfg: Cfg, db: Db, sold: multiset<Sale>, now: Moment, lot: int, to: Sys)
    requires LotFits(db, OpenIds(db), lot)
    requires Leads(cfg, Alone(db, None, EnteringScan(db, now, lot), sold), to)
    ensures Leads(cfg, Idle(db, sold), to)
  {
    assert Step(cfg, Idle(db, sold), StartScan(0, now, lot)) == Some(Alone(db, None, EnteringScan(db, now, lot), sold));
    LeadsByStep(cfg, Idle(db, sold), StartScan(0, now, lot), to);
  }

  lemma ScanEnds(cfg: Cfg, db: Db, sold: multiset<Sale>, scan: Scan)
    ensures Leads(cfg, Alone(db, None, scan, sold), Idle(db, sold))
  {
    assert Step(cfg, Alone(db, None, scan, sold), EndScan(0)) == Some(Idle(db, sold));
    LeadsNowhere(cfg, Idle(db, sold));
    LeadsByStep(cfg, Alone(db, None, scan, sold), EndScan(0), Idle(db, sold));
  }

  /** A scan that enters one strike and ends, uninterrupted. */
  lemma ScanEnters(cfg: Cfg, db: Db, sold: multiset<Sale>, ev: Evaluated, now: Moment, lot: int)
    requires LotFits(db, OpenIds(db), lot) && IsCandidate(ev) && ev.key == cfg.resolve(ev.row.contract)
    requires EntryTx(db, ev, now, lot).Some?
    ensures Leads(cfg, Idle(db, sold), Idle(EntryTx(db, ev, now, lot).value, sold))
  {
    var scan := EnteringScan(db, now, lot);
    var after := EntryTx(db, ev, now, lot).value;
    var entered := Alone(after, None, scan.(entered := scan.entered + Fills(after, ev.id)), sold);
    EntryCommits(cfg, db, sold, ev, scan);
    ScanEnds(cfg, after, sold, scan.(entered := scan.entered + Fills(after, ev.id)));
    LeadsOn(cfg, Alone(db, None, scan, sold), entered, Idle(after, sold));
    ScanStarts(cfg, db, sold, now, lot, Idle(after, sold));
  }

  /** A scan that exits one position and ends, uninterrupted. */
  lemma ScanExits(cfg: Cfg, db: Db, sold: multiset<Sale>, o: ExitOrder, now: Moment, lot: int)
    requires LotFits(db, OpenIds(db), lot) && o.id in OpenIds(db)
    requires o.contract == db.log[o.id].contract && cfg.resolve(o.contract) == Some(o.key)
    requires ExitTx(db, o, now, lot).Some?
    ensures Leads(cfg, Idle(db, sold),
                  Idle(ExitTx(db, o, now, lot).value, sold + multiset{Sale(o.contract.optionType, o.key, now.date)}))
  {
    var started := EnteringScan(db, now, lot);
    var scan := started.(stage := Exiting(started.positions));
    var after := ExitTx(db, o, now, lot).value;
    var sold' := sold + multiset{Sale(o.contract.optionType, o.key, now.date)};
    var ended := scan.(stage := Exiting(scan.stage.todo - {o.id}), exited := scan.exited + {o.id});
    ExitCommits(cfg, db, sold, o, scan);
    ScanEnds(cfg, after, sold', ended);
    LeadsOn(cfg, Alone(db, None, scan, sold), Alone(after, None, ended, sold'), Idle(after, sold'));
    OnlyScan(started, scan);
    assert Step(cfg, Alone(db, None, started, sold), ToExits(0)) == Some(Alone(db, None, scan, sold));
    LeadsByStep(cfg, Alone(db, None, started, sold), ToExits(0), Idle(after, sold'));
    ScanStarts(cfg, db, sold, now, lot, Idle(after, sold'));
  }

  // --- A stranded lot is reachable ------------------------------------------------

  /** Reached from the empty database between two scans. */
  ghost predicate Reached(cfg: Cfg, db: Db, sold: multiset<Sale>) { Leads(cfg, Init, Idle(db, sold)) }

  lemma ReachedByEntry(cfg: Cfg, db: Db, sold: multiset<Sale>, ev: Evaluated, now: Moment, lot: int)
    requires Reached(cfg, db, sold) && LotFits(db, OpenIds(db), lot)
    requires IsCandidate(ev) && ev.key == cfg.resolve(ev.row.contract) && EntryTx(db, ev, now, lot).Some?
    ensures Reached(cfg, EntryTx(db, ev, now, lot).value, sold)
  {
    ScanEnters(cfg, db, sold, ev, now, lot);
    LeadsOn(cfg, Init, Idle(db, sold), Idle(EntryTx(db, ev, now, lot).value, sold));
  }

  lemma ReachedByExit(cfg: Cfg, db: Db, sold: multiset<Sale>, o: ExitOrder, now: Moment, lot: int)
    requires Reached(cfg, db, sold) && LotFits(db, OpenIds(db), lot) && o.id in OpenIds(db)
    requires o.contract == db.log[o.id].contract && cfg.resolve(o.contract) == Some(o.key)
    requires ExitTx(db, o, now, lot).Some?
    ensures Reached(cfg, ExitTx(db, o, now, lot).value, sold + multiset{Sale(o.contract.optionType, o.key, now.date)})
  {
    ScanExits(cfg, db, sold, o, now, lot);
    LeadsOn(cfg, Init, Idle(db, sold),
            Idle(ExitTx(db, o, now, lot).value, sold + multiset{Sale(o.contract.optionType, o.key, now.date)}));
  }

  lemma OneBuyFits(db: Db, lot: int)
    requires forall i :: 0 <= i < |db.ledger| && db.ledger[i].action == BUY ==> db.ledger[i].quantity == lot
    ensures LotFits(db, OpenIds(db), lot)
  {
  }

  /** The first purchase of a run. */
  function Bought1(ev: Evaluated, day: Moment, lot: int): Db {
    Db([BuyTrade(ev, day, lot)], map[ev.id := AttemptedRow(ev, day, true)])
  }

  lemma FirstPurchase(cfg: Cfg, ev: Evaluated, day: Moment, lot: int)
    requires IsCandidate(ev) && ev.row.bestAsk > 0.0 && lot > 0 && ev.key.Some? && ev.key.value != ""
    requires ev.key == cfg.resolve(ev.row.contract)
    ensures EntryTx(Init.committed, ev, day, lot) == Some(Bought1(ev, day, lot))
    ensures Reached(cfg, Bought1(ev, day, lot), multiset{})
    ensures Agreed(Bought1(ev, day, lot))
    ensures LegHolds(Bought1(ev, day, lot), cfg.resolve, ev.row.contract.optionType, ev.key.value, lot)
  {
    InitIsSerial(cfg);
    var t := ev.row.contract.optionType;
    assert LegFlat(Init.committed, t) && Clear(Init.committed, t);
    assert [] + [BuyTrade(ev, day, lot)] == [BuyTrade(ev, day, lot)];
    assert EntryTx(Init.committed, ev, day, lot) == Some(Bought1(ev, day, lot));
    LeadsNowhere(cfg, Init);
    ReachedByEntry(cfg, Init.committed, multiset{}, ev, day, lot);
    EntryKeepsAgreement(Init.committed, ev, day, lot);
    BuyHoldsOneLot(Init.committed, cfg.resolve, ev, day, lot);
  }

  /** The order that closes what `ev` bought. */
  predicate Closes(o: ExitOrder, ev: Evaluated) {
    o.id == ev.id && o.contract == ev.row.contract && Some(o.key) == ev.key
  }

  /** Bought on one date and sold on the next: a reachable database, flat, in which the next purchase of
      that day is open and its sale's key is taken. */
  lemma CarriedPositionSoldNextDay(cfg: Cfg, ev: Evaluated, o: ExitOrder, day1: Moment, day2: Moment, lot: int)
    returns (db: Db)
    requires IsCandidate(ev) && ev.row.bestAsk > 0.0 && lot > 0 && ev.key.Some? && ev.key.value != ""
    requires ev.key == cfg.resolve(ev.row.contract) && Closes(o, ev) && day1.date != day2.date
    ensures Reached(cfg, db, multiset{Sale(o.contract.optionType, o.key, day2.date)}) && Agreed(db)
    ensures db.log.Keys == {ev.id} && LegFlat(db, o.contract.optionType)
    ensures Conflicts(db.ledger, SellTrade(o, day2, lot))
    ensures forall again: Evaluated :: !Conflicts(db.ledger, BuyTrade(again, day2, lot))
    ensures forall i :: 0 <= i < |db.ledger| && db.ledger[i].action == BUY ==> db.ledger[i].quantity == lot
  {
    FirstPurchase(cfg, ev, day1, lot);
    var held := Bought1(ev, day1, lot);
    CarriedSale(cfg, ev, o, day1, day2, lot);
    db := ExitTx(held, o, day2, lot).value;
    OneBuyFits(held, lot);
    ReachedByExit(cfg, held, multiset{}, o, day2, lot);
    assert multiset{} + multiset{Sale(o.contract.optionType, o.key, day2.date)}
        == multiset{Sale(o.contract.optionType, o.key, day2.date)};
    SoldOnce(held.ledger[0], SellTrade(o, day2, lot));
  }

  /** What the sale of the carried position leaves. */
  lemma CarriedSale(cfg: Cfg, ev: Evaluated, o: ExitOrder, day1: Moment, day2: Moment, lot: int)
    requires Agreed(Bought1(ev, day1, lot)) && Closes(o, ev) && IsCandidate(ev) && lot > 0 && o.key != ""
    requires LegHolds(Bought1(ev, day1, lot), cfg.resolve, o.contract.optionType, o.key, lot)
    requires day1.date != day2.date
    ensures ExitTx(Bought1(ev, day1, lot), o, day2, lot).Some?
    ensures var db := ExitTx(Bought1(ev, day1, lot), o, day2, lot).value;
      Agreed(db) && LegFlat(db, o.contract.optionType) && db.log.Keys == {ev.id}
      && db.ledger == CloseLong([BuyTrade(ev, day1, lot)], SellTrade(o, day2, lot))
  {
    SellFlattensOrStrands(Bought1(ev, day1, lot), cfg.resolve, o, day2, lot);
    ExitKeepsAgreement(Bought1(ev, day1, lot), o, day2, lot);
  }

  /** The ledger after the first sale of its only purchase. */
  lemma SoldOnce(buy: Trade, sell: Trade)
    requires buy.action == BUY && sell.action == SELL && buy.date != sell.date
    ensures var after := CloseLong([buy], sell);
      && |after| == 2 && SameButState(buy, after[0]) && SameButState(sell, after[1])
      && Conflicts(after, sell)
      && (forall again: Trade :: again.action == BUY && again.date == sell.date ==> !Conflicts(after, again))
  {
    assert Insert([buy], sell) == [buy, sell];
    CloseLongShape([buy], sell);
    assert CloseLong([buy], sell)[1].SameKey(sell);
  }

  /** A lot no open position accounts for is reachable: buy, carry, sell the next day, buy and sell the same
      contract again on that day. The second sale is swallowed. */
  lemma SurplusIsReachable(cfg: Cfg, ev: Evaluated, again: Evaluated, o: ExitOrder, o2: ExitOrder,
                           day1: Moment, day2: Moment, lot: int) returns (db: Db, sold: multiset<Sale>)
    requires IsCandidate(ev) && ev.row.bestAsk > 0.0 && lot > 0 && ev.key.Some? && ev.key.value != ""
    requires ev.key == cfg.resolve(ev.row.contract) && Closes(o, ev) && day1.date != day2.date
    requires IsCandidate(again) && again.id != ev.id && again.row.bestAsk > 0.0
    requires again.row.contract == ev.row.contract && again.key == ev.key && Closes(o2, again)
    ensures Reached(cfg, db, sold) && SoldTwice(sold, ev.row.contract.optionType)
    ensures Surplus(db, ev.row.contract.optionType) && Net(db.ledger, Gamma(ev.row.contract.optionType)) == lot
  {
    var sale := Sale(o.contract.optionType, o.key, day2.date);
    var flat := CarriedPositionSoldNextDay(cfg, ev, o, day1, day2, lot);
    assert Conflicts(flat.ledger, SellTrade(o2, day2, lot)) by {
      var i :| 0 <= i < |flat.ledger| && flat.ledger[i].SameKey(SellTrade(o, day2, lot));
      assert flat.ledger[i].SameKey(SellTrade(o2, day2, lot));
    }
    SecondSaleOfADayStrands(cfg, flat, again, o2, day2, lot);
    var held := EntryTx(flat, again, day2, lot).value;
    db := ExitTx(held, o2, day2, lot).value;
    sold := multiset{sale} + multiset{sale};
    OneBuyFits(flat, lot);
    ReachedByEntry(cfg, flat, multiset{sale}, again, day2, lot);
    assert held.ledger == flat.ledger + [BuyTrade(again, day2, lot)];
    OneBuyFits(held, lot);
    assert o2.id in OpenIds(held);
    ReachedByExit(cfg, held, multiset{sale}, o2, day2, lot);
    assert sold[sale] == 2;
  }
}
