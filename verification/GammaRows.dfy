/** What the entry and exit of a signal leave in the two tables, field by field: in a committed transaction, in the
    rows of a scan that enters nothing, and over whole serialised runs. */
module GammaRows {
  import opened Wrappers
  import opened PaperLedger
  import opened GammaTables
  import opened GammaAgreement
  import opened GammaLegs
  import opened GammaProtocol
  import opened GammaSerial
  import opened GammaScan

  /** The ledger has a row of the leg, contract, date and action. */
  predicate HasRow(ledger: seq<Trade>, t: OptionType, key: Key, date: int, action: Action) {
    exists i :: 0 <= i < |ledger| && ledger[i].role == Gamma(t) && ledger[i].key == key && ledger[i].date == date
                && ledger[i].action == action
  }

  /** A price the ledger takes for a sale: the one decided on if that is positive, else one tick. */
  predicate SalePriced(price: real, decided: Option<real>) {
    if decided.Some? && decided.value > 0.0 then price == decided.value else price == 0.05
  }

  lemma ConflictsIffRow(ledger: seq<Trade>, row: Trade, t: OptionType)
    requires row.role == Gamma(t)
    ensures Conflicts(ledger, row) <==> HasRow(ledger, t, row.key, row.date, row.action)
  {
    if HasRow(ledger, t, row.key, row.date, row.action) {
      var i :| 0 <= i < |ledger| && ledger[i].role == Gamma(t) && ledger[i].key == row.key
               && ledger[i].date == row.date && ledger[i].action == row.action;
      assert ledger[i].SameKey(row);
    }
  }

  /** An exit commits for any resolved contract and lot. When the contract was not sold on that date, the new last
      ledger row is the sale of this signal: one lot, on the date of the exit, at the price decided on or one tick.
      The log row of an unexited signal shows the decided price, the moment and the reason either way; an exit that is
      shown already is not written over. */
  lemma ExitSells(db: Db, o: ExitOrder, now: Moment, lot: int)
    ensures ExitTx(db, o, now, lot).Some? <==> o.key != "" && lot > 0
    ensures ExitTx(db, o, now, lot).Some? ==>
      var after := ExitTx(db, o, now, lot).value;
      && after.log == (if o.id in db.log && db.log[o.id].exit.None?
                       then db.log[o.id := db.log[o.id].(exit := Some(Exit(o.price, now, o.reason)))] else db.log)
      && if HasRow(db.ledger, o.contract.optionType, o.key, now.date, SELL) then |after.ledger| == |db.ledger|
         else |after.ledger| == |db.ledger| + 1 && IsSaleOf(after.ledger[|db.ledger|], o, now, lot)
  {
    ConflictsIffRow(db.ledger, SellTrade(o, now, lot), o.contract.optionType);
    CloseLongShape(db.ledger, SellTrade(o, now, lot));
  }

  predicate IsSaleOf(row: Trade, o: ExitOrder, now: Moment, lot: int) {
    && row.role == Gamma(o.contract.optionType) && row.key == o.key && row.date == now.date && row.action == SELL
    && row.quantity == lot && row.notes == ExitOf(o.id) && SalePriced(row.price, o.price)
  }

  /** An entry is refused in a direction that is open or not flat, attempted in vain where the contract was bought on
      that date, and filled otherwise; its log row names the reason and keeps what the scan wrote of the strike. */
  lemma EntryOutcome(db: Db, ev: Evaluated, now: Moment, lot: int)
    requires IsCandidate(ev) && EntryTx(db, ev, now, lot).Some?
    ensures var after := EntryTx(db, ev, now, lot).value;
      var t, key := ev.row.contract.optionType, if ev.key.Some? then ev.key.value else "";
      var row := after.log[ev.id];
      && row.contract == ev.row.contract && row.bestAsk == ev.row.bestAsk && row.triggered && row.exit.None?
      && if HasOpen(db, t) || Net(db.ledger, Gamma(t)) != 0 then
           && row.unfilled == Some(OpenPositionSameDirection) && !row.filled && row.attempted == ev.row.attempted
           && after.ledger == db.ledger
         else if HasRow(db.ledger, t, key, now.date, BUY) then
           row.unfilled == Some(DuplicateTrade) && !row.filled && row.attempted && after.ledger == db.ledger
         else
           && row.unfilled.None? && row.filled && row.attempted
           && row.fillPrice == Some(ev.row.bestAsk) && row.fillTime == Some(now)
           && after.ledger
              == db.ledger + [Trade(Gamma(t), key, now.date, BUY, lot, ev.row.bestAsk, EntryOf(ev.id), OPEN)]
  {
    ConflictsIffRow(db.ledger, BuyTrade(ev, now, lot), ev.row.contract.optionType);
  }

  /** An entry raises on its own exactly when its signal is logged already, or when it would buy and the contract is
      unresolved, the ask not positive or the lot not positive. */
  lemma EntryRaisesIff(db: Db, ev: Evaluated, now: Moment, lot: int)
    ensures var t := ev.row.contract.optionType;
      EntryTx(db, ev, now, lot).None?
      <==> ev.id in db.log
           || (!HasOpen(db, t) && Net(db.ledger, Gamma(t)) == 0
               && (ev.key.None? || ev.key.value == "" || ev.row.bestAsk <= 0.0 || lot <= 0))
  {
  }

  /** After half past two, and in a dry run at any time, the best strike of a direction is recorded with that reason and
      not entered; a triggered strike that is not the best always says so; others are recorded as evaluated. */
  lemma ScanSaysWhy(before: Db, after: Db, evals: seq<Evaluated>, ranked: seq<nat>, now: Moment, dryRun: bool,
                    fates: map<OptionType, Fate>, i: nat)
    requires IsRanking(evals, ranked) && i < |evals|
    requires RowsAccounted(before, after, evals, ranked, now, Blocked(dryRun, now), fates)
    ensures var row, id := evals[i].row, evals[i].id;
      && (!row.triggered ==> id in after.log && after.log[id] == row)
      && (row.triggered && !IsChosen(evals, ranked, i) ==>
            id in after.log && after.log[id] == row.(unfilled := Some(NotTopRanked)))
      && (row.triggered && IsChosen(evals, ranked, i) && dryRun ==>
            id in after.log && after.log[id] == row.(unfilled := Some(DryRun)))
      && (row.triggered && IsChosen(evals, ranked, i) && !dryRun && now.time > (14 * 60 + 30) * 60 * 1_000_000 ==>
            id in after.log && after.log[id] == row.(unfilled := Some(EntryWindowClosed)))
      && (row.triggered && IsChosen(evals, ranked, i) && !dryRun && now.time <= (14 * 60 + 30) * 60 * 1_000_000 ==>
            TypeOf(evals[i]) in fates && FateRow(after, evals[i], now, fates[TypeOf(evals[i])]))
  {
    assert RowAccounted(after, evals, ranked, now, Blocked(dryRun, now), fates, i);
  }

  /** What became of an entry that was tried, read from its row: bought at the ask, refused, a duplicate or failed. */
  lemma FateSaysWhy(after: Db, ev: Evaluated, now: Moment, fate: Fate)
    requires IsCandidate(ev) && FateRow(after, ev, now, fate) && !fate.ErrorLost?
    ensures ev.id in after.log
    ensures var row := after.log[ev.id];
      match fate
      case Recorded(true) =>
        && row.filled && row.fillPrice == Some(ev.row.bestAsk) && row.fillTime == Some(now)
        && row.attempted && row.unfilled.None?
      case Recorded(false) =>
        && !row.filled && row.fillPrice.None?
        && (row.unfilled == Some(OpenPositionSameDirection) || (row.attempted && row.unfilled == Some(DuplicateTrade)))
      case ErrorLogged => !row.filled && row.attempted && row.unfilled == Some(EntryError)
      case ErrorLost => false
  {
  }

  // --- History, under any interleaving --------------------------------------------------------

  /** A log row gains at most its exit, once. */
  predicate OnlyExits(before: LogRow, after: LogRow) {
    after == before || (before.exit.None? && after == before.(exit := after.exit))
  }

  /** A ledger row is at most closed. */
  predicate OnlyCloses(before: Trade, after: Trade) { after == before || after == before.(state := CLOSED) }

  /** Nothing recorded is lost or rewritten: a ledger row is at most closed, a log row at most gains a first exit. */
  ghost predicate Remembers(before: Db, after: Db) {
    && |before.ledger| <= |after.ledger|
    && (forall i :: 0 <= i < |before.ledger| ==> OnlyCloses(before.ledger[i], after.ledger[i]))
    && (forall id :: id in before.log ==> id in after.log && OnlyExits(before.log[id], after.log[id]))
  }

  lemma EntryRemembers(db: Db, ev: Evaluated, now: Moment, lot: int)
    requires EntryTx(db, ev, now, lot).Some?
    ensures Remembers(db, EntryTx(db, ev, now, lot).value)
  {
    EntryShape(db, ev, now, lot);
  }

  lemma ExitRemembers(db: Db, o: ExitOrder, now: Moment, lot: int)
    requires ExitTx(db, o, now, lot).Some?
    ensures Remembers(db, ExitTx(db, o, now, lot).value)
  {
    ExitSells(db, o, now, lot);
    ExitOnlyCloses(db.ledger, SellTrade(o, now, lot));
  }

  lemma ExitOnlyCloses(ledger: seq<Trade>, sale: Trade)
    ensures |ledger| <= |CloseLong(ledger, sale)|
    ensures forall i :: 0 <= i < |ledger| ==> OnlyCloses(ledger[i], CloseLong(ledger, sale)[i])
  {
    var after := Insert(ledger, sale);
    assert forall i :: 0 <= i < |ledger| ==> ledger[i] == after[i];
  }

  lemma CommitRemembers(cfg: Cfg, s: Sys, x: Txn)
    requires Inv(cfg, s) && s.txn == Some(x) && StepTxn(s, x, s.scans[x.pid], Commit).Some?
    ensures Remembers(s.committed, StepTxn(s, x, s.scans[x.pid], Commit).value.committed)
  {
    var scan := s.scans[x.pid];
    CommitShape(cfg, s, x, scan);
    match x.job
    case LogJob => assert Extends(s.committed, x.pending);
    case EntryJob(ev) => EntryRemembers(s.committed, ev, scan.now, scan.lot);
    case ExitJob(o) => ExitRemembers(s.committed, o, scan.now, scan.lot);
  }

  lemma StepRemembers(cfg: Cfg, s: Sys, lbl: Label)
    requires Inv(cfg, s) && Step(cfg, s, lbl).Some?
    ensures Remembers(s.committed, Step(cfg, s, lbl).value.committed)
  {
    if lbl.Commit? { CommitRemembers(cfg, s, s.txn.value); } else { OnlyCommitsPublish(cfg, s, lbl); }
  }

  lemma OnlyCommitsPublish(cfg: Cfg, s: Sys, lbl: Label)
    requires Step(cfg, s, lbl).Some? && !lbl.Commit?
    ensures Step(cfg, s, lbl).value.committed == s.committed
  {
    if !(lbl.StartScan? || lbl.Begin? || lbl.ToExits? || lbl.EndScan?) {
      var x := s.txn.value;
      WritesArePending(s, x, s.scans[x.pid], lbl);
    }
  }

  lemma WritesArePending(s: Sys, x: Txn, scan: Scan, lbl: Label)
    requires StepTxn(s, x, scan, lbl).Some? && !lbl.Commit?
    ensures StepTxn(s, x, scan, lbl).value.committed == s.committed
  {
  }

  lemma RemembersOn(a: Db, b: Db, c: Db)
    requires Remembers(a, b) && Remembers(b, c)
    ensures Remembers(a, c)
  {
    forall i | 0 <= i < |a.ledger| ensures OnlyCloses(a.ledger[i], c.ledger[i]) {
      assert OnlyCloses(a.ledger[i], b.ledger[i]) && OnlyCloses(b.ledger[i], c.ledger[i]);
    }
    forall id | id in a.log ensures id in c.log && OnlyExits(a.log[id], c.log[id]) {
      assert OnlyExits(a.log[id], b.log[id]) && OnlyExits(b.log[id], c.log[id]);
    }
  }

  lemma {:induction false} RunRemembers(cfg: Cfg, s: Sys, run: seq<Label>)
    requires Inv(cfg, s) && RunFrom(cfg, s, run).Some?
    ensures Remembers(s.committed, RunFrom(cfg, s, run).value.committed)
    decreases |run|
  {
    if run != [] {
      var next := Step(cfg, s, run[0]).value;
      StepKeepsInv(cfg, s, run[0]);
      StepRemembers(cfg, s, run[0]);
      RunRemembers(cfg, next, run[1..]);
      RemembersOn(s.committed, next.committed, RunFrom(cfg, next, run[1..]).value.committed);
    }
  }

  /** From any reachable state on, under any interleaving: what was recorded stays, and an exit is final. */
  lemma HistoryIsKept(cfg: Cfg, run: seq<Label>, s: Sys, later: seq<Label>, s': Sys)
    requires Reaches(cfg, run, s) && RunFrom(cfg, s, later) == Some(s')
    ensures Remembers(s.committed, s'.committed)
    ensures forall id :: id in s.committed.log && s.committed.log[id].exit.Some? ==>
      id in s'.committed.log && s'.committed.log[id] == s.committed.log[id]
  {
    assert Inv(cfg, Init);
    RunKeepsInv(cfg, Init, run);
    RunRemembers(cfg, s, later);
    forall id | id in s.committed.log && s.committed.log[id].exit.Some?
      ensures id in s'.committed.log && s'.committed.log[id] == s.committed.log[id]
    {
      assert OnlyExits(s.committed.log[id], s'.committed.log[id]);
    }
  }

  // --- Sales over serialised runs -----------------------------------------------------------

  /** A SELL row belongs to a signal whose log row shows its exit on that date at that price, and sells what the
      signal's purchase bought. */
  ghost predicate SaleMatches(cfg: Cfg, db: Db, t: Trade) {
    && t.notes.ExitOf? && t.notes.signal in db.log
    && (var row := db.log[t.notes.signal];
        && row.filled && row.exit.Some? && t.date == row.exit.value.at.date && SalePriced(t.price, row.exit.value.price)
        && t.role == Gamma(row.contract.optionType) && cfg.resolve(row.contract) == Some(t.key)
        && (forall j :: 0 <= j < |db.ledger| && BuysSignal(db.ledger[j], t.notes.signal) ==>
              db.ledger[j].quantity == t.quantity))
  }

  ghost predicate SalesMatchExits(cfg: Cfg, db: Db) {
    forall i :: 0 <= i < |db.ledger| && db.ledger[i].action == SELL ==> SaleMatches(cfg, db, db.ledger[i])
  }

  ghost predicate OneSalePerSignal(db: Db) {
    forall i, j :: 0 <= i < j < |db.ledger| && db.ledger[i].action == SELL && db.ledger[j].action == SELL
      ==> db.ledger[i].notes != db.ledger[j].notes
  }

  /** The contract of every exited signal was sold on the date of its exit. */
  ghost predicate ExitsWereSold(cfg: Cfg, db: Db) {
    forall id :: id in db.log && db.log[id].exit.Some? ==>
      && cfg.resolve(db.log[id].contract).Some?
      && HasRow(db.ledger, db.log[id].contract.optionType, cfg.resolve(db.log[id].contract).value,
                db.log[id].exit.value.at.date, SELL)
  }

  ghost predicate SalesAgree(cfg: Cfg, db: Db) {
    SalesMatchExits(cfg, db) && OneSalePerSignal(db) && ExitsWereSold(cfg, db)
  }

  lemma RowStays(ledger: seq<Trade>, after: seq<Trade>, t: OptionType, key: Key, date: int, action: Action)
    requires |ledger| <= |after| && forall i :: 0 <= i < |ledger| ==> SameButState(ledger[i], after[i])
    requires HasRow(ledger, t, key, date, action)
    ensures HasRow(after, t, key, date, action)
  {
    var i :| 0 <= i < |ledger| && ledger[i].role == Gamma(t) && ledger[i].key == key && ledger[i].date == date
             && ledger[i].action == action;
    assert SameButState(ledger[i], after[i]);
  }

  /** New log rows without an exit and new purchases of theirs change nothing for the sales. */
  lemma NewRowsKeepSales(cfg: Cfg, db: Db, after: Db)
    requires SalesAgree(cfg, db) && |db.ledger| <= |after.ledger|
    requires forall i :: 0 <= i < |db.ledger| ==> after.ledger[i] == db.ledger[i]
    requires forall i :: |db.ledger| <= i < |after.ledger| ==>
      after.ledger[i].action == BUY && after.ledger[i].notes.EntryOf? && after.ledger[i].notes.signal !in db.log
    requires forall id :: id in db.log ==> id in after.log && after.log[id] == db.log[id]
    requires forall id :: id in after.log && id !in db.log ==> after.log[id].exit.None?
    ensures SalesAgree(cfg, after)
  {
    forall i | 0 <= i < |after.ledger| && after.ledger[i].action == SELL
      ensures SaleMatches(cfg, after, after.ledger[i])
    {
      assert SaleMatches(cfg, db, db.ledger[i]);
    }
    forall id | id in after.log && after.log[id].exit.Some?
      ensures cfg.resolve(after.log[id].contract).Some?
      ensures HasRow(after.ledger, after.log[id].contract.optionType, cfg.resolve(after.log[id].contract).value,
                     after.log[id].exit.value.at.date, SELL)
    {
      assert id in db.log;
      RowStays(db.ledger, after.ledger, db.log[id].contract.optionType, cfg.resolve(db.log[id].contract).value,
               db.log[id].exit.value.at.date, SELL);
    }
  }

  lemma EntryKeepsSaleRows(cfg: Cfg, db: Db, ev: Evaluated, now: Moment, lot: int)
    requires SalesAgree(cfg, db) && IsCandidate(ev) && EntryTx(db, ev, now, lot).Some?
    ensures SalesAgree(cfg, EntryTx(db, ev, now, lot).value)
  {
    EntryShape(db, ev, now, lot);
    NewRowsKeepSales(cfg, db, EntryTx(db, ev, now, lot).value);
  }

  lemma LogKeepsSaleRows(cfg: Cfg, db: Db, after: Db)
    requires SalesAgree(cfg, db) && Extends(db, after)
    ensures SalesAgree(cfg, after)
  {
    NewRowsKeepSales(cfg, db, after);
  }

  /** The exit of an open signal. */
  lemma ExitKeepsSaleRows(cfg: Cfg, db: Db, o: ExitOrder, now: Moment, lot: int)
    requires SalesAgree(cfg, db) && ExitTx(db, o, now, lot).Some? && o.id in OpenIds(db)
    requires o.contract == db.log[o.id].contract && cfg.resolve(o.contract) == Some(o.key) && LotFits(db, {o.id}, lot)
    ensures SalesAgree(cfg, ExitTx(db, o, now, lot).value)
  {
    var after := ExitTx(db, o, now, lot).value;
    ExitSells(db, o, now, lot);
    CloseLongShape(db.ledger, SellTrade(o, now, lot));
    SaleRowsAfterExit(cfg, db, after, o, now, lot);
    ExitsSoldAfterExit(cfg, db, after, o, now, lot);
  }

  lemma SaleRowsAfterExit(cfg: Cfg, db: Db, after: Db, o: ExitOrder, now: Moment, lot: int)
    requires SalesAgree(cfg, db) && o.id in OpenIds(db) && LotFits(db, {o.id}, lot)
    requires o.contract == db.log[o.id].contract && cfg.resolve(o.contract) == Some(o.key)
    requires after.log == db.log[o.id := db.log[o.id].(exit := Some(Exit(o.price, now, o.reason)))]
    requires |db.ledger| <= |after.ledger| <= |db.ledger| + 1
    requires forall i :: 0 <= i < |db.ledger| ==> SameButState(db.ledger[i], after.ledger[i])
    requires |after.ledger| > |db.ledger| ==> IsSaleOf(after.ledger[|db.ledger|], o, now, lot)
    ensures SalesMatchExits(cfg, after) && OneSalePerSignal(after)
  {
    forall i | 0 <= i < |after.ledger| && after.ledger[i].action == SELL
      ensures SaleMatches(cfg, after, after.ledger[i])
      ensures i < |db.ledger| ==> after.ledger[i].notes != ExitOf(o.id)
    {
      if i < |db.ledger| {
        assert SaleMatches(cfg, db, db.ledger[i]) && SameButState(db.ledger[i], after.ledger[i]);
        SameBuyQuantity(db, after, db.ledger[i].notes.signal, after.ledger[i].quantity);
      } else {
        SameBuyQuantity(db, after, o.id, lot);
      }
    }
  }

  lemma SameBuyQuantity(db: Db, after: Db, id: SignalId, quantity: int)
    requires |db.ledger| <= |after.ledger|
    requires forall i :: 0 <= i < |db.ledger| ==> SameButState(db.ledger[i], after.ledger[i])
    requires forall i :: |db.ledger| <= i < |after.ledger| ==> after.ledger[i].action == SELL
    requires forall j :: 0 <= j < |db.ledger| && BuysSignal(db.ledger[j], id) ==> db.ledger[j].quantity == quantity
    ensures forall j :: 0 <= j < |after.ledger| && BuysSignal(after.ledger[j], id) ==>
      after.ledger[j].quantity == quantity
  {
    forall j | 0 <= j < |after.ledger| && BuysSignal(after.ledger[j], id) ensures after.ledger[j].quantity == quantity {
      assert j < |db.ledger| && SameButState(db.ledger[j], after.ledger[j]);
      assert BuysSignal(db.ledger[j], id);
    }
  }

  lemma ExitsSoldAfterExit(cfg: Cfg, db: Db, after: Db, o: ExitOrder, now: Moment, lot: int)
    requires ExitsWereSold(cfg, db) && o.id in db.log
    requires o.contract == db.log[o.id].contract && cfg.resolve(o.contract) == Some(o.key)
    requires after.log == db.log[o.id := db.log[o.id].(exit := Some(Exit(o.price, now, o.reason)))]
    requires |db.ledger| <= |after.ledger| <= |db.ledger| + 1
    requires forall i :: 0 <= i < |db.ledger| ==> SameButState(db.ledger[i], after.ledger[i])
    requires |after.ledger| > |db.ledger| ==> IsSaleOf(after.ledger[|db.ledger|], o, now, lot)
    requires |after.ledger| == |db.ledger| ==> HasRow(db.ledger, o.contract.optionType, o.key, now.date, SELL)
    ensures ExitsWereSold(cfg, after)
  {
    forall id | id in after.log && after.log[id].exit.Some?
      ensures cfg.resolve(after.log[id].contract).Some?
      ensures HasRow(after.ledger, after.log[id].contract.optionType, cfg.resolve(after.log[id].contract).value,
                     after.log[id].exit.value.at.date, SELL)
    {
      if id != o.id {
        RowStays(db.ledger, after.ledger, db.log[id].contract.optionType, cfg.resolve(db.log[id].contract).value,
                 db.log[id].exit.value.at.date, SELL);
      } else if |after.ledger| == |db.ledger| {
        RowStays(db.ledger, after.ledger, o.contract.optionType, o.key, now.date, SELL);
      } else {
        assert after.ledger[|db.ledger|].action == SELL;
      }
    }
  }

  lemma StepKeepsSaleRows(cfg: Cfg, s: Sys, lbl: Label)
    requires cfg.serialised && SerialInv(cfg, s) && SalesAgree(cfg, s.committed) && Step(cfg, s, lbl).Some?
    ensures SalesAgree(cfg, Step(cfg, s, lbl).value.committed)
  {
    if Schedules(lbl) {
      ScheduleShape(cfg, s, lbl);
    } else if lbl != Commit {
      WriteKeepsSerial(cfg, s, lbl);
    } else {
      CommitKeepsSaleRows(cfg, s, s.txn.value);
    }
  }

  lemma CommitKeepsSaleRows(cfg: Cfg, s: Sys, x: Txn)
    requires SerialInv(cfg, s) && SalesAgree(cfg, s.committed) && s.txn == Some(x)
    requires StepTxn(s, x, s.scans[x.pid], Commit).Some?
    ensures SalesAgree(cfg, StepTxn(s, x, s.scans[x.pid], Commit).value.committed)
  {
    var scan := s.scans[x.pid];
    CommitShape(cfg, s, x, scan);
    match x.job
    case LogJob => LogKeepsSaleRows(cfg, s.committed, x.pending);
    case EntryJob(ev) => EntryKeepsSaleRows(cfg, s.committed, ev, scan.now, scan.lot);
    case ExitJob(o) =>
      OrderFits(cfg, s, x);
      ExitKeepsSaleRows(cfg, s.committed, o, scan.now, scan.lot);
  }

  lemma {:induction false} RunKeepsSaleRows(cfg: Cfg, s: Sys, run: seq<Label>)
    requires cfg.serialised && SerialInv(cfg, s) && SalesAgree(cfg, s.committed) && RunFrom(cfg, s, run).Some?
    ensures SalesAgree(cfg, RunFrom(cfg, s, run).value.committed)
    decreases |run|
  {
    if run != [] {
      StepKeepsSerial(cfg, s, run[0]);
      StepKeepsSaleRows(cfg, s, run[0]);
      RunKeepsSaleRows(cfg, Step(cfg, s, run[0]).value, run[1..]);
    }
  }

  /** Over every serialised run: each SELL row is the one sale of an exited signal, on the date of its exit, at its exit
      price or one tick, of what was bought; and the contract of each exited signal was sold on that date. */
  lemma SalesAgreeWithExits(cfg: Cfg, run: seq<Label>, s: Sys)
    requires cfg.serialised && Reaches(cfg, run, s)
    ensures SalesMatchExits(cfg, s.committed) && OneSalePerSignal(s.committed) && ExitsWereSold(cfg, s.committed)
  {
    InitIsSerial(cfg);
    RunKeepsSaleRows(cfg, Init, run);
  }
}
