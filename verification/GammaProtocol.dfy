/** Scan processes as micro-steps over one database with one write lock. Any
    number of processes interleave, any transaction may be aborted and any
    process may die between two steps. A run is a list of labels; a label that
    is not enabled ends the run. */
module GammaProtocol {
  import opened Wrappers
  import opened PaperLedger
  import opened GammaTables
  import opened GammaAgreement
  import opened GammaLegs

  type Pid = nat

  /** `serialised` says that scans only run under the process lock. */
  datatype Cfg = Cfg(resolve: Resolver, serialised: bool)

  datatype Job = LogJob | EntryJob(ev: Evaluated) | ExitJob(order: ExitOrder)
  datatype Phase = Begun | Checked(clear: bool) | Traded(filled: bool) | Logged
  datatype Txn = Txn(pid: Pid, job: Job, pending: Db, phase: Phase)

  datatype Stage = Entering | Exiting(todo: set<SignalId>)

  /** A running scan: `positions` is the list of open positions it read at its start;
      `entered` and `exited` record the entries and exits it has committed. */
  datatype Scan = Scan(now: Moment, lot: int, positions: set<SignalId>, stage: Stage,
                       entered: set<SignalId>, exited: set<SignalId>)

  datatype Sale = Sale(optionType: OptionType, key: Key, date: int)

  /** `sold` counts the committed exits of each contract on each date. */
  datatype Sys = Sys(committed: Db, txn: Option<Txn>, scans: map<Pid, Scan>, sold: multiset<Sale>)

  datatype Label =
    | StartScan(pid: Pid, now: Moment, lot: int)
    | Begin(pid: Pid, job: Job)
    | Check
    | WriteLedger
    | WriteLog
    | AddRow(id: SignalId, row: LogRow)
    | Commit
    | Abort
    | ToExits(pid: Pid)
    | EndScan(pid: Pid)   // finished or killed: the lock and the transaction go with it

  const Init: Sys := Sys(Db([], map[]), None, map[], multiset{})

  /** The lot size stays what it was when each open position was bought. */
  ghost predicate LotFits(db: Db, ids: set<SignalId>, lot: int) {
    forall id, i :: id in ids && 0 <= i < |db.ledger| && BuysSignal(db.ledger[i], id) ==> db.ledger[i].quantity == lot
  }

  predicate Allowed(cfg: Cfg, s: Sys, scan: Scan, job: Job) {
    match job
    case LogJob => true
    case EntryJob(ev) => scan.stage.Entering? && IsCandidate(ev) && ev.key == cfg.resolve(ev.row.contract)
    case ExitJob(o) =>
      && scan.stage.Exiting? && o.id in scan.stage.todo
      && o.id in s.committed.log && o.contract == s.committed.log[o.id].contract
      && cfg.resolve(o.contract) == Some(o.key)
  }

  function StepTxn(s: Sys, x: Txn, scan: Scan, lbl: Label): Option<Sys> {
    match (lbl, x.job, x.phase)
    case (Check, EntryJob(ev), Begun) =>
      Some(s.(txn := Some(x.(phase := Checked(Clear(x.pending, ev.row.contract.optionType))))))
    case (WriteLedger, EntryJob(ev), Checked(true)) =>
      var buy := BuyTrade(ev, scan.now, scan.lot);
      if !buy.Valid() then None
      else Some(s.(txn := Some(x.(pending := x.pending.(ledger := Insert(x.pending.ledger, buy)),
                                  phase := Traded(!Conflicts(x.pending.ledger, buy))))))
    case (WriteLedger, ExitJob(o), Begun) =>
      var sell := SellTrade(o, scan.now, scan.lot);
      if !sell.Valid() then None
      else Some(s.(txn := Some(x.(pending := x.pending.(ledger := CloseLong(x.pending.ledger, sell)),
                                  phase := Traded(true)))))
    case (WriteLog, EntryJob(ev), Checked(false)) => LogStep(s, x, ev.id, RefusedRow(ev))
    case (WriteLog, EntryJob(ev), Traded(filled)) => LogStep(s, x, ev.id, AttemptedRow(ev, scan.now, filled))
    case (WriteLog, ExitJob(o), Traded(_)) =>
      var exit := Exit(o.price, scan.now, o.reason);
      Some(s.(txn := Some(x.(pending := x.pending.(log := WithExit(x.pending.log, o.id, exit)),
                             phase := Logged))))
    case (AddRow(id, row), LogJob, Begun) =>
      if id in x.pending.log || !row.Unfilled() then None
      else Some(s.(txn := Some(x.(pending := x.pending.(log := x.pending.log[id := row])))))
    case (Commit, LogJob, Begun) => Some(s.(committed := x.pending, txn := None))
    case (Commit, EntryJob(ev), Logged) =>
      Some(s.(committed := x.pending, txn := None,
              scans := s.scans[x.pid := scan.(entered := scan.entered + Fills(x.pending, ev.id))]))
    case (Commit, ExitJob(o), Logged) =>
      Some(s.(committed := x.pending, txn := None,
              scans := s.scans[x.pid := scan.(exited := scan.exited + {o.id})],
              sold := s.sold + multiset{Sale(o.contract.optionType, o.key, scan.now.date)}))
    case (Abort, _, _) => Some(s.(txn := None))
    case _ => None
  }

  function Fills(db: Db, id: SignalId): set<SignalId> {
    if id in db.log && db.log[id].filled then {id} else {}
  }

  function LogStep(s: Sys, x: Txn, id: SignalId, row: LogRow): Option<Sys> {
    if id in x.pending.log then None
    else Some(s.(txn := Some(x.(pending := x.pending.(log := x.pending.log[id := row]), phase := Logged))))
  }

  ghost function Step(cfg: Cfg, s: Sys, lbl: Label): Option<Sys> {
    match lbl
    case StartScan(pid, now, lot) =>
      if pid in s.scans || (cfg.serialised && (s.scans != map[] || !LotFits(s.committed, OpenIds(s.committed), lot)))
      then None
      else Some(s.(scans := s.scans[pid := Scan(now, lot, OpenIds(s.committed), Entering, {}, {})]))
    case Begin(pid, job) =>
      if s.txn.Some? || pid !in s.scans || !Allowed(cfg, s, s.scans[pid], job) then None
      else Some(s.(txn := Some(Txn(pid, job, s.committed, Begun)),
                   scans := s.scans[pid := AfterBegin(s.scans[pid], job)]))
    case ToExits(pid) =>
      if pid !in s.scans || !s.scans[pid].stage.Entering? || (s.txn.Some? && s.txn.value.pid == pid) then None
      else Some(s.(scans := s.scans[pid := s.scans[pid].(stage := Exiting(s.scans[pid].positions))]))
    case EndScan(pid) =>
      if pid !in s.scans then None
      else Some(s.(scans := s.scans - {pid},
                   txn := if s.txn.Some? && s.txn.value.pid == pid then None else s.txn))
    case _ =>
      if s.txn.None? || s.txn.value.pid !in s.scans then None
      else StepTxn(s, s.txn.value, s.scans[s.txn.value.pid], lbl)
  }

  /** Each open position is exited at most once per scan. */
  function AfterBegin(scan: Scan, job: Job): Scan {
    if job.ExitJob? && scan.stage.Exiting? then scan.(stage := Exiting(scan.stage.todo - {job.order.id})) else scan
  }

  ghost function RunFrom(cfg: Cfg, s: Sys, run: seq<Label>): Option<Sys>
    decreases |run|
  {
    if run == [] then Some(s)
    else match Step(cfg, s, run[0])
      case None => None
      case Some(next) => RunFrom(cfg, next, run[1..])
  }

  ghost predicate Reaches(cfg: Cfg, run: seq<Label>, s: Sys) { RunFrom(cfg, Init, run) == Some(s) }

  // ---------------------------------------------------------------------------
  // What holds under any interleaving

  ghost predicate TxnOk(cfg: Cfg, db: Db, x: Txn, scan: Scan) {
    match x.job
    case LogJob => x.phase.Begun? && Extends(db, x.pending)
    case EntryJob(ev) =>
      var t := ev.row.contract.optionType;
      var buy := BuyTrade(ev, scan.now, scan.lot);
      && scan.stage.Entering? && IsCandidate(ev) && ev.key == cfg.resolve(ev.row.contract)
      && (match x.phase
          case Begun => x.pending == db
          case Checked(clear) => x.pending == db && clear == Clear(db, t)
          case Traded(filled) =>
            && Clear(db, t) && buy.Valid() && filled == !Conflicts(db.ledger, buy)
            && x.pending == db.(ledger := Insert(db.ledger, buy))
          case Logged => EntryTx(db, ev, scan.now, scan.lot) == Some(x.pending))
    case ExitJob(o) =>
      var sell := SellTrade(o, scan.now, scan.lot);
      && scan.stage.Exiting? && o.id in scan.positions && o.id !in scan.stage.todo
      && o.id in db.log && o.contract == db.log[o.id].contract && cfg.resolve(o.contract) == Some(o.key)
      && (match x.phase
          case Begun => x.pending == db
          case Checked(_) => false
          case Traded(_) => sell.Valid() && x.pending == db.(ledger := CloseLong(db.ledger, sell))
          case Logged => ExitTx(db, o, scan.now, scan.lot) == Some(x.pending))
  }

  ghost predicate ScanOk(db: Db, scan: Scan) {
    && (forall id :: id in scan.positions ==> id in db.log && db.log[id].filled)
    && (forall id :: id in scan.entered ==> id in db.log && db.log[id].filled)
    && scan.entered !! scan.positions && scan.exited <= scan.positions
    && (scan.stage.Exiting? ==> scan.stage.todo <= scan.positions)
  }

  ghost predicate Inv(cfg: Cfg, s: Sys) {
    && Agreed(s.committed)
    && (forall p :: p in s.scans ==> ScanOk(s.committed, s.scans[p]))
    && (s.txn.Some? ==> s.txn.value.pid in s.scans
                        && TxnOk(cfg, s.committed, s.txn.value, s.scans[s.txn.value.pid]))
  }

  ghost predicate KeepsRows(before: Db, after: Db) {
    forall id :: id in before.log ==>
      && id in after.log && after.log[id].filled == before.log[id].filled
      && after.log[id].contract == before.log[id].contract
  }

  lemma EntryKeepsRows(db: Db, ev: Evaluated, now: Moment, lot: int)
    requires EntryTx(db, ev, now, lot).Some?
    ensures KeepsRows(db, EntryTx(db, ev, now, lot).value)
  {
    EntryShape(db, ev, now, lot);
  }

  lemma ExitKeepsRows(db: Db, o: ExitOrder, now: Moment, lot: int)
    requires ExitTx(db, o, now, lot).Some?
    ensures KeepsRows(db, ExitTx(db, o, now, lot).value)
  {
  }

  /** Every log row that was filled stays filled, whatever a transaction commits. */
  lemma CommitKeepsRows(cfg: Cfg, db: Db, x: Txn, scan: Scan)
    requires Agreed(db) && ScanOk(db, scan) && TxnOk(cfg, db, x, scan) && (x.phase.Logged? || x.job.LogJob?)
    ensures Agreed(x.pending)
    ensures KeepsRows(db, x.pending)
  {
    match x.job
    case LogJob => ExtendsKeepsAgreement(db, x.pending);
    case EntryJob(ev) =>
      EntryKeepsRows(db, ev, scan.now, scan.lot);
      EntryKeepsAgreement(db, ev, scan.now, scan.lot);
    case ExitJob(o) =>
      ExitKeepsRows(db, o, scan.now, scan.lot);
      ExitKeepsAgreement(db, o, scan.now, scan.lot);
  }

  /** The transaction a micro-step short of the commit leaves behind. */
  lemma WriteKeepsTxnOk(cfg: Cfg, s: Sys, x: Txn, scan: Scan, lbl: Label)
    requires TxnOk(cfg, s.committed, x, scan) && lbl != Commit
    requires StepTxn(s, x, scan, lbl).Some?
    ensures var s' := StepTxn(s, x, scan, lbl).value;
      && s'.committed == s.committed && s'.scans == s.scans && s'.sold == s.sold
      && (s'.txn.Some? ==> s'.txn.value.pid == x.pid && s'.txn.value.job == x.job
                           && TxnOk(cfg, s.committed, s'.txn.value, scan))
  {
    match x.job
    case LogJob =>
    case EntryJob(ev) =>
    case ExitJob(o) =>
  }

  /** What a commit publishes. */
  lemma CommitShape(cfg: Cfg, s: Sys, x: Txn, scan: Scan)
    requires TxnOk(cfg, s.committed, x, scan) && StepTxn(s, x, scan, Commit).Some?
    ensures x.phase.Logged? || x.job.LogJob?
    ensures StepTxn(s, x, scan, Commit).value == Sys(x.pending, None,
      match x.job
      case LogJob => s.scans
      case EntryJob(ev) => s.scans[x.pid := scan.(entered := scan.entered + Fills(x.pending, ev.id))]
      case ExitJob(o) => s.scans[x.pid := scan.(exited := scan.exited + {o.id})],
      if x.job.ExitJob?
      then s.sold + multiset{Sale(x.job.order.contract.optionType, x.job.order.key, scan.now.date)}
      else s.sold)
  {
    match x.job
    case LogJob =>
    case EntryJob(ev) =>
    case ExitJob(o) =>
  }

  lemma RowsKeptKeepScan(before: Db, after: Db, scan: Scan)
    requires ScanOk(before, scan) && KeepsRows(before, after)
    ensures ScanOk(after, scan)
  {
  }

  /** The scan that commits counts its own new entry or exit. */
  lemma OwnScanKept(cfg: Cfg, db: Db, x: Txn, scan: Scan)
    requires ScanOk(db, scan) && ScanOk(x.pending, scan) && TxnOk(cfg, db, x, scan) && x.phase.Logged?
    ensures x.job.EntryJob? ==> ScanOk(x.pending, scan.(entered := scan.entered + Fills(x.pending, x.job.ev.id)))
    ensures x.job.ExitJob? ==> ScanOk(x.pending, scan.(exited := scan.exited + {x.job.order.id}))
  {
    if x.job.EntryJob? {
      assert x.job.ev.id !in db.log;
    }
  }

  lemma CommitKeepsScans(cfg: Cfg, s: Sys, x: Txn)
    requires Inv(cfg, s) && s.txn == Some(x) && StepTxn(s, x, s.scans[x.pid], Commit).Some?
    ensures Inv(cfg, StepTxn(s, x, s.scans[x.pid], Commit).value)
  {
    var scan := s.scans[x.pid];
    var s' := StepTxn(s, x, scan, Commit).value;
    CommitShape(cfg, s, x, scan);
    CommitKeepsRows(cfg, s.committed, x, scan);
    RowsKeptKeepScan(s.committed, x.pending, scan);
    if x.phase.Logged? { OwnScanKept(cfg, s.committed, x, scan); }
    forall p | p in s'.scans ensures ScanOk(s'.committed, s'.scans[p]) {
      if p != x.pid { RowsKeptKeepScan(s.committed, x.pending, s.scans[p]); }
    }
  }

  lemma BeginKeepsInv(cfg: Cfg, s: Sys, pid: Pid, job: Job)
    requires Inv(cfg, s) && Step(cfg, s, Begin(pid, job)).Some?
    ensures Inv(cfg, Step(cfg, s, Begin(pid, job)).value)
  {
    var s' := Step(cfg, s, Begin(pid, job)).value;
    forall p | p in s'.scans ensures ScanOk(s'.committed, s'.scans[p]) {
      assert ScanOk(s.committed, s.scans[p]);
    }
    assert TxnOk(cfg, s.committed, s'.txn.value, s'.scans[pid]);
  }

  lemma StartKeepsInv(cfg: Cfg, s: Sys, lbl: Label)
    requires Inv(cfg, s) && lbl.StartScan? && Step(cfg, s, lbl).Some?
    ensures Inv(cfg, Step(cfg, s, lbl).value)
  {
  }

  lemma StageKeepsInv(cfg: Cfg, s: Sys, lbl: Label)
    requires Inv(cfg, s) && (lbl.ToExits? || lbl.EndScan?) && Step(cfg, s, lbl).Some?
    ensures Inv(cfg, Step(cfg, s, lbl).value)
  {
    var s' := Step(cfg, s, lbl).value;
    forall p | p in s'.scans ensures ScanOk(s'.committed, s'.scans[p]) {
      assert ScanOk(s.committed, s.scans[p]);
    }
  }

  lemma WriteKeepsInv(cfg: Cfg, s: Sys, lbl: Label)
    requires Inv(cfg, s) && s.txn.Some? && lbl != Commit
    requires StepTxn(s, s.txn.value, s.scans[s.txn.value.pid], lbl).Some?
    ensures Inv(cfg, StepTxn(s, s.txn.value, s.scans[s.txn.value.pid], lbl).value)
  {
    WriteKeepsTxnOk(cfg, s, s.txn.value, s.scans[s.txn.value.pid], lbl);
  }

  /** Every micro-step of every process keeps ledger and log in agreement. */
  lemma StepKeepsInv(cfg: Cfg, s: Sys, lbl: Label)
    requires Inv(cfg, s) && Step(cfg, s, lbl).Some?
    ensures Inv(cfg, Step(cfg, s, lbl).value)
  {
    match lbl
    case StartScan(pid, now, lot) => StartKeepsInv(cfg, s, lbl);
    case Begin(pid, job) => BeginKeepsInv(cfg, s, pid, job);
    case ToExits(pid) => StageKeepsInv(cfg, s, lbl);
    case EndScan(pid) => StageKeepsInv(cfg, s, lbl);
    case Commit => CommitKeepsScans(cfg, s, s.txn.value);
    case _ => WriteKeepsInv(cfg, s, lbl);
  }

  lemma {:induction false} RunKeepsInv(cfg: Cfg, s: Sys, run: seq<Label>)
    requires Inv(cfg, s) && RunFrom(cfg, s, run).Some?
    ensures Inv(cfg, RunFrom(cfg, s, run).value)
    decreases |run|
  {
    if run != [] {
      StepKeepsInv(cfg, s, run[0]);
      RunKeepsInv(cfg, Step(cfg, s, run[0]).value, run[1..]);
    }
  }

  /** Under any interleaving of any number of scans, with aborts and deaths anywhere and
      arbitrarily stale candidates, no committed state has two open positions of one type. */
  lemma NeverTwoOpenOfOneType(cfg: Cfg, run: seq<Label>, s: Sys, a: SignalId, b: SignalId)
    requires Reaches(cfg, run, s)
    requires a in s.committed.log && s.committed.log[a].Open()
    requires b in s.committed.log && s.committed.log[b].Open()
    requires s.committed.log[a].contract.optionType == s.committed.log[b].contract.optionType
    ensures a == b
  {
    RunKeepsInv(cfg, Init, run);
  }

  /** In every reachable state the two tables agree on every fill. */
  lemma LedgerAndLogAgree(cfg: Cfg, run: seq<Label>, s: Sys, id: SignalId)
    requires Reaches(cfg, run, s) && id in s.committed.log
    ensures s.committed.log[id].filled <==> Bought(s.committed, id)
    ensures s.committed.log[id].filled <==> s.committed.log[id].fillPrice.Some?
    ensures s.committed.log[id].filled <==> s.committed.log[id].fillTime.Some?
    ensures s.committed.log[id].triggered
      ==> (s.committed.log[id].filled <==> s.committed.log[id].unfilled.None?)
    ensures s.committed.log[id].filled ==> (exists i :: TheBuyOf(s.committed, id, i))
  {
    RunKeepsInv(cfg, Init, run);
    FilledIffBought(s.committed, id);
  }

  /** A scan never exits a position it opened, serialised or not. */
  lemma ScanNeverExitsItsEntries(cfg: Cfg, run: seq<Label>, s: Sys, p: Pid)
    requires Reaches(cfg, run, s) && p in s.scans
    ensures s.scans[p].entered !! s.scans[p].exited
  {
    RunKeepsInv(cfg, Init, run);
    assert ScanOk(s.committed, s.scans[p]);
  }
}
