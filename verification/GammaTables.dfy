/** The two tables the gamma scan keeps in agreement, and what each of its
    transactions makes of a committed state. A `None` result is a transaction
    that raises and is rolled back. */
module GammaTables {
  import opened Wrappers
  import opened PaperLedger

  datatype Contract = Contract(expiry: int, strike: int, optionType: OptionType)
  datatype Moment = Moment(date: int, time: int)

  datatype UnfilledReason =
    | FilterFailed(reason: string)
    | NotTopRanked
    | DryRun
    | EntryWindowClosed
    | OpenPositionSameDirection
    | DuplicateTrade
    | EntryError

  datatype Exit = Exit(price: Option<real>, at: Moment, reason: string)

  datatype LogRow = LogRow(contract: Contract, bestAsk: real, triggered: bool,
                           attempted: bool, filled: bool,
                           fillPrice: Option<real>, fillTime: Option<Moment>,
                           unfilled: Option<UnfilledReason>, exit: Option<Exit>)
  {
    predicate Open() { filled && exit.None? }

    /** A row written without a fill: nothing bought, and a triggered row says why. */
    predicate Unfilled() {
      !filled && fillPrice.None? && fillTime.None? && exit.None? && (triggered ==> unfilled.Some?)
    }
  }

  /** The committed or pending content of the database. `log` has the primary key signal_id. */
  datatype Db = Db(ledger: seq<Trade>, log: map<SignalId, LogRow>)

  /** One evaluated strike of a scan, with the instrument key its contract resolves to. */
  datatype Evaluated = Evaluated(id: SignalId, row: LogRow, key: Option<Key>)

  datatype ExitOrder = ExitOrder(id: SignalId, contract: Contract, key: Key,
                                 price: Option<real>, reason: string)

  // NSE tick: the ledger rejects a price <= 0.
  const MIN_LEDGER_PRICE: real := 0.05

  function Leg(db: Db, id: SignalId): LegRole
    requires id in db.log
  {
    Gamma(db.log[id].contract.optionType)
  }

  predicate HasOpen(db: Db, t: OptionType) {
    exists id :: id in db.log && db.log[id].Open() && db.log[id].contract.optionType == t
  }

  function OpenIds(db: Db): set<SignalId> {
    set id | id in db.log && db.log[id].Open()
  }

  /** The check an entry makes under the write lock. */
  predicate Clear(db: Db, t: OptionType) {
    !HasOpen(db, t) && Net(db.ledger, Gamma(t)) == 0
  }

  function BuyTrade(ev: Evaluated, now: Moment, lot: int): Trade {
    Trade(Gamma(ev.row.contract.optionType), if ev.key.Some? then ev.key.value else "", now.date, BUY, lot,
          ev.row.bestAsk, EntryOf(ev.id), OPEN)
  }

  function RefusedRow(ev: Evaluated): LogRow { ev.row.(unfilled := Some(OpenPositionSameDirection)) }

  function AttemptedRow(ev: Evaluated, now: Moment, filled: bool): LogRow {
    ev.row.(attempted := true, filled := filled,
            fillPrice := if filled then Some(ev.row.bestAsk) else None,
            fillTime := if filled then Some(now) else None,
            unfilled := if filled then None else Some(DuplicateTrade))
  }

  /** What an entry transaction commits, or None when it raises on its own. */
  function EntryTx(db: Db, ev: Evaluated, now: Moment, lot: int): Option<Db> {
    var buy := BuyTrade(ev, now, lot);
    if ev.id in db.log then None
    else if !Clear(db, ev.row.contract.optionType) then
      Some(db.(log := db.log[ev.id := RefusedRow(ev)]))
    else if !buy.Valid() then None
    else
      Some(Db(Insert(db.ledger, buy), db.log[ev.id := AttemptedRow(ev, now, !Conflicts(db.ledger, buy))]))
  }

  function SellTrade(o: ExitOrder, now: Moment, lot: int): Trade {
    Trade(Gamma(o.contract.optionType), o.key, now.date, SELL, lot,
          if o.price.Some? && o.price.value > 0.0 then o.price.value else MIN_LEDGER_PRICE,
          ExitOf(o.id), OPEN)
  }

  /** PaperLedgerAdapter.close_long: insert, then close the contract's rows once its leg nets to 0. */
  function CloseLong(ledger: seq<Trade>, t: Trade): seq<Trade> {
    var after := Insert(ledger, t);
    if Net(after, t.role) == 0 then MarkClosed(after, t.role, t.key) else after
  }

  /** update_signal_exit: only an unexited row is changed. */
  function WithExit(log: map<SignalId, LogRow>, id: SignalId, e: Exit): map<SignalId, LogRow> {
    if id in log && log[id].exit.None? then log[id := log[id].(exit := Some(e))] else log
  }

  function ExitTx(db: Db, o: ExitOrder, now: Moment, lot: int): Option<Db> {
    var sell := SellTrade(o, now, lot);
    if !sell.Valid() then None
    else Some(Db(CloseLong(db.ledger, sell), WithExit(db.log, o.id, Exit(o.price, now, o.reason))))
  }

  /** An INSERT into the signal log: a duplicate primary key raises. */
  function LogTx(db: Db, id: SignalId, row: LogRow): Option<Db> {
    if id in db.log then None else Some(db.(log := db.log[id := row]))
  }
}
