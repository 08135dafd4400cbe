/** One scan's work on its connection: the entry and exit transactions, the
    audit row of a failed entry, and the loops that drive them. Where an
    exception may be raised, a fault parameter says whether and where it is. */
module GammaScan {
  import opened Wrappers
  import opened PaperLedger
  import opened GammaTables
  import opened GammaAgreement

  datatype Point = AtBegin | AtCheck | AtLedger | AtLog | AtCommit

  /** A fatal fault is one the scan's own handlers do not catch. */
  datatype Fault = NoFault | Raises(at: Point, fatal: bool)

  predicate Hits(fault: Fault, at: Point) { fault.Raises? && fault.at == at }

  datatype Outcome = Filled | NotFilled | Raised(fatal: bool)

  datatype Fate = Recorded(filled: bool) | ErrorLogged | ErrorLost

  datatype EntriesResult = Aborted | Done(entered: nat, fates: map<OptionType, Fate>)

  // 14:30 IST; moments carry microseconds since midnight.
  const LAST_ENTRY: int := 52_200_000_000

  class Connection {
    var committed: Db
    var pending: Db
    var inTransaction: bool

    constructor (db: Db)
      ensures committed == db && !inTransaction
    {
      committed, pending, inTransaction := db, db, false;
    }

    method BeginImmediate()
      requires !inTransaction
      modifies this
      ensures inTransaction && pending == committed == old(committed)
    {
      pending, inTransaction := committed, true;
    }

    method Commit()
      modifies this
      ensures !inTransaction && committed == pending == old(pending)
    {
      committed, inTransaction := pending, false;
    }

    method Rollback()
      modifies this
      ensures !inTransaction && committed == pending == old(committed)
    {
      pending, inTransaction := committed, false;
    }

    method OpenLong(t: Trade) returns (inserted: bool)
      modifies this`pending
      ensures inserted == !Conflicts(old(pending).ledger, t)
      ensures pending == old(pending).(ledger := Insert(old(pending).ledger, t))
    {
      inserted := !Conflicts(pending.ledger, t);
      if inserted {
        pending := pending.(ledger := pending.ledger + [t]);
      }
    }

    method CloseLongTrade(t: Trade) returns (inserted: bool)
      modifies this`pending
      ensures inserted == !Conflicts(old(pending).ledger, t)
      ensures pending == old(pending).(ledger := CloseLong(old(pending).ledger, t))
    {
      inserted := OpenLong(t);
      if Net(pending.ledger, t.role) == 0 {
        pending := pending.(ledger := MarkClosed(pending.ledger, t.role, t.key));
      }
    }

    /** False stands for the IntegrityError of a duplicate signal_id. */
    method InsertSignalLog(id: SignalId, row: LogRow) returns (ok: bool)
      modifies this`pending
      ensures ok <==> LogTx(old(pending), id, row).Some?
      ensures pending == if ok then LogTx(old(pending), id, row).value else old(pending)
    {
      ok := id !in pending.log;
      if ok {
        pending := pending.(log := pending.log[id := row]);
      }
    }

    method AtomicEntry(ev: Evaluated, now: Moment, lot: int, fault: Fault) returns (o: Outcome)
      requires !inTransaction && !ev.row.filled
      modifies this
      ensures !inTransaction
      ensures o.Raised? ==> committed == old(committed)
      ensures !o.Raised? ==> EntryTx(old(committed), ev, now, lot) == Some(committed)
      ensures !o.Raised? ==> (o.Filled? <==> committed.log[ev.id].filled)
      ensures fault.NoFault? ==> (o.Raised? <==> EntryTx(old(committed), ev, now, lot).None?)
      ensures o == Raised(true) ==> fault.Raises? && fault.fatal
    {
      if Hits(fault, AtBegin) { return Raised(fault.fatal); }
      BeginImmediate();
      if Hits(fault, AtCheck) { Rollback(); return Raised(fault.fatal); }
      var t := ev.row.contract.optionType;
      var final: LogRow;
      var filled := false;
      if HasOpen(pending, t) || Net(pending.ledger, Gamma(t)) != 0 {
        final := RefusedRow(ev);
      } else {
        var trade := BuyTrade(ev, now, lot);
        if !trade.Valid() { Rollback(); return Raised(false); }
        if Hits(fault, AtLedger) { Rollback(); return Raised(fault.fatal); }
        filled := OpenLong(trade);
        final := AttemptedRow(ev, now, filled);
      }
      if Hits(fault, AtLog) { Rollback(); return Raised(fault.fatal); }
      var ok := InsertSignalLog(ev.id, final);
      if !ok { Rollback(); return Raised(false); }
      if Hits(fault, AtCommit) { Rollback(); return Raised(fault.fatal); }
      Commit();
      return if filled then Filled else NotFilled;
    }

    method AtomicExit(o: ExitOrder, now: Moment, lot: int, fault: Fault) returns (done: Option<bool>)
      requires !inTransaction
      modifies this
      ensures !inTransaction
      ensures done.None? ==> committed == old(committed)
      ensures done.Some? ==> ExitTx(old(committed), o, now, lot) == Some(committed)
      ensures done == Some(true) <==> done.Some? && o.id in old(committed).log && old(committed).log[o.id].exit.None?
      ensures done.Some? <==> Exits(Some(o), lot, fault)
    {
      if Hits(fault, AtBegin) { return None; }
      BeginImmediate();
      var trade := SellTrade(o, now, lot);
      if !trade.Valid() || Hits(fault, AtLedger) { Rollback(); return None; }
      var _ := CloseLongTrade(trade);   // the result is not looked at
      if Hits(fault, AtLog) { Rollback(); return None; }
      var updated := o.id in pending.log && pending.log[o.id].exit.None?;
      pending := pending.(log := WithExit(pending.log, o.id, Exit(o.price, now, o.reason)));
      if Hits(fault, AtCommit) { Rollback(); return None; }
      Commit();
      return Some(updated);
    }

    /** The rows of the strikes that are not `skip`ped, in one transaction; a signal id that is in the log, or
        comes twice, raises and leaves nothing. */
    method RecordRows(evals: array<Evaluated>, skip: set<SignalId>, raises: bool) returns (ok: bool)
      requires !inTransaction
      modifies this
      ensures !inTransaction && committed.ledger == old(committed).ledger
      ensures ok <==> !raises && NewRows(old(committed).log, evals[..], skip)
      ensures !ok ==> committed == old(committed)
      ensures ok ==> committed.log == WithRows(old(committed).log, evals[..], skip)
    {
      BeginImmediate();
      for i := 0 to evals.Length
        invariant inTransaction && committed == old(committed) && pending.ledger == committed.ledger
        invariant NewRows(committed.log, evals[..i], skip)
        invariant pending.log == WithRows(committed.log, evals[..i], skip)
      {
        assert evals[..i + 1][..i] == evals[..i];
        if evals[i].id !in skip {
          var inserted := InsertSignalLog(evals[i].id, evals[i].row);
          if !inserted {
            OldRowRejects(committed.log, evals[..], skip, i);
            Rollback();
            return false;
          }
        }
      }
      assert evals[..evals.Length] == evals[..];
      if raises { Rollback(); return false; }
      Commit();
      return true;
    }

    /** Best-effort audit row of a failed entry. */
    method LogEntryError(ev: Evaluated, raises: bool) returns (logged: bool)
      requires !inTransaction
      modifies this
      ensures !inTransaction
      ensures logged <==> !raises && ev.id !in old(committed).log
      ensures committed == if logged then LogTx(old(committed), ev.id, ErrorRow(ev.row)).value else old(committed)
    {
      BeginImmediate();
      var ok := InsertSignalLog(ev.id, ErrorRow(ev.row));
      if !ok || raises { Rollback(); return false; }
      Commit();
      return true;
    }

    /** One chosen strike: its entry transaction and, if that raises, its audit row. None is an
        exception that leaves the scan. */
    method EnterOne(ev: Evaluated, now: Moment, lot: int, fault: Fault, auditRaises: bool)
      returns (fate: Option<Fate>)
      requires !inTransaction && Agreed(committed) && IsCandidate(ev) && ev.id !in committed.log
      modifies this
      ensures !inTransaction && Agreed(committed)
      ensures fate.None? ==> fault.Raises? && fault.fatal && committed == old(committed)
      ensures fate.Some? && fate.value.ErrorLost? ==> auditRaises
      ensures fate.Some? ==> FateShown(old(committed), committed, ev, now, fate.value)
    {
      var o := AtomicEntry(ev, now, lot, fault);
      if o.Raised? {
        if o.fatal { return None; }
        var logged := LogEntryError(ev, auditRaises);
        if logged { LogKeepsAgreement(old(committed), ev.id, ErrorRow(ev.row)); }
        return Some(if logged then ErrorLogged else ErrorLost);
      }
      EntryKeepsAgreement(old(committed), ev, now, lot);
      return Some(Recorded(o.Filled?));
    }

    /** Rows first, then one entry transaction per chosen direction. Aborted is an exception that
        leaves the scan. */
    method RunEntries(evals: array<Evaluated>, ranked: seq<nat>, now: Moment, lot: int, dryRun: bool,
                      recordRaises: bool, faults: OptionType -> Fault, auditRaises: OptionType -> bool)
      returns (r: EntriesResult)
      requires !inTransaction && Agreed(committed)
      requires Distinct(evals[..]) && Fresh(committed, evals[..]) && IsRanking(evals[..], ranked)
      requires forall i :: 0 <= i < evals.Length ==> Built(evals[i].row)
      modifies this, evals
      ensures !inTransaction && Agreed(committed)
      ensures r.Aborted? && recordRaises ==> committed == old(committed)
      ensures r.Aborted? && !recordRaises ==>
        Blocked(dryRun, now).None? &&
        StoppedAtFatal(old(committed), committed, old(evals[..]), ranked, now, faults, auditRaises)
      ensures r.Done? ==>
        !recordRaises &&
        RowsAccounted(old(committed), committed, old(evals[..]), ranked, now, Blocked(dryRun, now), r.fates)
      ensures r.Done? ==> r.entered == |FilledTypes(r.fates)|
      ensures r.Done? ==> forall t :: t in r.fates && r.fates[t].ErrorLost? ==> auditRaises(t)
    {
      ghost var before, built := committed, evals[..];
      var blocked := Blocked(dryRun, now);
      var ok, chosen, order := RecordOthers(evals, ranked, blocked, recordRaises);
      if !ok { return Aborted; }
      FirstRowsAccounted(before, committed, built, evals[..], ranked, now, blocked, SkippedIds(built, chosen, blocked));
      if blocked.Some? { return Done(0, map[]); }
      r := EnterChosen(evals, chosen, order, now, lot, faults, auditRaises, before, built, ranked);
    }

    /** Choose, mark the other triggered rows, and write every row but the chosen ones. */
    method RecordOthers(evals: array<Evaluated>, ranked: seq<nat>, blocked: Option<UnfilledReason>, recordRaises: bool)
      returns (ok: bool, chosen: map<OptionType, nat>, order: seq<OptionType>)
      requires !inTransaction && Agreed(committed)
      requires Distinct(evals[..]) && Fresh(committed, evals[..]) && IsRanking(evals[..], ranked)
      requires forall i :: 0 <= i < evals.Length ==> Built(evals[i].row)
      modifies this, evals
      ensures !inTransaction && Agreed(committed)
      ensures ok <==> !recordRaises
      ensures !ok ==> committed == old(committed)
      ensures IsChoice(old(evals[..]), ranked, chosen)
      ensures forall t :: t in order <==> t in chosen
      ensures forall i, j :: 0 <= i < j < |order| ==> order[i] != order[j]
      ensures blocked.None? ==> forall t :: t in chosen ==>
        chosen[t] < evals.Length && evals[chosen[t]] == old(evals[..])[chosen[t]]
      ensures ok ==> FirstRows(old(committed), committed, old(evals[..]), evals[..], ranked, blocked,
                               SkippedIds(old(evals[..]), chosen, blocked))
    {
      ghost var before, built := committed, evals[..];
      chosen, order := SelectEntries(evals, ranked);
      MarkNotTopRanked(evals, ranked, chosen, blocked);
      SkippedAreChosen(built, ranked, chosen, blocked);
      ghost var marked := evals[..];
      MarkingKeepsSkipped(built, marked, chosen, blocked);
      var skip := SkippedIds(evals[..], chosen, blocked);
      ok := RecordMarked(evals, built, ranked, blocked, skip, recordRaises);
    }

    /** The first transaction: the rows of the marked strikes. */
    method RecordMarked(evals: array<Evaluated>, ghost built: seq<Evaluated>, ranked: seq<nat>,
                        blocked: Option<UnfilledReason>, skip: set<SignalId>, recordRaises: bool) returns (ok: bool)
      requires !inTransaction && Agreed(committed) && evals.Length == |built|
      requires Distinct(built) && Fresh(committed, built) && IsRanking(built, ranked)
      requires forall i :: 0 <= i < |built| ==> Built(built[i].row)
      requires forall i :: 0 <= i < |built| ==> evals[i] == built[i].(row := Marked(built, ranked, blocked, i))
      requires forall i :: 0 <= i < |built| ==> (built[i].id in skip <==>
        (blocked.None? && built[i].row.triggered && IsChosen(built, ranked, i)))
      modifies this
      ensures !inTransaction && Agreed(committed)
      ensures ok <==> !recordRaises
      ensures !ok ==> committed == old(committed)
      ensures ok ==> FirstRows(old(committed), committed, built, evals[..], ranked, blocked, skip)
    {
      ghost var before := committed;
      MarkedIsFresh(before, built, evals[..]);
      FreshRowsAreNew(before, evals[..], skip);
      ok := RecordRows(evals, skip, recordRaises);
      if ok {
        assert FirstRows(before, committed, built, evals[..], ranked, blocked, skip);
        FirstRowsAgree(before, committed, built, evals[..], ranked, blocked, skip);
      }
    }

    method ExitOne(o: ExitOrder, now: Moment, lot: int, fault: Fault) returns (done: bool)
      requires !inTransaction && Agreed(committed)
      requires o.id in committed.log && committed.log[o.id].Open()
      modifies this
      ensures !inTransaction && Agreed(committed)
      ensures done <==> Exits(Some(o), lot, fault)
      ensures committed.log == if done then old(committed).log[o.id := ExitedRow(old(committed).log[o.id], o, now)]
                               else old(committed).log
    {
      var updated := AtomicExit(o, now, lot, fault);
      if updated.Some? { ExitKeepsAgreement(old(committed), o, now, lot); }
      return updated.Some?;
    }

    /** The exit loop: one transaction per position that has an order. An exit that fails is skipped
        and hides no other; only a fatal fault stops the loop. */
    method RunExits(orders: seq<Option<ExitOrder>>, now: Moment, lot: int, dryRun: bool, faults: seq<Fault>)
      returns (done: seq<bool>, exited: nat)
      requires !inTransaction && Agreed(committed) && |faults| == |orders|
      requires AllOpen(committed.log, orders) && DistinctOrders(orders)
      modifies this
      ensures !inTransaction && Agreed(committed)
      ensures |done| <= |orders|
      ensures |done| < |orders| ==> !dryRun && faults[|done|].Raises? && faults[|done|].fatal
      ensures forall i :: 0 <= i < |done| ==> (done[i] <==> !dryRun && Exits(orders[i], lot, faults[i]))
      ensures ExitsShown(old(committed).log, committed.log, orders, done, now) && exited == Count(done)
      ensures OthersKept(old(committed).log, committed.log, orders)
    {
      done, exited := [], 0;
      ghost var before := committed.log;
      for n := 0 to |orders|
        invariant !inTransaction && Agreed(committed) && |done| == n && exited == Count(done)
        invariant ExitedSoFar(before, committed.log, orders, done, now, lot, dryRun, faults)
      {
        ghost var prior := committed.log;
        NextOrderOpen(before, prior, orders, done, now, lot, dryRun, faults);
        var ok := TryExit(orders[n], now, lot, dryRun, faults[n]);
        ExitStep(before, prior, committed.log, orders, done, ok, now, lot, dryRun, faults);
        if !dryRun && orders[n].Some? && !ok && faults[n].Raises? && faults[n].fatal { return; }
        done, exited := done + [ok], exited + (if ok then 1 else 0);
      }
    }

    /** One position of the exit loop. */
    method TryExit(order: Option<ExitOrder>, now: Moment, lot: int, dryRun: bool, fault: Fault) returns (ok: bool)
      requires !inTransaction && Agreed(committed)
      requires order.Some? ==> order.value.id in committed.log && committed.log[order.value.id].Open()
      modifies this
      ensures !inTransaction && Agreed(committed)
      ensures ok <==> !dryRun && Exits(order, lot, fault)
      ensures committed.log == AfterTry(old(committed).log, order, ok, now)
    {
      if dryRun || order.None? { return false; }
      ok := ExitOne(order.value, now, lot, fault);
    }

    /** The open positions, oldest id first or in any other order. */
    method OpenPositions() returns (ids: seq<SignalId>)
      ensures forall id :: id in ids <==> id in OpenIds(committed)
      ensures forall i, j :: 0 <= i < j < |ids| ==> ids[i] != ids[j]
    {
      ids := [];
      var left := OpenIds(committed);
      while left != {}
        invariant forall id :: id in OpenIds(committed) <==> id in left || id in ids
        invariant forall id :: id in left ==> id !in ids
        invariant forall i, j :: 0 <= i < j < |ids| ==> ids[i] != ids[j]
        decreases |left|
      {
        var id :| id in left;
        ids, left := ids + [id], left - {id};
      }
    }

    /** A whole scan: the open positions are read first, then entries run, then exits. `entries` shows the
        database between the two. Exits only touch positions that were open when the scan began, so a row
        written by this scan is left as the entries wrote it. */
    method RunScan(evals: array<Evaluated>, ranked: seq<nat>, now: Moment, lot: int, dryRun: bool,
                   recordRaises: bool, faults: OptionType -> Fault, auditRaises: OptionType -> bool,
                   decide: SignalId -> Option<ExitOrder>, exitFaults: SignalId -> Fault)
      returns (r: EntriesResult, exited: nat, ghost entries: Db, ghost tried: seq<SignalId>)
      requires !inTransaction && Agreed(committed)
      requires Distinct(evals[..]) && Fresh(committed, evals[..]) && IsRanking(evals[..], ranked)
      requires forall i :: 0 <= i < evals.Length ==> Built(evals[i].row)
      requires forall id :: decide(id).Some? ==> decide(id).value.id == id
      modifies this, evals
      ensures !inTransaction && Agreed(committed) && Agreed(entries)
      ensures r.Aborted? && recordRaises ==> entries == old(committed)
      ensures r.Aborted? && !recordRaises ==>
        Blocked(dryRun, now).None? &&
        StoppedAtFatal(old(committed), entries, old(evals[..]), ranked, now, faults, auditRaises)
      ensures r.Done? ==>
        RowsAccounted(old(committed), entries, old(evals[..]), ranked, now, Blocked(dryRun, now), r.fates)
      ensures r.Done? && !dryRun ==>
        ScanExits(old(committed), entries.log, committed.log, tried, exited, decide, lot, exitFaults, now)
      ensures r.Aborted? || dryRun ==> committed.log == entries.log && exited == 0
    {
      var positions := OpenPositions();
      ghost var before := committed;
      tried := [];
      r := RunEntries(evals, ranked, now, lot, dryRun, recordRaises, faults, auditRaises);
      entries, exited := committed, 0;
      if r.Aborted? { return; }
      exited, tried := ExitOpen(before, positions, now, lot, dryRun, decide, exitFaults);
    }

    /** The exits of the positions read when the database was `start`. */
    method ExitOpen(ghost start: Db, positions: seq<SignalId>, now: Moment, lot: int, dryRun: bool,
                    decide: SignalId -> Option<ExitOrder>, exitFaults: SignalId -> Fault)
      returns (exited: nat, ghost tried: seq<SignalId>)
      requires !inTransaction && Agreed(committed)
      requires forall id :: id in positions <==> id in OpenIds(start)
      requires forall i, j :: 0 <= i < j < |positions| ==> positions[i] != positions[j]
      requires forall id :: id in OpenIds(start) ==> id in committed.log && committed.log[id].Open()
      requires forall id :: decide(id).Some? ==> decide(id).value.id == id
      modifies this
      ensures !inTransaction && Agreed(committed)
      ensures dryRun ==> committed.log == old(committed).log && exited == 0
      ensures !dryRun ==>
        ScanExits(start, old(committed).log, committed.log, tried, exited, decide, lot, exitFaults, now)
    {
      forall i | 0 <= i < |positions| ensures positions[i] in OpenIds(start) {
        assert positions[i] in positions;
      }
      var orders := seq(|positions|, i requires 0 <= i < |positions| => decide(positions[i]));
      var done;
      ghost var before := committed.log;
      done, exited := RunExits(orders, now, lot, dryRun,
                               seq(|positions|, i requires 0 <= i < |positions| => exitFaults(positions[i])));
      tried := positions[..|done|];
      if dryRun {
        NothingExited(before, committed.log, orders, done, now);
      } else {
        OrdersExited(start, before, committed.log, positions, orders, done, decide, now, lot, exitFaults);
      }
    }

    /** The entry loop over the chosen strikes. */
    method EnterChosen(evals: array<Evaluated>, chosen: map<OptionType, nat>, order: seq<OptionType>,
                       now: Moment, lot: int, faults: OptionType -> Fault, auditRaises: OptionType -> bool,
                       ghost before: Db, ghost built: seq<Evaluated>, ghost ranked: seq<nat>)
      returns (r: EntriesResult)
      requires !inTransaction && Agreed(committed)
      requires Distinct(built) && Fresh(before, built) && IsRanking(built, ranked)
      requires forall i :: 0 <= i < |built| ==> Built(built[i].row)
      requires IsChoice(built, ranked, chosen)
      requires forall t :: t in order <==> t in chosen
      requires forall i, j :: 0 <= i < j < |order| ==> order[i] != order[j]
      requires forall t :: t in chosen ==> chosen[t] < evals.Length && evals[chosen[t]] == built[chosen[t]]
      requires RowsSoFar(before, committed, built, ranked, now, map[])
      modifies this
      ensures !inTransaction && Agreed(committed)
      ensures r.Aborted? ==> StoppedAtFatal(before, committed, built, ranked, now, faults, auditRaises)
      ensures r.Done? ==> RowsAccounted(before, committed, built, ranked, now, None, r.fates)
      ensures r.Done? ==> r.entered == |FilledTypes(r.fates)|
      ensures r.Done? ==> forall t :: t in r.fates && r.fates[t].ErrorLost? ==> auditRaises(t)
    {
      var entered, fates := 0, map[];
      for j := 0 to |order|
        invariant !inTransaction && Agreed(committed)
        invariant forall t :: t in fates <==> t in order[..j]
        invariant RowsSoFar(before, committed, built, ranked, now, fates)
        invariant entered == |FilledTypes(fates)|
        invariant forall t :: t in fates && fates[t].ErrorLost? ==> auditRaises(t)
      {
        var t := order[j];
        var ev := evals[chosen[t]];
        assert t !in order[..j];
        ChosenIsCandidate(before, committed, built, ranked, now, fates, t);
        ghost var prior := committed;
        var fate := EnterOne(ev, now, lot, faults(t), auditRaises(t));
        if fate.None? {
          assert StoppedAt(before, committed, built, ranked, now, faults, auditRaises, fates, t);
          return Aborted;
        }
        OneMoreFate(before, prior, committed, built, ranked, now, fates, t, ev, fate.value);
        FilledTypesGrow(fates, t, fate.value);
        fates := fates[t := fate.value];
        if fate.value == Recorded(true) { entered := entered + 1; }
      }
      AllFatesKnown(before, committed, built, ranked, now, fates, chosen);
      return Done(entered, fates);
    }
  }

  ghost predicate IsChoice(evals: seq<Evaluated>, ranked: seq<nat>, chosen: map<OptionType, nat>)
    requires forall p :: 0 <= p < |ranked| ==> ranked[p] < |evals|
  {
    && (forall t: OptionType :: t in chosen <==> TopOf(evals, ranked, t).Some?)
    && (forall t :: t in chosen ==> chosen[t] == TopOf(evals, ranked, t).value)
  }

  /** The strikes whose row is left to their entry transaction. */
  function SkippedIds(evals: seq<Evaluated>, chosen: map<OptionType, nat>,
                      blocked: Option<UnfilledReason>): set<SignalId>
    requires forall t :: t in chosen ==> chosen[t] < |evals|
  {
    if blocked.Some? then {} else set t | t in chosen :: evals[chosen[t]].id
  }

  lemma MarkingKeepsSkipped(built: seq<Evaluated>, marked: seq<Evaluated>, chosen: map<OptionType, nat>,
                            blocked: Option<UnfilledReason>)
    requires |marked| == |built| && forall i :: 0 <= i < |built| ==> marked[i].id == built[i].id
    requires forall t :: t in chosen ==> chosen[t] < |built|
    ensures SkippedIds(marked, chosen, blocked) == SkippedIds(built, chosen, blocked)
  {
  }

  lemma SkippedAreChosen(built: seq<Evaluated>, ranked: seq<nat>,
                         chosen: map<OptionType, nat>, blocked: Option<UnfilledReason>)
    requires IsRanking(built, ranked) && Distinct(built) && IsChoice(built, ranked, chosen)
    ensures forall i :: 0 <= i < |built| ==> (built[i].id in SkippedIds(built, chosen, blocked) <==>
      (blocked.None? && built[i].row.triggered && IsChosen(built, ranked, i)))
    ensures blocked.None? ==> forall t :: t in chosen ==>
      built[chosen[t]].row == Marked(built, ranked, blocked, chosen[t])
  {
    forall i | 0 <= i < |built| && blocked.None?
      ensures built[i].id in SkippedIds(built, chosen, blocked)
              <==> (built[i].row.triggered && IsChosen(built, ranked, i))
    {
      if IsChosen(built, ranked, i) {
        assert TypeOf(built[i]) in chosen && built[chosen[TypeOf(built[i])]].id == built[i].id;
      }
      if built[i].id in SkippedIds(built, chosen, blocked) {
        var t :| t in chosen && built[chosen[t]].id == built[i].id;
        assert chosen[t] == i;
      }
    }
  }

  lemma ChosenIsCandidate(before: Db, committed: Db, evals: seq<Evaluated>, ranked: seq<nat>, now: Moment,
                          fates: map<OptionType, Fate>, t: OptionType)
    requires IsRanking(evals, ranked) && RowsSoFar(before, committed, evals, ranked, now, fates)
    requires forall i :: 0 <= i < |evals| ==> Built(evals[i].row)
    requires TopOf(evals, ranked, t).Some? && t !in fates
    ensures IsCandidate(evals[TopOf(evals, ranked, t).value])
    ensures evals[TopOf(evals, ranked, t).value].id !in committed.log
  {
    var k := TopOf(evals, ranked, t).value;
    var p :| 0 <= p < |ranked| && ranked[p] == k;
    assert evals[ranked[p]].row.triggered && IsChosen(evals, ranked, k);
  }

  lemma AllFatesKnown(before: Db, after: Db, evals: seq<Evaluated>, ranked: seq<nat>, now: Moment,
                      fates: map<OptionType, Fate>, chosen: map<OptionType, nat>)
    requires IsRanking(evals, ranked) && RowsSoFar(before, after, evals, ranked, now, fates)
    requires IsChoice(evals, ranked, chosen) && (forall t :: t in chosen ==> t in fates)
    ensures RowsAccounted(before, after, evals, ranked, now, None, fates)
  {
  }

  function FilledTypes(fates: map<OptionType, Fate>): set<OptionType> {
    set t | t in fates && fates[t] == Recorded(true)
  }

  lemma FilledTypesGrow(fates: map<OptionType, Fate>, t: OptionType, fate: Fate)
    requires t !in fates
    ensures |FilledTypes(fates[t := fate])| == |FilledTypes(fates)| + (if fate == Recorded(true) then 1 else 0)
  {
    var grown := FilledTypes(fates[t := fate]);
    assert grown == FilledTypes(fates) + (if fate == Recorded(true) then {t} else {});
  }

  /** What a chosen strike's fate shows in the log; no other row changes. */
  ghost predicate FateShown(before: Db, after: Db, ev: Evaluated, now: Moment, fate: Fate) {
    && (forall id :: id != ev.id ==> (id in after.log <==> id in before.log))
    && (forall id :: id != ev.id && id in before.log ==> after.log[id] == before.log[id])
    && FateRow(after, ev, now, fate)
  }

  ghost predicate FateRow(after: Db, ev: Evaluated, now: Moment, fate: Fate) {
    match fate
    case Recorded(filled) => ev.id in after.log && after.log[ev.id].filled == filled
      && (after.log[ev.id] == AttemptedRow(ev, now, filled) || (!filled && after.log[ev.id] == RefusedRow(ev)))
    case ErrorLogged => ev.id in after.log && after.log[ev.id] == ErrorRow(ev.row)
    case ErrorLost => ev.id !in after.log
  }

  lemma {:induction false} WithRowsShape(log: map<SignalId, LogRow>, evals: seq<Evaluated>, skip: set<SignalId>)
    requires Distinct(evals) && Fresh(Db([], log), evals)
    ensures var after := WithRows(log, evals, skip);
      && (forall id :: id in log ==> id in after && after[id] == log[id])
      && (forall id :: id in after && id !in log ==> exists i :: 0 <= i < |evals| && evals[i].id == id)
      && (forall i :: 0 <= i < |evals| ==> (evals[i].id in after <==> evals[i].id !in skip))
      && (forall i :: 0 <= i < |evals| && evals[i].id !in skip ==> after[evals[i].id] == evals[i].row)
  {
    if evals != [] {
      var n := |evals| - 1;
      WithRowsShape(log, evals[..n], skip);
      assert forall i :: 0 <= i < n ==> evals[..n][i] == evals[i];
    }
  }

  /** The first transaction wrote the marked row of every strike that is not skipped. */
  ghost predicate FirstRows(before: Db, after: Db, built: seq<Evaluated>, marked: seq<Evaluated>, ranked: seq<nat>,
                            blocked: Option<UnfilledReason>, skip: set<SignalId>)
    requires IsRanking(built, ranked)
  {
    && Distinct(built) && Fresh(before, built) && |marked| == |built|
    && (forall i :: 0 <= i < |built| ==> marked[i] == built[i].(row := Marked(built, ranked, blocked, i)))
    && after.ledger == before.ledger && after.log == WithRows(before.log, marked, skip)
    && (forall i :: 0 <= i < |built| ==> (built[i].id in skip <==>
          (blocked.None? && built[i].row.triggered && IsChosen(built, ranked, i))))
  }

  /** Marking changes no id. */
  lemma MarkedIsFresh(before: Db, built: seq<Evaluated>, marked: seq<Evaluated>)
    requires Distinct(built) && Fresh(before, built) && |marked| == |built|
    requires forall i :: 0 <= i < |built| ==> marked[i].id == built[i].id
    ensures Distinct(marked) && Fresh(before, marked)
  {
  }

  lemma FirstRowsShape(before: Db, after: Db, built: seq<Evaluated>, marked: seq<Evaluated>, ranked: seq<nat>,
                       blocked: Option<UnfilledReason>, skip: set<SignalId>)
    requires IsRanking(built, ranked) && FirstRows(before, after, built, marked, ranked, blocked, skip)
    ensures forall id :: id in before.log ==> id in after.log && after.log[id] == before.log[id]
    ensures forall id :: id in after.log && id !in before.log ==> exists i :: 0 <= i < |built| && built[i].id == id
    ensures forall i :: 0 <= i < |built| ==>
      if built[i].id in skip then built[i].id !in after.log
      else built[i].id in after.log && after.log[built[i].id] == Marked(built, ranked, blocked, i)
  {
    assert Distinct(marked) && Fresh(Db([], before.log), marked);
    WithRowsShape(before.log, marked, skip);
    forall id | id in after.log && id !in before.log ensures exists i :: 0 <= i < |built| && built[i].id == id {
      var i :| 0 <= i < |marked| && marked[i].id == id;
      assert built[i].id == id;
    }
  }

  lemma FirstRowsAgree(before: Db, after: Db, built: seq<Evaluated>, marked: seq<Evaluated>, ranked: seq<nat>,
                       blocked: Option<UnfilledReason>, skip: set<SignalId>)
    requires IsRanking(built, ranked) && FirstRows(before, after, built, marked, ranked, blocked, skip)
    requires Agreed(before) && (forall i :: 0 <= i < |built| ==> Built(built[i].row))
    ensures Agreed(after)
  {
    FirstRowsShape(before, after, built, marked, ranked, blocked, skip);
    forall id | id in after.log && id !in before.log ensures after.log[id].Unfilled() {
      var i :| 0 <= i < |built| && built[i].id == id;
      assert Built(built[i].row);
      assert after.log[id] == Marked(built, ranked, blocked, i);
    }
    ExtendsKeepsAgreement(before, after);
  }

  lemma FirstRowsAccounted(before: Db, after: Db, built: seq<Evaluated>, marked: seq<Evaluated>, ranked: seq<nat>,
                           now: Moment, blocked: Option<UnfilledReason>, skip: set<SignalId>)
    requires IsRanking(built, ranked) && FirstRows(before, after, built, marked, ranked, blocked, skip)
    ensures blocked.None? ==> RowsSoFar(before, after, built, ranked, now, map[])
    ensures blocked.Some? ==> RowsAccounted(before, after, built, ranked, now, blocked, map[])
  {
    FirstRowsShape(before, after, built, marked, ranked, blocked, skip);
  }

  /** Rows are accounted for, except those of chosen strikes whose direction has no fate yet. */
  ghost predicate RowsSoFar(before: Db, after: Db, evals: seq<Evaluated>, ranked: seq<nat>, now: Moment,
                            fates: map<OptionType, Fate>)
    requires IsRanking(evals, ranked)
  {
    && (forall id :: id in before.log ==> id in after.log && after.log[id] == before.log[id])
    && (forall id :: id in after.log && id !in before.log ==> exists i :: 0 <= i < |evals| && evals[i].id == id)
    && (forall i :: 0 <= i < |evals| ==>
          if evals[i].row.triggered && IsChosen(evals, ranked, i) && TypeOf(evals[i]) !in fates
          then evals[i].id !in after.log
          else RowAccounted(after, evals, ranked, now, None, fates, i))
  }

  /** An abort during the entry of direction t: the rows of the directions tried before it are committed as their
      fates say, its own strike and those not reached have no row. */
  ghost predicate StoppedAt(before: Db, after: Db, evals: seq<Evaluated>, ranked: seq<nat>, now: Moment,
                            faults: OptionType -> Fault, auditRaises: OptionType -> bool,
                            fates: map<OptionType, Fate>, t: OptionType)
    requires IsRanking(evals, ranked)
  {
    && RowsSoFar(before, after, evals, ranked, now, fates)
    && (forall u :: u in fates && fates[u].ErrorLost? ==> auditRaises(u))
    && t !in fates && TopOf(evals, ranked, t).Some? && faults(t).Raises? && faults(t).fatal
  }

  ghost predicate StoppedAtFatal(before: Db, after: Db, evals: seq<Evaluated>, ranked: seq<nat>, now: Moment,
                                 faults: OptionType -> Fault, auditRaises: OptionType -> bool)
    requires IsRanking(evals, ranked)
  {
    exists fates, t :: StoppedAt(before, after, evals, ranked, now, faults, auditRaises, fates, t)
  }

  lemma OneMoreFate(before: Db, prior: Db, after: Db, evals: seq<Evaluated>, ranked: seq<nat>, now: Moment,
                    fates: map<OptionType, Fate>, t: OptionType, ev: Evaluated, fate: Fate)
    requires IsRanking(evals, ranked) && Distinct(evals) && Fresh(before, evals)
    requires RowsSoFar(before, prior, evals, ranked, now, fates) && t !in fates
    requires TopOf(evals, ranked, t).Some? && ev == evals[TopOf(evals, ranked, t).value]
    requires FateShown(prior, after, ev, now, fate)
    ensures RowsSoFar(before, after, evals, ranked, now, fates[t := fate])
  {
    var k := TopOf(evals, ranked, t).value;
    forall i | 0 <= i < |evals|
      ensures if evals[i].row.triggered && IsChosen(evals, ranked, i) && TypeOf(evals[i]) !in fates[t := fate]
              then evals[i].id !in after.log
              else RowAccounted(after, evals, ranked, now, None, fates[t := fate], i)
    {
      if i != k { assert evals[i].id != ev.id; }
    }
  }

  function Count(done: seq<bool>): nat {
    if done == [] then 0 else Count(done[..|done| - 1]) + (if done[|done| - 1] then 1 else 0)
  }

  /** An order that went through shows its exit in the log; any other leaves its row alone. */
  ghost predicate ExitShown(before: map<SignalId, LogRow>, after: map<SignalId, LogRow>,
                            order: Option<ExitOrder>, done: bool, now: Moment)
  {
    order.Some? ==>
      && order.value.id in before && order.value.id in after
      && after[order.value.id]
           == if done then ExitedRow(before[order.value.id], order.value, now) else before[order.value.id]
  }

  ghost predicate ExitsShown(before: map<SignalId, LogRow>, after: map<SignalId, LogRow>,
                             orders: seq<Option<ExitOrder>>, done: seq<bool>, now: Moment)
  {
    forall i :: 0 <= i < |orders| ==> ExitShown(before, after, orders[i], i < |done| && done[i], now)
  }

  ghost predicate DistinctOrders(orders: seq<Option<ExitOrder>>) {
    forall i, j :: 0 <= i < j < |orders| && orders[i].Some? && orders[j].Some? ==>
      orders[i].value.id != orders[j].value.id
  }

  ghost predicate AllOpen(log: map<SignalId, LogRow>, orders: seq<Option<ExitOrder>>) {
    forall i :: 0 <= i < |orders| && orders[i].Some? ==>
      orders[i].value.id in log && log[orders[i].value.id].Open()
  }

  /** The log has the same rows, and a row that no order names is as it was. */
  ghost predicate OthersKept(before: map<SignalId, LogRow>, after: map<SignalId, LogRow>,
                             orders: seq<Option<ExitOrder>>)
  {
    && after.Keys == before.Keys
    && (forall id :: id in before && !Ordered(orders, id) ==> after[id] == before[id])
  }

  ghost predicate Ordered(orders: seq<Option<ExitOrder>>, id: SignalId) {
    exists i :: 0 <= i < |orders| && orders[i].Some? && orders[i].value.id == id
  }

  /** The loop so far: the orders done are those that go through, and the log shows just them. */
  ghost predicate ExitedSoFar(before: map<SignalId, LogRow>, log: map<SignalId, LogRow>, orders: seq<Option<ExitOrder>>,
                              done: seq<bool>, now: Moment, lot: int, dryRun: bool, faults: seq<Fault>)
    requires |faults| == |orders|
  {
    && |done| <= |orders| && AllOpen(before, orders) && DistinctOrders(orders)
    && DoneRight(orders, done, lot, dryRun, faults)
    && ExitsShown(before, log, orders, done, now) && OthersKept(before, log, orders)
  }

  ghost predicate DoneRight(orders: seq<Option<ExitOrder>>, done: seq<bool>, lot: int, dryRun: bool, faults: seq<Fault>)
    requires |done| <= |orders| == |faults|
  {
    forall i :: 0 <= i < |done| ==> (done[i] <==> !dryRun && Exits(orders[i], lot, faults[i]))
  }

  function AfterTry(log: map<SignalId, LogRow>, order: Option<ExitOrder>, ok: bool,
                    now: Moment): map<SignalId, LogRow>
  {
    if ok && order.Some? && order.value.id in log
    then log[order.value.id := ExitedRow(log[order.value.id], order.value, now)] else log
  }

  lemma NextOrderOpen(before: map<SignalId, LogRow>, log: map<SignalId, LogRow>, orders: seq<Option<ExitOrder>>,
                      done: seq<bool>, now: Moment, lot: int, dryRun: bool, faults: seq<Fault>)
    requires |faults| == |orders| && |done| < |orders|
    requires ExitedSoFar(before, log, orders, done, now, lot, dryRun, faults)
    ensures var o := orders[|done|];
      o.Some? ==> o.value.id in log && log[o.value.id].Open()
  {
    assert ExitShown(before, log, orders[|done|], false, now);
  }

  lemma ShownStep(before: map<SignalId, LogRow>, prior: map<SignalId, LogRow>, orders: seq<Option<ExitOrder>>,
                  done: seq<bool>, ok: bool, now: Moment)
    requires |done| < |orders| && DistinctOrders(orders) && ExitsShown(before, prior, orders, done, now)
    requires ok ==> orders[|done|].Some?
    ensures ExitsShown(before, AfterTry(prior, orders[|done|], ok, now), orders, done + [ok], now)
  {
    var n := |done|;
    var log := AfterTry(prior, orders[n], ok, now);
    assert ExitShown(before, prior, orders[n], false, now);
    forall i | 0 <= i < |orders| ensures ExitShown(before, log, orders[i], i < n + 1 && (done + [ok])[i], now) {
      assert ExitShown(before, prior, orders[i], i < n && done[i], now);
    }
  }

  lemma OthersStep(before: map<SignalId, LogRow>, prior: map<SignalId, LogRow>, orders: seq<Option<ExitOrder>>,
                   n: nat, ok: bool, now: Moment)
    requires n < |orders| && OthersKept(before, prior, orders)
    ensures OthersKept(before, AfterTry(prior, orders[n], ok, now), orders)
  {
    assert orders[n].Some? ==> Ordered(orders, orders[n].value.id);
  }

  lemma DoneStep(orders: seq<Option<ExitOrder>>, done: seq<bool>, ok: bool, lot: int, dryRun: bool, faults: seq<Fault>)
    requires |done| < |orders| == |faults| && DoneRight(orders, done, lot, dryRun, faults)
    requires ok <==> !dryRun && Exits(orders[|done|], lot, faults[|done|])
    ensures DoneRight(orders, done + [ok], lot, dryRun, faults)
  {
    forall i | 0 <= i < |done| + 1
      ensures (done + [ok])[i] <==> !dryRun && Exits(orders[i], lot, faults[i])
    {
      if i < |done| { assert (done + [ok])[i] == done[i]; }
    }
  }

  lemma CountGrows(done: seq<bool>, ok: bool)
    ensures Count(done + [ok]) == Count(done) + (if ok then 1 else 0)
  {
    assert (done + [ok])[..|done|] == done;
  }

  lemma ExitStep(before: map<SignalId, LogRow>, prior: map<SignalId, LogRow>, log: map<SignalId, LogRow>,
                 orders: seq<Option<ExitOrder>>, done: seq<bool>, ok: bool, now: Moment, lot: int, dryRun: bool,
                 faults: seq<Fault>)
    requires |faults| == |orders| && |done| < |orders|
    requires ExitedSoFar(before, prior, orders, done, now, lot, dryRun, faults)
    requires ok <==> !dryRun && Exits(orders[|done|], lot, faults[|done|])
    requires log == AfterTry(prior, orders[|done|], ok, now)
    ensures ExitedSoFar(before, log, orders, done + [ok], now, lot, dryRun, faults)
    ensures !ok ==> log == prior
    ensures Count(done + [ok]) == Count(done) + (if ok then 1 else 0)
  {
    DoneStep(orders, done, ok, lot, dryRun, faults);
    CountGrows(done, ok);
    ShownStep(before, prior, orders, done, ok, now);
    OthersStep(before, prior, orders, |done|, ok, now);
  }

  /** The positions tried: some of those open, all of them unless a fatal fault stopped the loop. */
  ghost predicate TriedUpToFatal(db: Db, tried: seq<SignalId>, exitFaults: SignalId -> Fault) {
    && (forall i, j :: 0 <= i < j < |tried| ==> tried[i] != tried[j])
    && (forall id :: id in tried ==> id in OpenIds(db))
    && ((forall id :: id in OpenIds(db) ==> id in tried)
        || exists id :: id in OpenIds(db) && id !in tried && exitFaults(id).Raises? && exitFaults(id).fatal)
  }

  /** The row of a position after the exit loop. */
  ghost predicate ScanExited(before: map<SignalId, LogRow>, after: map<SignalId, LogRow>, id: SignalId, exits: bool,
                             order: Option<ExitOrder>, now: Moment)
  {
    && id in before && id in after
    && after[id] == if exits && order.Some? then ExitedRow(before[id], order.value, now) else before[id]
  }

  /** What the exits of a scan do to the log, given the database it started from: the positions tried are exited
      when their exit goes through, every other row is as the entries left it. */
  ghost predicate ScanExits(start: Db, entries: map<SignalId, LogRow>, log: map<SignalId, LogRow>, tried: seq<SignalId>,
                            exited: nat, decide: SignalId -> Option<ExitOrder>, lot: int,
                            exitFaults: SignalId -> Fault, now: Moment)
  {
    && log.Keys == entries.Keys && TriedUpToFatal(start, tried, exitFaults)
    && (forall id :: id in OpenIds(start) ==>
          ScanExited(entries, log, id, id in tried && Exits(decide(id), lot, exitFaults(id)), decide(id), now))
    && (forall id :: id in entries && id !in OpenIds(start) ==> log[id] == entries[id])
    && exited == |ExitedOf(tried, decide, lot, exitFaults)|
  }

  /** What the exit loop did, told of the positions read when the database was `start`. */
  lemma OrdersExited(start: Db, before: map<SignalId, LogRow>, after: map<SignalId, LogRow>,
                     positions: seq<SignalId>, orders: seq<Option<ExitOrder>>, done: seq<bool>,
                     decide: SignalId -> Option<ExitOrder>, now: Moment, lot: int, exitFaults: SignalId -> Fault)
    requires |orders| == |positions| && |done| <= |positions| && forall id :: id in positions ==> id in before
    requires forall id :: id in positions <==> id in OpenIds(start)
    requires forall i, j :: 0 <= i < j < |positions| ==> positions[i] != positions[j]
    requires forall i :: 0 <= i < |positions| ==> orders[i] == decide(positions[i])
    requires forall i :: decide(i).Some? ==> decide(i).value.id == i
    requires forall i :: 0 <= i < |done| ==> (done[i] <==> Exits(orders[i], lot, exitFaults(positions[i])))
    requires |done| < |positions| ==> exitFaults(positions[|done|]).Raises? && exitFaults(positions[|done|]).fatal
    requires ExitsShown(before, after, orders, done, now) && OthersKept(before, after, orders)
    ensures ScanExits(start, before, after, positions[..|done|], Count(done), decide, lot, exitFaults, now)
  {
    AllShown(before, after, positions, orders, done, decide, now, lot, exitFaults);
    ExitsCounted(positions[..|done|], done, decide, lot, exitFaults);
    TriedOfOpen(start, positions, |done|, exitFaults);
  }

  lemma TriedOfOpen(start: Db, positions: seq<SignalId>, n: nat, exitFaults: SignalId -> Fault)
    requires forall id :: id in positions <==> id in OpenIds(start)
    requires forall i, j :: 0 <= i < j < |positions| ==> positions[i] != positions[j]
    requires n <= |positions|
    requires n < |positions| ==> exitFaults(positions[n]).Raises? && exitFaults(positions[n]).fatal
    ensures TriedUpToFatal(start, positions[..n], exitFaults)
  {
    if n < |positions| {
      assert positions[n] in OpenIds(start) && positions[n] !in positions[..n] by { assert positions[n] in positions; }
    } else {
      assert positions[..n] == positions;
    }
  }

  ghost function ExitedOf(tried: seq<SignalId>, decide: SignalId -> Option<ExitOrder>, lot: int,
                          exitFaults: SignalId -> Fault): set<SignalId>
  {
    set id | id in tried && Exits(decide(id), lot, exitFaults(id))
  }

  lemma {:induction false} ExitsCounted(tried: seq<SignalId>, done: seq<bool>, decide: SignalId -> Option<ExitOrder>,
                                        lot: int, exitFaults: SignalId -> Fault)
    requires |done| == |tried| && forall i, j :: 0 <= i < j < |tried| ==> tried[i] != tried[j]
    requires forall i :: 0 <= i < |tried| ==> (done[i] <==> Exits(decide(tried[i]), lot, exitFaults(tried[i])))
    ensures Count(done) == |ExitedOf(tried, decide, lot, exitFaults)|
  {
    if tried != [] {
      var n := |tried| - 1;
      ExitsCounted(tried[..n], done[..n], decide, lot, exitFaults);
      assert tried == tried[..n] + [tried[n]];
      assert ExitedOf(tried, decide, lot, exitFaults)
          == ExitedOf(tried[..n], decide, lot, exitFaults) + (if done[n] then {tried[n]} else {});
    }
  }

  lemma AllShown(before: map<SignalId, LogRow>, after: map<SignalId, LogRow>, positions: seq<SignalId>,
                 orders: seq<Option<ExitOrder>>, done: seq<bool>, decide: SignalId -> Option<ExitOrder>,
                 now: Moment, lot: int, exitFaults: SignalId -> Fault)
    requires |orders| == |positions| && |done| <= |positions| && forall id :: id in positions ==> id in before
    requires forall i, j :: 0 <= i < j < |positions| ==> positions[i] != positions[j]
    requires forall i :: 0 <= i < |positions| ==> orders[i] == decide(positions[i])
    requires forall i :: decide(i).Some? ==> decide(i).value.id == i
    requires forall i :: 0 <= i < |done| ==> (done[i] <==> Exits(orders[i], lot, exitFaults(positions[i])))
    requires ExitsShown(before, after, orders, done, now) && OthersKept(before, after, orders)
    ensures forall id :: id in positions ==> ScanExited(before, after, id,
      id in positions[..|done|] && Exits(decide(id), lot, exitFaults(id)), decide(id), now)
    ensures forall id :: id in before && id !in positions ==> after[id] == before[id]
  {
    forall id | id in positions ensures ScanExited(before, after, id,
      id in positions[..|done|] && Exits(decide(id), lot, exitFaults(id)), decide(id), now)
    {
      var k := PositionShown(before, after, positions, orders, done, decide, now, id);
      assert id in positions[..|done|] <==> k < |done|;
    }
    forall id | id in before && id !in positions ensures after[id] == before[id] {
      assert !Ordered(orders, id) by {
        forall i | 0 <= i < |orders| && orders[i].Some? ensures orders[i].value.id != id {
          assert orders[i].value.id == positions[i];
        }
      }
    }
  }

  lemma PositionShown(before: map<SignalId, LogRow>, after: map<SignalId, LogRow>, positions: seq<SignalId>,
                      orders: seq<Option<ExitOrder>>, done: seq<bool>, decide: SignalId -> Option<ExitOrder>,
                      now: Moment, id: SignalId) returns (k: nat)
    requires |orders| == |positions| && |done| <= |positions| && id in positions && id in before
    requires forall i, j :: 0 <= i < j < |positions| ==> positions[i] != positions[j]
    requires forall i :: 0 <= i < |positions| ==> orders[i] == decide(positions[i])
    requires forall i :: decide(i).Some? ==> decide(i).value.id == i
    requires ExitsShown(before, after, orders, done, now) && OthersKept(before, after, orders)
    ensures k < |positions| && positions[k] == id
    ensures ScanExited(before, after, id, k < |done| && done[k], decide(id), now)
  {
    k :| 0 <= k < |positions| && positions[k] == id;
    assert ExitShown(before, after, orders[k], k < |done| && done[k], now);
    if orders[k].None? {
      forall i | 0 <= i < |orders| && orders[i].Some? ensures orders[i].value.id != id {
        assert orders[i].value.id == positions[i];
      }
      assert !Ordered(orders, id);
    }
  }

  /** Without a successful exit the log is as it was. */
  lemma NothingExited(before: map<SignalId, LogRow>, after: map<SignalId, LogRow>, orders: seq<Option<ExitOrder>>,
                      done: seq<bool>, now: Moment)
    requires ExitsShown(before, after, orders, done, now) && OthersKept(before, after, orders)
    requires forall i :: 0 <= i < |done| ==> !done[i]
    ensures after == before && Count(done) == 0
  {
    forall id | id in before ensures after[id] == before[id] {
      if Ordered(orders, id) {
        var i :| 0 <= i < |orders| && orders[i].Some? && orders[i].value.id == id;
        assert ExitShown(before, after, orders[i], i < |done| && done[i], now);
      }
    }
    NoneDone(done);
  }

  lemma {:induction false} NoneDone(done: seq<bool>)
    requires forall i :: 0 <= i < |done| ==> !done[i]
    ensures Count(done) == 0
  {
    if done != [] { NoneDone(done[..|done| - 1]); }
  }

  /** Whether a position's exit goes through: it depends on that position alone. */
  predicate Exits(order: Option<ExitOrder>, lot: int, fault: Fault) {
    order.Some? && order.value.key != "" && lot > 0 && (fault.NoFault? || fault.at == AtCheck)
  }

  function ExitedRow(row: LogRow, o: ExitOrder, now: Moment): LogRow {
    row.(exit := Some(Exit(o.price, now, o.reason)))
  }

  function Blocked(dryRun: bool, now: Moment): Option<UnfilledReason> {
    if dryRun then Some(DryRun) else if now.time > LAST_ENTRY then Some(EntryWindowClosed) else None
  }

  function ErrorRow(row: LogRow): LogRow { row.(attempted := true, unfilled := Some(EntryError)) }

  ghost predicate Distinct(evals: seq<Evaluated>) {
    forall i, j :: 0 <= i < j < |evals| ==> evals[i].id != evals[j].id
  }

  ghost predicate Fresh(db: Db, evals: seq<Evaluated>) {
    forall i :: 0 <= i < |evals| ==> evals[i].id !in db.log
  }

  /** Every row to insert has an id that the log, with the rows before it, does not have. */
  predicate NewRows(log: map<SignalId, LogRow>, evals: seq<Evaluated>, skip: set<SignalId>) {
    if evals == [] then true
    else
      var init, ev := evals[..|evals| - 1], evals[|evals| - 1];
      NewRows(log, init, skip) && (ev.id in skip || ev.id !in WithRows(log, init, skip))
  }

  lemma {:induction false} OldRowRejects(log: map<SignalId, LogRow>, evals: seq<Evaluated>, skip: set<SignalId>, i: nat)
    requires i < |evals| && !NewRows(log, evals[..i + 1], skip)
    ensures !NewRows(log, evals, skip)
  {
    if i + 1 < |evals| {
      assert evals[..|evals| - 1][..i + 1] == evals[..i + 1];
      OldRowRejects(log, evals[..|evals| - 1], skip, i);
    } else {
      assert evals[..i + 1] == evals;
    }
  }

  /** Distinct ids that the log does not have are new rows. */
  lemma {:induction false} FreshRowsAreNew(db: Db, evals: seq<Evaluated>, skip: set<SignalId>)
    requires Distinct(evals) && Fresh(db, evals)
    ensures NewRows(db.log, evals, skip)
    ensures forall id :: id in WithRows(db.log, evals, skip) ==>
      id in db.log || exists i :: 0 <= i < |evals| && evals[i].id == id
  {
    if evals != [] {
      FreshRowsAreNew(db, evals[..|evals| - 1], skip);
    }
  }

  function WithRows(log: map<SignalId, LogRow>, evals: seq<Evaluated>, skip: set<SignalId>): map<SignalId, LogRow> {
    if evals == [] then log
    else
      var before := WithRows(log, evals[..|evals| - 1], skip);
      var last := evals[|evals| - 1];
      if last.id in skip then before else before[last.id := last.row]
  }

  /** A row as the scan builds it, before any reason or fill is recorded. */
  predicate Built(row: LogRow) {
    !row.filled && row.fillPrice.None? && row.fillTime.None? && row.exit.None?
  }

  function TypeOf(ev: Evaluated): OptionType { ev.row.contract.optionType }

  /** `ranked` lists every triggered strike once, best first. */
  ghost predicate IsRanking(evals: seq<Evaluated>, ranked: seq<nat>) {
    && (forall p :: 0 <= p < |ranked| ==> ranked[p] < |evals| && evals[ranked[p]].row.triggered)
    && (forall i :: 0 <= i < |evals| && evals[i].row.triggered ==> i in ranked)
  }

  /** The best-ranked strike of a direction. */
  function TopOf(evals: seq<Evaluated>, ranked: seq<nat>, t: OptionType): (k: Option<nat>)
    requires forall p :: 0 <= p < |ranked| ==> ranked[p] < |evals|
    ensures k.Some? ==> k.value < |evals| && k.value in ranked && TypeOf(evals[k.value]) == t
  {
    if ranked == [] then None
    else
      var before := TopOf(evals, ranked[..|ranked| - 1], t);
      var last := ranked[|ranked| - 1];
      if before.Some? then before else if TypeOf(evals[last]) == t then Some(last) else None
  }

  /** No strike of the direction is ranked before the chosen one, and only an empty direction has none. */
  lemma {:induction false} TopOfIsFirst(evals: seq<Evaluated>, ranked: seq<nat>, t: OptionType)
    requires forall p :: 0 <= p < |ranked| ==> ranked[p] < |evals|
    ensures match TopOf(evals, ranked, t)
      case None => forall p :: 0 <= p < |ranked| ==> TypeOf(evals[ranked[p]]) != t
      case Some(k) => exists p :: FirstOfType(evals, ranked, t, k, p)
  {
    if ranked != [] {
      var n := |ranked| - 1;
      TopOfIsFirst(evals, ranked[..n], t);
      var before := TopOf(evals, ranked[..n], t);
      assert forall q :: 0 <= q < n ==> ranked[..n][q] == ranked[q];
      if before.Some? {
        var p: nat :| FirstOfType(evals, ranked[..n], t, before.value, p);
        forall q | 0 <= q < p ensures TypeOf(evals[ranked[q]]) != t {
          assert ranked[..n][q] == ranked[q];
        }
        assert TopOf(evals, ranked, t) == before && FirstOfType(evals, ranked, t, before.value, p);
      } else {
        forall q | 0 <= q < n ensures TypeOf(evals[ranked[q]]) != t {
          assert ranked[..n][q] == ranked[q];
        }
        if TypeOf(evals[ranked[n]]) == t {
          assert TopOf(evals, ranked, t) == Some(ranked[n]);
          assert FirstOfType(evals, ranked, t, ranked[n], n);
        }
      }
    }
  }

  ghost predicate FirstOfType(evals: seq<Evaluated>, ranked: seq<nat>, t: OptionType, k: nat, p: nat)
    requires forall q :: 0 <= q < |ranked| ==> ranked[q] < |evals|
  {
    && p < |ranked| && ranked[p] == k && TypeOf(evals[k]) == t
    && (forall q :: 0 <= q < p ==> TypeOf(evals[ranked[q]]) != t)
  }

  method SelectEntries(evals: array<Evaluated>, ranked: seq<nat>)
    returns (chosen: map<OptionType, nat>, order: seq<OptionType>)
    requires IsRanking(evals[..], ranked)
    ensures IsChoice(evals[..], ranked, chosen)
    ensures forall t :: t in order <==> t in chosen
    ensures forall i, j :: 0 <= i < j < |order| ==> order[i] != order[j]
  {
    chosen, order := map[], [];
    for p := 0 to |ranked|
      invariant IsChoice(evals[..], ranked[..p], chosen)
      invariant forall t :: t in order <==> t in chosen
      invariant forall i, j :: 0 <= i < j < |order| ==> order[i] != order[j]
    {
      assert ranked[..p + 1][..p] == ranked[..p];
      var t := TypeOf(evals[ranked[p]]);
      if t !in chosen {
        chosen, order := chosen[t := ranked[p]], order + [t];
      }
    }
    assert ranked[..|ranked|] == ranked;
  }

  ghost predicate IsChosen(evals: seq<Evaluated>, ranked: seq<nat>, i: nat)
    requires i < |evals| && IsRanking(evals, ranked)
  {
    TopOf(evals, ranked, TypeOf(evals[i])) == Some(i)
  }

  /** The reason a strike's row carries before any entry is tried. */
  ghost function Marked(evals: seq<Evaluated>, ranked: seq<nat>, blocked: Option<UnfilledReason>, i: nat): LogRow
    requires i < |evals| && IsRanking(evals, ranked)
  {
    var row := evals[i].row;
    if !row.triggered then row
    else if !IsChosen(evals, ranked, i) then row.(unfilled := Some(NotTopRanked))
    else if blocked.Some? then row.(unfilled := blocked)
    else row
  }

  method MarkNotTopRanked(evals: array<Evaluated>, ranked: seq<nat>, chosen: map<OptionType, nat>,
                          blocked: Option<UnfilledReason>)
    requires IsRanking(evals[..], ranked)
    requires IsChoice(evals[..], ranked, chosen)
    modifies evals
    ensures forall i :: 0 <= i < evals.Length ==>
      evals[i] == old(evals[i]).(row := Marked(old(evals[..]), ranked, blocked, i))
  {
    ghost var built := evals[..];
    for i := 0 to evals.Length
      invariant forall j :: 0 <= j < i ==> evals[j] == built[j].(row := Marked(built, ranked, blocked, j))
      invariant forall j :: i <= j < evals.Length ==> evals[j] == built[j]
    {
      var ev := evals[i];
      if ev.row.triggered {
        var t := TypeOf(ev);
        if t !in chosen || chosen[t] != i {
          evals[i] := ev.(row := ev.row.(unfilled := Some(NotTopRanked)));
        } else if blocked.Some? {
          evals[i] := ev.(row := ev.row.(unfilled := blocked));
        }
      }
    }
  }

  /** Exactly one row per evaluated strike (none only when its audit row failed too), and each row
      says what happened to the strike. */
  ghost predicate RowsAccounted(before: Db, after: Db, evals: seq<Evaluated>, ranked: seq<nat>, now: Moment,
                                blocked: Option<UnfilledReason>, fates: map<OptionType, Fate>)
    requires IsRanking(evals, ranked)
  {
    && (forall id :: id in before.log ==> id in after.log && after.log[id] == before.log[id])
    && (forall id :: id in after.log && id !in before.log ==> exists i :: 0 <= i < |evals| && evals[i].id == id)
    && (forall i :: 0 <= i < |evals| ==> RowAccounted(after, evals, ranked, now, blocked, fates, i))
  }

  ghost predicate RowAccounted(after: Db, evals: seq<Evaluated>, ranked: seq<nat>, now: Moment,
                               blocked: Option<UnfilledReason>, fates: map<OptionType, Fate>, i: nat)
    requires i < |evals| && IsRanking(evals, ranked)
  {
    var id := evals[i].id;
    if !evals[i].row.triggered || !IsChosen(evals, ranked, i) || blocked.Some? then
      id in after.log && after.log[id] == Marked(evals, ranked, blocked, i)
    else
      TypeOf(evals[i]) in fates && FateRow(after, evals[i], now, fates[TypeOf(evals[i])])
  }
}
