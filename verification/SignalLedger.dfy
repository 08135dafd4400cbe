/** The signals track as its ledger is written, one open position at a time: entries and exits, and the two
    places where one of them may stop half way. */
module SignalLedger {
  import opened Wrappers
  import opened PaperLedger

  /** A ledger row; its id is its index. */
  datatype Row = Row(date: int, action: Action, key: Key, price: real, quantity: int, closed: bool)

  datatype Entry = Entry(tradeId: nat, signalDate: int, premium: real, tradeAction: string, ruleset: string,
                         vix: Option<real>)

  /** `soldFor` lists, sale row by sale row, the position whose exit wrote it. Nothing reads it back. */
  datatype Track = Track(rows: seq<Row>, entries: seq<Entry>, soldFor: seq<nat>)

  const Empty: Track := Track([], [], [])

  /** An entry, an exit that may stop between its sale row and the closing of the entry, or an entry that
      stops after its purchase row. */
  datatype Step =
    | Enter(date: int, key: Key, premium: real, quantity: int, tradeAction: string, ruleset: string, vix: Option<real>)
    | StrayBuy(date: int, key: Key, premium: real, quantity: int)
    | Exit(date: int, price: real, quantity: int, completes: bool)

  predicate IsClosed(s: Track, e: Entry) { e.tradeId < |s.rows| && s.rows[e.tradeId].closed }

  predicate AnyOpen(s: Track) { exists i :: 0 <= i < |s.entries| && !IsClosed(s, s.entries[i]) }

  predicate IsKey(r: Row, key: Key, date: int, action: Action) { r.key == key && r.date == date && r.action == action }

  /** The unique key of the ledger, for this strategy's one leg role. */
  predicate Taken(rows: seq<Row>, key: Key, date: int, action: Action) {
    exists i :: 0 <= i < |rows| && IsKey(rows[i], key, date, action)
  }

  function RowOf(rows: seq<Row>, key: Key, date: int, action: Action): (i: nat)
    requires Taken(rows, key, date, action)
    ensures i < |rows| && IsKey(rows[i], key, date, action)
  {
    if IsKey(rows[0], key, date, action) then 0
    else
      assert forall i :: 1 <= i < |rows| ==> rows[i] == rows[1..][i - 1];
      1 + RowOf(rows[1..], key, date, action)
  }

  /** An entry with the row as its purchase. */
  predicate Owned(s: Track, id: nat) { exists i :: 0 <= i < |s.entries| && s.entries[i].tradeId == id }

  /** The open entry with the highest trade id. */
  function OpenEntry(s: Track): Option<Entry> { LastOpen(s, s.entries) }

  function LastOpen(s: Track, entries: seq<Entry>): Option<Entry> {
    if entries == [] then None
    else
      var rest := LastOpen(s, entries[..|entries| - 1]);
      var e := entries[|entries| - 1];
      if IsClosed(s, e) || (rest.Some? && rest.value.tradeId >= e.tradeId) then rest else Some(e)
  }

  /** Closing a position closes every row of its contract. */
  function CloseKey(rows: seq<Row>, key: Key): (r: seq<Row>)
    ensures |r| == |rows|
    ensures forall i :: 0 <= i < |r| ==> r[i] == if rows[i].key == key then rows[i].(closed := true) else rows[i]
  {
    seq(|rows|, i requires 0 <= i < |rows| => if rows[i].key == key then rows[i].(closed := true) else rows[i])
  }

  function Purchase(step: Step): Row
    requires !step.Exit?
  {
    Row(step.date, BUY, step.key, step.premium, step.quantity, false)
  }

  function EntryOfStep(step: Step, id: nat): Entry
    requires step.Enter?
  {
    Entry(id, step.date, step.premium, step.tradeAction, step.ruleset, step.vix)
  }

  /** An entry takes over the row of its contract and date when there is one, unless an entry has it. */
  function DoEnter(s: Track, step: Step): Track
    requires step.Enter?
  {
    if AnyOpen(s) then s
    else if !Taken(s.rows, step.key, step.date, BUY) then
      s.(rows := s.rows + [Purchase(step)], entries := s.entries + [EntryOfStep(step, |s.rows|)])
    else
      var id := RowOf(s.rows, step.key, step.date, BUY);
      if Owned(s, id) then s else s.(entries := s.entries + [EntryOfStep(step, id)])
  }

  function Sold(s: Track, step: Step, id: nat): Track
    requires step.Exit? && id < |s.rows|
  {
    if Taken(s.rows, s.rows[id].key, step.date, SELL) then s
    else s.(rows := s.rows + [Row(step.date, SELL, s.rows[id].key, step.price, step.quantity, false)],
            soldFor := s.soldFor + [id])
  }

  function Do(s: Track, step: Step): Track {
    match step
    case Enter(_, _, _, _, _, _, _) => DoEnter(s, step)
    case StrayBuy(date, key, _, _) =>
      if AnyOpen(s) || Taken(s.rows, key, date, BUY) then s else s.(rows := s.rows + [Purchase(step)])
    case Exit(_, _, _, completes) =>
      if OpenEntry(s).None? || OpenEntry(s).value.tradeId >= |s.rows| then s
      else
        var id := OpenEntry(s).value.tradeId;
        var sold := Sold(s, step, id);
        if completes then sold.(rows := CloseKey(sold.rows, s.rows[id].key)) else sold
  }

  datatype Sale = Sale(id: nat, row: Row)

  function Sales(rows: seq<Row>): seq<Sale> {
    if rows == [] then []
    else Sales(rows[..|rows| - 1])
         + (if rows[|rows| - 1].action == SELL then [Sale(|rows| - 1, rows[|rows| - 1])] else [])
  }

  /** The open position already has its sale row: an exit stopped half way. */
  predicate HalfClosed(s: Track) {
    |s.entries| > 0 && !IsClosed(s, s.entries[|s.entries| - 1]) && |Sales(s.rows)| == |s.entries|
  }

  predicate Timely(s: Track, step: Step) { s.rows != [] ==> step.date >= s.rows[|s.rows| - 1].date }

  /** A history in which every exit writes exactly one sale row: days never run backwards, a half-done exit
      is finished on the date of its sale row, and no other exit repeats the contract and date of an
      earlier sale. Entries may stop half way as often as they like. */
  predicate Proper(s: Track, step: Step) {
    && Timely(s, step)
    && (step.Exit? && s.rows != [] && OpenEntry(s).Some? && OpenEntry(s).value.tradeId < |s.rows| ==>
          if HalfClosed(s) then step.date == s.rows[|s.rows| - 1].date
          else !Taken(s.rows, s.rows[OpenEntry(s).value.tradeId].key, step.date, SELL))
  }

  predicate ProperRun(s: Track, run: seq<Step>)
    decreases |run|
  {
    run == [] || (Proper(s, run[0]) && ProperRun(Do(s, run[0]), run[1..]))
  }

  function Final(s: Track, run: seq<Step>): Track
    decreases |run|
  {
    if run == [] then s else Final(Do(s, run[0]), run[1..])
  }

  // --- What every proper history keeps --------------------------------------------------

  predicate DatesSorted(rows: seq<Row>) { forall k, l :: 0 <= k < l < |rows| ==> rows[k].date <= rows[l].date }

  predicate BuysDistinct(rows: seq<Row>) {
    forall k, l :: 0 <= k < l < |rows| && rows[k].action == BUY && rows[l].action == BUY ==>
      rows[k].key != rows[l].key || rows[k].date != rows[l].date
  }

  /** The i-th entry taken has a purchase row of its date, and all but the last are closed. */
  predicate HasPurchase(s: Track, i: nat)
    requires i < |s.entries|
  {
    var id := s.entries[i].tradeId;
    && id < |s.rows| && s.rows[id].action == BUY && s.rows[id].date == s.entries[i].signalDate
    && (i < |s.entries| - 1 ==> s.rows[id].closed)
  }

  predicate EntriesInTurn(s: Track) {
    && (forall i :: 0 <= i < |s.entries| ==> HasPurchase(s, i))
    && (forall i, j :: 0 <= i < j < |s.entries| ==>
          s.entries[i].tradeId != s.entries[j].tradeId && s.entries[i].signalDate <= s.entries[j].signalDate)
  }

  predicate LastIsOpen(s: Track) { |s.entries| > 0 && !IsClosed(s, s.entries[|s.entries| - 1]) }

  /** The i-th sale row was written for the i-th entry; only an open entry may be without. */
  predicate SalesInTurn(s: Track) {
    && |Sales(s.rows)| == |s.soldFor| <= |s.entries|
    && (forall t :: 0 <= t < |s.soldFor| ==> s.soldFor[t] == s.entries[t].tradeId)
    && (|s.soldFor| == |s.entries| || (|s.soldFor| == |s.entries| - 1 && LastIsOpen(s)))
  }

  /** A purchase row that no entry has is not newer than an open position, and was closed only if its date
      is over. */
  predicate StraysAreOld(s: Track) {
    && (LastIsOpen(s) ==> forall k :: 0 <= k < |s.rows| && s.rows[k].action == BUY ==>
          s.rows[k].date <= s.entries[|s.entries| - 1].signalDate)
    && (forall k :: 0 <= k < |s.rows| && s.rows[k].action == BUY && s.rows[k].closed && !Owned(s, k) ==>
          s.rows[k].date < s.rows[|s.rows| - 1].date)
  }

  /** While half closed, the last row is the sale of the open position. */
  predicate HalfSaleIsLast(s: Track) {
    HalfClosed(s) && s.entries[|s.entries| - 1].tradeId < |s.rows| ==>
      var last := s.rows[|s.rows| - 1];
      last.action == SELL && last.key == s.rows[s.entries[|s.entries| - 1].tradeId].key
  }

  /** What every history keeps in which days never run backwards. */
  predicate Tidy(s: Track) { DatesSorted(s.rows) && BuysDistinct(s.rows) && EntriesInTurn(s) && StraysAreOld(s) }

  predicate Kept(s: Track) { Tidy(s) && SalesInTurn(s) && HalfSaleIsLast(s) }

  lemma {:induction false} NoneOpen(s: Track, entries: seq<Entry>)
    requires forall i :: 0 <= i < |entries| ==> IsClosed(s, entries[i])
    ensures LastOpen(s, entries).None?
  {
    if entries != [] {
      NoneOpen(s, entries[..|entries| - 1]);
    }
  }

  /** Only the last entry can be open. */
  lemma OpenIsLast(s: Track)
    requires EntriesInTurn(s)
    ensures AnyOpen(s) <==> LastIsOpen(s)
    ensures OpenEntry(s) == if AnyOpen(s) then Some(s.entries[|s.entries| - 1]) else None
  {
    var n := |s.entries|;
    forall i | 0 <= i < n - 1 ensures IsClosed(s, s.entries[i]) {
      assert HasPurchase(s, i);
    }
    if n > 0 {
      NoneOpen(s, s.entries[..n - 1]);
    }
  }

  lemma SalesOfAppend(rows: seq<Row>, row: Row)
    ensures Sales(rows + [row]) == Sales(rows) + (if row.action == SELL then [Sale(|rows|, row)] else [])
  {
    assert (rows + [row])[..|rows|] == rows;
  }

  /** Closing changes neither number nor place of the sale rows. */
  lemma {:induction false} SalesOfClosed(rows: seq<Row>, key: Key)
    ensures |Sales(CloseKey(rows, key))| == |Sales(rows)|
  {
    if rows != [] {
      var n := |rows| - 1;
      SalesOfClosed(rows[..n], key);
      assert CloseKey(rows, key)[..n] == CloseKey(rows[..n], key);
    }
  }

  // --- Entries ------------------------------------------------------------------------

  lemma RowsGrow(rows: seq<Row>, row: Row)
    requires DatesSorted(rows) && BuysDistinct(rows) && (rows != [] ==> row.date >= rows[|rows| - 1].date)
    requires row.action == BUY ==> !Taken(rows, row.key, row.date, BUY)
    ensures DatesSorted(rows + [row]) && BuysDistinct(rows + [row])
  {
    forall k | 0 <= k < |rows| && rows[k].action == BUY && row.action == BUY
      ensures rows[k].key != row.key || rows[k].date != row.date
    {
      assert !IsKey(rows[k], row.key, row.date, BUY);
    }
  }

  /** A row more changes nothing for the entries. */
  lemma EntriesStay(s: Track, row: Row, soldFor: seq<nat>)
    requires EntriesInTurn(s)
    ensures var b := Track(s.rows + [row], s.entries, soldFor);
      && EntriesInTurn(b) && (LastIsOpen(b) <==> LastIsOpen(s)) && (AnyOpen(b) <==> AnyOpen(s))
      && !Owned(b, |s.rows|) && (forall k :: Owned(b, k) <==> Owned(s, k))
  {
    var b := Track(s.rows + [row], s.entries, soldFor);
    forall i | 0 <= i < |s.entries|
      ensures HasPurchase(b, i) && IsClosed(b, b.entries[i]) == IsClosed(s, s.entries[i])
    {
      assert HasPurchase(s, i);
    }
    OpenIsLast(s);
    OpenIsLast(b);
    forall i | 0 <= i < |b.entries| ensures b.entries[i].tradeId != |s.rows| {
      assert HasPurchase(s, i);
    }
  }

  /** A new purchase row, owned or not, when nothing is open. */
  lemma AppendTidy(s: Track, row: Row)
    requires Tidy(s) && !AnyOpen(s) && row.action == BUY && !row.closed
    requires s.rows != [] ==> row.date >= s.rows[|s.rows| - 1].date
    requires !Taken(s.rows, row.key, row.date, BUY)
    ensures var b := s.(rows := s.rows + [row]); Tidy(b) && !AnyOpen(b) && !Owned(b, |s.rows|)
  {
    OpenIsLast(s);
    RowsGrow(s.rows, row);
    EntriesStay(s, row, s.soldFor);
  }

  lemma AppendKeeps(s: Track, row: Row)
    requires Kept(s) && !AnyOpen(s) && row.action == BUY && !row.closed
    requires s.rows != [] ==> row.date >= s.rows[|s.rows| - 1].date
    requires !Taken(s.rows, row.key, row.date, BUY)
    ensures Kept(s.(rows := s.rows + [row]))
  {
    AppendTidy(s, row);
    OpenIsLast(s);
    OpenIsLast(s.(rows := s.rows + [row]));
    SalesOfAppend(s.rows, row);
  }

  lemma TakenOverEntries(s: Track, e: Entry)
    requires EntriesInTurn(s) && !AnyOpen(s) && !Owned(s, e.tradeId) && DatesSorted(s.rows)
    requires e.tradeId < |s.rows| && s.rows[e.tradeId].action == BUY && s.rows[e.tradeId].date == e.signalDate
    requires e.signalDate == s.rows[|s.rows| - 1].date
    ensures var b := s.(entries := s.entries + [e]);
      EntriesInTurn(b) && (forall k :: Owned(s, k) ==> Owned(b, k))
  {
    var b := s.(entries := s.entries + [e]);
    forall i | 0 <= i < |s.entries| ensures HasPurchase(b, i) && s.entries[i].signalDate <= e.signalDate {
      assert HasPurchase(s, i) && IsClosed(s, s.entries[i]);
      assert s.entries[i].tradeId < |s.rows| - 1 ==> s.rows[s.entries[i].tradeId].date <= s.rows[|s.rows| - 1].date;
    }
    assert HasPurchase(b, |s.entries|);
    forall k | Owned(s, k) ensures Owned(b, k) {
      var i :| 0 <= i < |s.entries| && s.entries[i].tradeId == k;
      assert b.entries[i].tradeId == k;
    }
  }

  /** Taking over a purchase row of the day that no entry has. */
  lemma TakeOverKeeps(s: Track, step: Step, id: nat)
    requires Tidy(s) && !AnyOpen(s) && step.Enter? && !Owned(s, id)
    requires id < |s.rows| && s.rows[id].action == BUY && s.rows[id].date == step.date
    requires step.date >= s.rows[|s.rows| - 1].date
    ensures var b := s.(entries := s.entries + [EntryOfStep(step, id)]);
      Tidy(b) && LastIsOpen(b) && (Kept(s) ==> Kept(b))
  {
    OpenIsLast(s);
    assert s.rows[id].date <= s.rows[|s.rows| - 1].date;
    TakenOverEntries(s, EntryOfStep(step, id));
    assert !s.rows[id].closed;
    DatesUpTo(s.rows, step.date);
  }

  lemma DatesUpTo(rows: seq<Row>, date: int)
    requires DatesSorted(rows) && rows != [] && rows[|rows| - 1].date == date
    ensures forall k :: 0 <= k < |rows| ==> rows[k].date <= date
  {
    forall k | 0 <= k < |rows| ensures rows[k].date <= date {
      assert k == |rows| - 1 || rows[k].date <= rows[|rows| - 1].date;
    }
  }

  lemma NewEntryKeeps(s: Track, step: Step)
    requires Tidy(s) && !AnyOpen(s) && step.Enter? && !Taken(s.rows, step.key, step.date, BUY) && Timely(s, step)
    ensures var b := s.(rows := s.rows + [Purchase(step)], entries := s.entries + [EntryOfStep(step, |s.rows|)]);
      Tidy(b) && LastIsOpen(b) && (Kept(s) ==> Kept(b))
  {
    AppendTidy(s, Purchase(step));
    if Kept(s) { AppendKeeps(s, Purchase(step)); }
    TakeOverKeeps(s.(rows := s.rows + [Purchase(step)]), step, |s.rows|);
  }

  lemma EnterKeeps(s: Track, step: Step)
    requires Tidy(s) && Timely(s, step) && step.Enter?
    ensures Tidy(Do(s, step)) && (Kept(s) ==> Kept(Do(s, step)))
  {
    if !AnyOpen(s) {
      if !Taken(s.rows, step.key, step.date, BUY) {
        NewEntryKeeps(s, step);
      } else {
        var id := RowOf(s.rows, step.key, step.date, BUY);
        if !Owned(s, id) { TakeOverKeeps(s, step, id); }
      }
    }
  }

  // --- Exits --------------------------------------------------------------------------

  /** A sale row for the open position that has none yet. */
  lemma SaleKeeps(s: Track, row: Row)
    requires Kept(s) && LastIsOpen(s) && |s.soldFor| == |s.entries| - 1 && s.rows != []
    requires row.action == SELL && row.date >= s.rows[|s.rows| - 1].date
    requires s.entries[|s.entries| - 1].tradeId < |s.rows|
    requires row.key == s.rows[s.entries[|s.entries| - 1].tradeId].key
    ensures var b := s.(rows := s.rows + [row], soldFor := s.soldFor + [s.entries[|s.entries| - 1].tradeId]);
      Kept(b) && LastIsOpen(b) && |b.soldFor| == |b.entries|
  {
    SalesOfAppend(s.rows, row);
    RowsGrow(s.rows, row);
    EntriesStay(s, row, s.soldFor + [s.entries[|s.entries| - 1].tradeId]);
  }

  lemma ClosedEntriesStay(s: Track, key: Key)
    requires EntriesInTurn(s)
    ensures EntriesInTurn(s.(rows := CloseKey(s.rows, key)))
  {
    forall i | 0 <= i < |s.entries| ensures HasPurchase(s.(rows := CloseKey(s.rows, key)), i) {
      assert HasPurchase(s, i);
    }
  }

  /** Closing the open position once it has its sale row. */
  lemma CloseKeeps(s: Track)
    requires Kept(s) && LastIsOpen(s) && |s.soldFor| == |s.entries|
    ensures var id := s.entries[|s.entries| - 1].tradeId;
      id < |s.rows| && Kept(s.(rows := CloseKey(s.rows, s.rows[id].key)))
  {
    var id := s.entries[|s.entries| - 1].tradeId;
    assert HasPurchase(s, |s.entries| - 1);
    var key := s.rows[id].key;
    SalesOfClosed(s.rows, key);
    ClosedEntriesStay(s, key);
    ClosedStraysAreOld(s, id);
    assert !LastIsOpen(s.(rows := CloseKey(s.rows, key)));
  }

  /** Rows that a close shuts beside the position's own are of earlier dates. */
  lemma ClosedStraysAreOld(s: Track, id: nat)
    requires Tidy(s) && LastIsOpen(s) && id == s.entries[|s.entries| - 1].tradeId < |s.rows|
    ensures var rows := CloseKey(s.rows, s.rows[id].key);
      forall k :: 0 <= k < |rows| && rows[k].action == BUY && rows[k].closed && !Owned(s.(rows := rows), k) ==>
        rows[k].date < rows[|rows| - 1].date
  {
    var rows := CloseKey(s.rows, s.rows[id].key);
    assert HasPurchase(s, |s.entries| - 1);
    forall k | 0 <= k < |rows| && rows[k].action == BUY && rows[k].closed && !Owned(s.(rows := rows), k)
      ensures rows[k].date < rows[|rows| - 1].date
    {
      assert k != id && !Owned(s, k);
      assert s.rows[id].date <= s.rows[|s.rows| - 1].date;
      if !s.rows[k].closed {
        assert s.rows[k].key == s.rows[id].key && s.rows[k].date <= s.rows[id].date;
        assert s.rows[k].date != s.rows[id].date;
      }
    }
  }

  /** What an exit does: the sale row unless the position has it, then the close. */
  lemma ExitShape(s: Track, step: Step)
    requires Tidy(s) && AnyOpen(s) && step.Exit?
    ensures LastIsOpen(s) && s.rows != []
    ensures var id := s.entries[|s.entries| - 1].tradeId;
      && id < |s.rows| && OpenEntry(s) == Some(s.entries[|s.entries| - 1])
      && Do(s, step) == (var sold := Sold(s, step, id);
                         if step.completes then sold.(rows := CloseKey(sold.rows, s.rows[id].key)) else sold)
  {
    OpenIsLast(s);
    assert HasPurchase(s, |s.entries| - 1);
  }

  lemma ExitKeeps(s: Track, step: Step)
    requires Kept(s) && Proper(s, step) && step.Exit?
    ensures Kept(Do(s, step))
  {
    OpenIsLast(s);
    if AnyOpen(s) {
      ExitShape(s, step);
      var id := s.entries[|s.entries| - 1].tradeId;
      if HalfClosed(s) {
        SoldOnItsDate(s, s.rows[id].key, step.date);
        CloseKeeps(s);
      } else {
        var row := Row(step.date, SELL, s.rows[id].key, step.price, step.quantity, false);
        SaleKeeps(s, row);
        CloseKeeps(s.(rows := s.rows + [row], soldFor := s.soldFor + [id]));
      }
    }
  }

  lemma StepKeeps(s: Track, step: Step)
    requires Kept(s) && Proper(s, step)
    ensures Kept(Do(s, step))
  {
    if step.Enter? {
      EnterKeeps(s, step);
    } else if step.Exit? {
      ExitKeeps(s, step);
    } else if !AnyOpen(s) && !Taken(s.rows, step.key, step.date, BUY) {
      AppendKeeps(s, Purchase(step));
    }
  }

  lemma {:induction false} RunKeeps(s: Track, run: seq<Step>)
    requires Kept(s) && ProperRun(s, run)
    ensures Kept(Final(s, run))
    decreases |run|
  {
    if run != [] {
      StepKeeps(s, run[0]);
      RunKeeps(Do(s, run[0]), run[1..]);
    }
  }

  /** The condition on exits is exact: an exit leaves one sale row for each entry only when it is proper. */
  lemma ExitWritesOneSaleIff(s: Track, step: Step)
    requires Kept(s) && AnyOpen(s) && step.Exit? && s.rows != []
    requires step.date >= s.rows[|s.rows| - 1].date
    ensures |Sales(Do(s, step).rows)| == |Do(s, step).entries| <==> Proper(s, step)
  {
    ExitShape(s, step);
    var id := s.entries[|s.entries| - 1].tradeId;
    var sold := Sold(s, step, id);
    SalesOfAppend(s.rows, Row(step.date, SELL, s.rows[id].key, step.price, step.quantity, false));
    SalesOfClosed(sold.rows, s.rows[id].key);
    if HalfClosed(s) { SoldOnItsDate(s, s.rows[id].key, step.date); }
  }

  /** While half closed, the contract was sold on a date not yet over only if that is the date of the last row. */
  lemma SoldOnItsDate(s: Track, key: Key, date: int)
    requires Kept(s) && HalfClosed(s) && s.rows != [] && date >= s.rows[|s.rows| - 1].date
    requires s.entries[|s.entries| - 1].tradeId < |s.rows| && key == s.rows[s.entries[|s.entries| - 1].tradeId].key
    ensures Taken(s.rows, key, date, SELL) <==> date == s.rows[|s.rows| - 1].date
  {
    var last := |s.rows| - 1;
    if Taken(s.rows, key, date, SELL) {
      var k := RowOf(s.rows, key, date, SELL);
      assert k < last ==> s.rows[k].date <= s.rows[last].date;
    }
    if date == s.rows[last].date {
      assert IsKey(s.rows[last], key, date, SELL);
    }
  }

  // --- Exits that lose count --------------------------------------------------------------

  /** The open position has a sale row already. */
  predicate SoldYet(s: Track) { LastIsOpen(s) && s.entries[|s.entries| - 1].tradeId in s.soldFor }

  /** The store skips a sale row of the open position on this date. */
  predicate SaleTaken(s: Track, date: int) {
    LastIsOpen(s) && s.entries[|s.entries| - 1].tradeId < |s.rows|
    && Taken(s.rows, s.rows[s.entries[|s.entries| - 1].tradeId].key, date, SELL)
  }

  /** An exit taken up on another date than that of its sale row: the position gets a second one. */
  predicate SellsAgain(s: Track, step: Step) { step.Exit? && SoldYet(s) && !SaleTaken(s, step.date) }

  /** An exit that closes a position whose sale row the store skips. */
  predicate ClosesUnsold(s: Track, step: Step) {
    step.Exit? && step.completes && LastIsOpen(s) && !SoldYet(s) && SaleTaken(s, step.date)
  }

  /** A step in date order that does neither. */
  predicate Clean(s: Track, step: Step) { Timely(s, step) && !SellsAgain(s, step) && !ClosesUnsold(s, step) }

  predicate CleanRun(s: Track, run: seq<Step>)
    decreases |run|
  {
    run == [] || (Clean(s, run[0]) && CleanRun(Do(s, run[0]), run[1..]))
  }

  lemma SoldYetIffHalfClosed(s: Track)
    requires Kept(s)
    ensures SoldYet(s) <==> HalfClosed(s)
  {
    if SoldYet(s) {
      var t :| 0 <= t < |s.soldFor| && s.soldFor[t] == s.entries[|s.entries| - 1].tradeId;
      assert s.entries[t].tradeId == s.entries[|s.entries| - 1].tradeId;
    }
    if HalfClosed(s) {
      assert s.soldFor[|s.soldFor| - 1] == s.entries[|s.entries| - 1].tradeId;
    }
  }

  /** A clean step is proper or does nothing. */
  lemma CleanIsProper(s: Track, step: Step)
    requires Kept(s) && Clean(s, step)
    ensures Proper(s, step) || Do(s, step) == s
  {
    OpenIsLast(s);
    if step.Exit? && AnyOpen(s) {
      ExitShape(s, step);
      SoldYetIffHalfClosed(s);
      if HalfClosed(s) { SoldOnItsDate(s, s.rows[s.entries[|s.entries| - 1].tradeId].key, step.date); }
    }
  }

  lemma CleanKeeps(s: Track, step: Step)
    requires Kept(s) && Clean(s, step)
    ensures Kept(Do(s, step))
  {
    CleanIsProper(s, step);
    if Proper(s, step) { StepKeeps(s, step); }
  }

  lemma {:induction false} CleanRunKeeps(s: Track, run: seq<Step>)
    requires Kept(s) && CleanRun(s, run)
    ensures Kept(Final(s, run))
    decreases |run|
  {
    if run != [] {
      CleanKeeps(s, run[0]);
      CleanRunKeeps(Do(s, run[0]), run[1..]);
    }
  }

  /** Proper histories are clean. */
  lemma {:induction false} ProperIsClean(s: Track, run: seq<Step>)
    requires Kept(s) && ProperRun(s, run)
    ensures CleanRun(s, run)
    decreases |run|
  {
    if run != [] {
      ProperStepIsClean(s, run[0]);
      StepKeeps(s, run[0]);
      ProperIsClean(Do(s, run[0]), run[1..]);
    }
  }

  lemma ProperStepIsClean(s: Track, step: Step)
    requires Kept(s) && Proper(s, step)
    ensures Clean(s, step)
  {
    OpenIsLast(s);
    if step.Exit? && AnyOpen(s) {
      ExitShape(s, step);
      SoldYetIffHalfClosed(s);
      if HalfClosed(s) { SoldOnItsDate(s, s.rows[s.entries[|s.entries| - 1].tradeId].key, step.date); }
    }
  }
}
