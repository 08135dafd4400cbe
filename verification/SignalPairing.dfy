/** The signals track as the report reads it back: closed entries and sale rows, each in date order, paired
    position by position; and when every entry is paired with its own sale. */
module SignalPairing {
  import opened Wrappers
  import opened PaperLedger
  import opened SignalLedger

  function ClosedEntries(s: Track, entries: seq<Entry>): seq<Entry> {
    if entries == [] then []
    else ClosedEntries(s, entries[..|entries| - 1])
         + (if IsClosed(s, entries[|entries| - 1]) then [entries[|entries| - 1]] else [])
  }

  /** ORDER BY date, id. */
  predicate Before(a: (int, int), b: (int, int)) { a.0 < b.0 || (a.0 == b.0 && a.1 < b.1) }

  ghost predicate Ordered<T(!new)>(q: seq<T>, at: T -> (int, int)) {
    forall i, j :: 0 <= i < j < |q| ==> Before(at(q[i]), at(q[j]))
  }

  /** A query result: the selected rows in order. */
  ghost predicate Answers<T(!new)>(q: seq<T>, rows: seq<T>, at: T -> (int, int)) {
    multiset(q) == multiset(rows) && Ordered(q, at)
  }

  lemma SameFirst<T(!new)>(a: seq<T>, b: seq<T>, at: T -> (int, int))
    requires Ordered(a, at) && Ordered(b, at) && multiset(a) == multiset(b) && a != [] && b != []
    ensures a[0] == b[0]
  {
    assert a[0] in multiset(b) && b[0] in multiset(a);
    var i :| 0 <= i < |b| && b[i] == a[0];
    var j :| 0 <= j < |a| && a[j] == b[0];
    assert i == 0 || Before(at(b[0]), at(b[i]));
    assert j == 0 || Before(at(a[0]), at(a[j]));
  }

  lemma SameRest<T(!new)>(a: seq<T>, b: seq<T>)
    requires a != [] && b != [] && a[0] == b[0] && multiset(a) == multiset(b)
    ensures multiset(a[1..]) == multiset(b[1..])
  {
    assert a == [a[0]] + a[1..] && b == [b[0]] + b[1..];
    assert multiset(a[1..]) == multiset(a) - multiset{a[0]};
    assert multiset(b[1..]) == multiset(b) - multiset{b[0]};
  }

  lemma {:induction false} AnswerIsUnique<T(!new)>(a: seq<T>, b: seq<T>, at: T -> (int, int))
    requires Ordered(a, at) && Ordered(b, at) && multiset(a) == multiset(b)
    ensures a == b
  {
    assert |a| == |multiset(a)| == |multiset(b)| == |b|;
    if a != [] {
      SameFirst(a, b, at);
      SameRest(a, b);
      AnswerIsUnique(a[1..], b[1..], at);
      assert a == [a[0]] + a[1..] && b == [b[0]] + b[1..];
    }
  }

  function EntryPlace(e: Entry): (int, int) { (e.signalDate, e.tradeId) }

  function SalePlace(s: Sale): (int, int) { (s.row.date, s.id) }

  /** The two queries of the report. */
  ghost predicate QueryAnswers(s: Track, entries: seq<Entry>, sales: seq<Sale>) {
    Answers(entries, ClosedEntries(s, s.entries), EntryPlace) && Answers(sales, Sales(s.rows), SalePlace)
  }

  lemma {:induction false} SalesAreRows(rows: seq<Row>)
    ensures forall t :: 0 <= t < |Sales(rows)| ==>
      Sales(rows)[t].id < |rows| && Sales(rows)[t].row == rows[Sales(rows)[t].id]
    ensures forall t, u :: 0 <= t < u < |Sales(rows)| ==> Sales(rows)[t].id < Sales(rows)[u].id
  {
    if rows != [] {
      SalesAreRows(rows[..|rows| - 1]);
    }
  }

  lemma SalesOrdered(rows: seq<Row>)
    requires DatesSorted(rows)
    ensures Ordered(Sales(rows), SalePlace)
  {
    SalesAreRows(rows);
    var q := Sales(rows);
    forall t, u | 0 <= t < u < |q| ensures Before(SalePlace(q[t]), SalePlace(q[u])) {
      assert rows[q[t].id].date <= rows[q[u].id].date;
    }
  }

  lemma {:induction false} AllClosed(s: Track, entries: seq<Entry>)
    requires forall i :: 0 <= i < |entries| ==> IsClosed(s, entries[i])
    ensures ClosedEntries(s, entries) == entries
  {
    if entries != [] {
      var init, e := entries[..|entries| - 1], entries[|entries| - 1];
      AllClosed(s, init);
      assert IsClosed(s, e) && entries == init + [e];
    }
  }

  /** The closed entries are all but an open last one, in the order they were taken. */
  function Done(s: Track): seq<Entry> { if LastIsOpen(s) then s.entries[..|s.entries| - 1] else s.entries }

  lemma ClosedAreDone(s: Track)
    requires EntriesInTurn(s)
    ensures ClosedEntries(s, s.entries) == Done(s)
  {
    var n := |s.entries|;
    forall i | 0 <= i < n - 1 ensures IsClosed(s, s.entries[i]) {
      assert HasPurchase(s, i);
    }
    if n > 0 {
      AllClosed(s, s.entries[..n - 1]);
    }
  }

  /** The sale row that the exit of the entry's position wrote. */
  ghost predicate OwnSale(s: Track, e: Entry, sale: Sale) {
    exists t :: 0 <= t < |s.soldFor| && t < |Sales(s.rows)| && s.soldFor[t] == e.tradeId && Sales(s.rows)[t] == sale
  }

  ghost predicate AllPaired(s: Track, entries: seq<Entry>, sales: seq<Sale>) {
    |entries| <= |sales| && forall i :: 0 <= i < |entries| ==> OwnSale(s, entries[i], sales[i])
  }

  /** The i-th entry taken owns the i-th sale and no other. */
  lemma OwnSaleIsIth(s: Track, i: nat, sale: Sale)
    requires Kept(s) && i < |Done(s)|
    ensures i < |Sales(s.rows)| && (OwnSale(s, Done(s)[i], sale) <==> sale == Sales(s.rows)[i])
  {
    assert s.soldFor[i] == s.entries[i].tradeId;
    if OwnSale(s, Done(s)[i], sale) {
      var t :| 0 <= t < |s.soldFor| && s.soldFor[t] == Done(s)[i].tradeId && Sales(s.rows)[t] == sale;
      assert s.entries[t].tradeId == s.entries[i].tradeId;
    }
  }

  /** In the order the entries were taken, every one meets its own sale. */
  lemma InTurnPairs(s: Track, sales: seq<Sale>)
    requires Kept(s) && sales == Sales(s.rows)
    ensures AllPaired(s, Done(s), sales)
  {
    forall i | 0 <= i < |Done(s)| ensures OwnSale(s, Done(s)[i], sales[i]) {
      OwnSaleIsIth(s, i, sales[i]);
    }
  }

  /** In any other order some entry meets the sale of another. */
  lemma OutOfTurnMispairs(s: Track, entries: seq<Entry>, sales: seq<Sale>)
    requires Kept(s) && sales == Sales(s.rows) && entries != Done(s)
    requires multiset(entries) == multiset(Done(s))
    ensures !AllPaired(s, entries, sales)
  {
    assert |entries| == |multiset(entries)| == |Done(s)|;
    var i :| 0 <= i < |entries| && entries[i] != Done(s)[i];
    assert entries[i] in multiset(Done(s));
    var j :| 0 <= j < |Done(s)| && Done(s)[j] == entries[i];
    OwnSaleIsIth(s, j, sales[i]);
    SalesAreRows(s.rows);
    assert i < |Sales(s.rows)| && sales[i].id != sales[j].id;
  }

  /** Over a kept ledger the pairing is right exactly when the entries were taken in the order in which the
      report lists them; the lists differ in length exactly while a position is half closed. */
  lemma PairedIffOrdered(s: Track, entries: seq<Entry>, sales: seq<Sale>)
    requires Kept(s) && QueryAnswers(s, entries, sales)
    ensures |entries| == |sales| <==> !HalfClosed(s)
    ensures AllPaired(s, entries, sales) <==> Ordered(Done(s), EntryPlace)
  {
    ClosedAreDone(s);
    SalesOrdered(s.rows);
    AnswerIsUnique(sales, Sales(s.rows), SalePlace);
    assert |entries| == |multiset(entries)| == |Done(s)|;
    if Ordered(Done(s), EntryPlace) {
      AnswerIsUnique(entries, Done(s), EntryPlace);
      InTurnPairs(s, sales);
    } else {
      OutOfTurnMispairs(s, entries, sales);
    }
  }

  // --- The step that breaks the order ---------------------------------------------------

  /** Visible before the step: an entry that takes over a purchase row, left by an entry that stopped half
      way, although an entry of the same date has a later one. */
  predicate TakesOverBehind(s: Track, step: Step) {
    && step.Enter? && !AnyOpen(s) && Taken(s.rows, step.key, step.date, BUY)
    && var id := RowOf(s.rows, step.key, step.date, BUY);
       !Owned(s, id)
       && exists i :: 0 <= i < |s.entries| && s.entries[i].signalDate == step.date && s.entries[i].tradeId > id
  }

  lemma OneMoreOrdered(entries: seq<Entry>, e: Entry)
    requires forall i :: 0 <= i < |entries| ==> entries[i].signalDate <= e.signalDate && entries[i].tradeId != e.tradeId
    ensures Ordered(entries + [e], EntryPlace) <==>
      Ordered(entries, EntryPlace)
      && !(exists i :: 0 <= i < |entries| && entries[i].signalDate == e.signalDate && entries[i].tradeId > e.tradeId)
  {
    var q := entries + [e];
    if Ordered(q, EntryPlace) {
      forall i | 0 <= i < |entries| ensures entries[i].signalDate == e.signalDate ==> entries[i].tradeId < e.tradeId {
        assert Before(EntryPlace(q[i]), EntryPlace(q[|entries|]));
      }
      forall i, j | 0 <= i < j < |entries| ensures Before(EntryPlace(entries[i]), EntryPlace(entries[j])) {
        assert Before(EntryPlace(q[i]), EntryPlace(q[j]));
      }
    }
  }

  /** One step keeps the order of the entries exactly when it does not take over behind. */
  lemma StepKeepsOrderIff(s: Track, step: Step)
    requires Kept(s) && Clean(s, step)
    ensures Ordered(Do(s, step).entries, EntryPlace)
       <==> Ordered(s.entries, EntryPlace) && !TakesOverBehind(s, step)
  {
    if step.Enter? && !AnyOpen(s) {
      var taken := Taken(s.rows, step.key, step.date, BUY);
      var id := if taken then RowOf(s.rows, step.key, step.date, BUY) else |s.rows|;
      EarlierEntries(s, step.date);
      if !Owned(s, id) { OneMoreOrdered(s.entries, EntryOfStep(step, id)); }
    }
  }

  lemma EarlierEntries(s: Track, date: int)
    requires Kept(s) && (s.rows != [] ==> date >= s.rows[|s.rows| - 1].date)
    ensures forall i :: 0 <= i < |s.entries| ==> s.entries[i].signalDate <= date && s.entries[i].tradeId < |s.rows|
    ensures !Owned(s, |s.rows|)
  {
    forall i | 0 <= i < |s.entries| ensures s.entries[i].signalDate <= date && s.entries[i].tradeId < |s.rows| {
      assert HasPurchase(s, i);
      DatesUpTo(s.rows, s.rows[|s.rows| - 1].date);
    }
  }

  predicate NoneBehind(s: Track, run: seq<Step>)
    decreases |run|
  {
    run == [] || (!TakesOverBehind(s, run[0]) && NoneBehind(Do(s, run[0]), run[1..]))
  }

  lemma {:induction false} RunKeepsOrderIff(s: Track, run: seq<Step>)
    requires Kept(s) && CleanRun(s, run)
    ensures Ordered(Final(s, run).entries, EntryPlace) <==> Ordered(s.entries, EntryPlace) && NoneBehind(s, run)
    decreases |run|
  {
    if run != [] {
      CleanKeeps(s, run[0]);
      StepKeepsOrderIff(s, run[0]);
      RunKeepsOrderIff(Do(s, run[0]), run[1..]);
    }
  }

  /** The length of the longest prefix of the run after which no position is open. */
  function Idle(s: Track, run: seq<Step>): (n: nat)
    ensures n <= |run|
    decreases |run|
  {
    if run == [] then 0
    else
      var rest := Idle(Do(s, run[0]), run[1..]);
      if rest > 0 || !AnyOpen(Do(s, run[0])) then rest + 1 else 0
  }

  /** Over every proper history, with any number of entries that stopped half way: the lists differ in length
      exactly while a position is half closed, and every closed entry is paired with its own sale exactly when
      no entry took over a row behind, the entry of a position still open apart. */
  lemma PairingIsSoundIff(run: seq<Step>, entries: seq<Entry>, sales: seq<Sale>)
    requires CleanRun(Empty, run) && QueryAnswers(Final(Empty, run), entries, sales)
    ensures var s := Final(Empty, run);
      && (|entries| == |sales| <==> !HalfClosed(s))
      && (AllPaired(s, entries, sales) <==> NoneBehind(Empty, run[..Idle(Empty, run)]))
      && (!AnyOpen(s) ==> Idle(Empty, run) == |run|)
  {
    assert Kept(Empty);
    PairedFrom(Empty, run, entries, sales);
    if !AnyOpen(Final(Empty, run)) { IdleAtEnd(Empty, run); }
  }

  lemma PairedFrom(start: Track, run: seq<Step>, entries: seq<Entry>, sales: seq<Sale>)
    requires Kept(start) && start.entries == [] && CleanRun(start, run)
    requires QueryAnswers(Final(start, run), entries, sales)
    ensures |entries| == |sales| <==> !HalfClosed(Final(start, run))
    ensures AllPaired(Final(start, run), entries, sales) <==> NoneBehind(start, run[..Idle(start, run)])
  {
    CleanRunKeeps(start, run);
    PairedIffOrdered(Final(start, run), entries, sales);
    DoneWhenIdle(start, run);
    CleanPrefix(start, run, Idle(start, run));
    RunKeepsOrderIff(start, run[..Idle(start, run)]);
  }

  /** The entries settled at the end of a run are those of the last moment at which nothing was open. */
  lemma {:induction false} DoneWhenIdle(s: Track, run: seq<Step>)
    requires Kept(s) && CleanRun(s, run)
    ensures if Idle(s, run) == 0 && AnyOpen(s) then Final(s, run).entries == s.entries && AnyOpen(Final(s, run))
            else Done(Final(s, run)) == Final(s, run[..Idle(s, run)]).entries
    decreases |run|
  {
    if run == [] {
      OpenIsLast(s);
    } else {
      var n, next := Idle(s, run), Do(s, run[0]);
      CleanKeeps(s, run[0]);
      DoneWhenIdle(next, run[1..]);
      if n > 0 {
        assert run[..n][1..] == run[1..][..n - 1];
      } else {
        CleanRunKeeps(next, run[1..]);
        DoneSinceOpened(s, run[0], Final(next, run[1..]));
      }
    }
  }

  /** From the step that opens a position until it closes, the settled entries are those before the step. */
  lemma DoneSinceOpened(s: Track, step: Step, later: Track)
    requires Kept(s) && Kept(later) && AnyOpen(Do(s, step)) && AnyOpen(later) && later.entries == Do(s, step).entries
    ensures if AnyOpen(s) then later.entries == s.entries else Done(later) == s.entries
  {
    OneEntryOpens(s, step);
    OpenIsLast(later);
  }

  /** Entries only come when nothing is open, one at a time. */
  lemma OneEntryOpens(s: Track, step: Step)
    requires Tidy(s)
    ensures AnyOpen(s) ==> Do(s, step).entries == s.entries
    ensures !AnyOpen(s) && AnyOpen(Do(s, step)) ==>
      |Do(s, step).entries| == |s.entries| + 1 && Do(s, step).entries[..|s.entries|] == s.entries
  {
    if !AnyOpen(s) && Do(s, step).entries == s.entries {
      forall i | 0 <= i < |s.entries| ensures IsClosed(Do(s, step), s.entries[i]) {
        assert IsClosed(s, s.entries[i]);
      }
    }
  }

  lemma {:induction false} CleanPrefix(s: Track, run: seq<Step>, n: nat)
    requires CleanRun(s, run) && n <= |run|
    ensures CleanRun(s, run[..n])
    decreases |run|
  {
    if n > 0 {
      CleanPrefix(Do(s, run[0]), run[1..], n - 1);
      assert run[..n][1..] == run[1..][..n - 1];
    }
  }

  lemma {:induction false} IdleAtEnd(s: Track, run: seq<Step>)
    requires !AnyOpen(Final(s, run))
    ensures Idle(s, run) == |run|
    decreases |run|
  {
    if run != [] {
      IdleAtEnd(Do(s, run[0]), run[1..]);
    }
  }

  // --- Such a step happens ----------------------------------------------------------------

  const BUY_A: Row := Row(1, BUY, "a", 10.0, 65, false)
  const BUY_B: Row := Row(1, BUY, "b", 20.0, 65, false)
  const SELL_B: Row := Row(1, SELL, "b", 25.0, 65, false)
  const ENTRY_B: Entry := Entry(1, 1, 20.0, "CE", "v1", None)
  const AFTER_B: Track :=
    Track([BUY_A, BUY_B.(closed := true), SELL_B.(closed := true)], [ENTRY_B], [1])
  const AGAIN: Step := Enter(1, "a", 10.0, 65, "PE", "v1", None)
  const STRAY_A: Step := StrayBuy(1, "a", 10.0, 65)
  const ENTER_B: Step := Enter(1, "b", 20.0, 65, "CE", "v1", None)
  const EXIT_B: Step := Exit(1, 25.0, 65, true)

  lemma BoughtBoth()
    ensures Do(Track([BUY_A], [], []), ENTER_B) == Track([BUY_A, BUY_B], [ENTRY_B], [])
    ensures Do(Empty, STRAY_A) == Track([BUY_A], [], [])
  {
    assert "a"[0] != "b"[0];
    assert [BUY_A] + [BUY_B] == [BUY_A, BUY_B] && [] + [ENTRY_B] == [ENTRY_B] && [] + [BUY_A] == [BUY_A];
  }

  lemma SoldB()
    ensures var s := Track([BUY_A, BUY_B], [ENTRY_B], []);
      Do(s, EXIT_B) == AFTER_B && Proper(s, EXIT_B)
  {
    assert "a"[0] != "b"[0];
    var s := Track([BUY_A, BUY_B], [ENTRY_B], []);
    assert s.entries[..0] == [] && LastOpen(s, []).None?;
    assert OpenEntry(s) == Some(ENTRY_B);
    SalesOfAppend([], BUY_A);
    SalesOfAppend([BUY_A], BUY_B);
    assert [] + [BUY_A] == [BUY_A] && [BUY_A] + [BUY_B] == s.rows && Sales(s.rows) == [];
    assert Sold(s, EXIT_B, 1) == Track([BUY_A, BUY_B, SELL_B], [ENTRY_B], [1]);
    assert CloseKey([BUY_A, BUY_B, SELL_B], "b") == AFTER_B.rows;
  }

  /** An entry stops half way in one contract, another contract is bought and sold, and the first is entered
      again on the same day: after a proper history, a proper step that takes over behind. */
  lemma {:induction false} TakingOverBehindHappens(run: seq<Step>)
    requires |run| == 3 && run[0] == STRAY_A && run[1] == ENTER_B && run[2] == EXIT_B
    ensures ProperRun(Empty, run) && Final(Empty, run) == AFTER_B
    ensures Proper(AFTER_B, AGAIN) && TakesOverBehind(AFTER_B, AGAIN)
  {
    BoughtBoth();
    SoldB();
    var s1, s2 := Track([BUY_A], [], []), Track([BUY_A, BUY_B], [ENTRY_B], []);
    assert run[2..][1..] == [] && run[1..][1..] == run[2..] && run[1..][0] == run[1] && run[2..][0] == run[2];
    assert Final(AFTER_B, []) == AFTER_B && ProperRun(AFTER_B, []);
    assert Final(s2, run[2..]) == AFTER_B && ProperRun(s2, run[2..]);
    assert Final(s1, run[1..]) == AFTER_B && ProperRun(s1, run[1..]);
    assert IsKey(AFTER_B.rows[0], "a", 1, BUY) && RowOf(AFTER_B.rows, "a", 1, BUY) == 0;
    assert AFTER_B.entries[0].tradeId == 1;
  }
}
