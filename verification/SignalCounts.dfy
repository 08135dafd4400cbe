/** The two lists of the report over every history in which days never run backwards, improper exits included: how
    far their lengths differ, and when the report is right. */
module SignalCounts {
  import opened Wrappers
  import opened PaperLedger
  import opened SignalLedger
  import opened SignalPairing

  predicate TimelyRun(s: Track, run: seq<Step>)
    decreases |run|
  {
    run == [] || (Timely(s, run[0]) && TimelyRun(Do(s, run[0]), run[1..]))
  }

  /** How often a position got a second sale row. */
  function SoldAgain(s: Track, run: seq<Step>): nat
    decreases |run|
  {
    if run == [] then 0 else (if SellsAgain(s, run[0]) then 1 else 0) + SoldAgain(Do(s, run[0]), run[1..])
  }

  /** How often a position was closed without a sale row. */
  function ClosedUnsold(s: Track, run: seq<Step>): nat
    decreases |run|
  {
    if run == [] then 0 else (if ClosesUnsold(s, run[0]) then 1 else 0) + ClosedUnsold(Do(s, run[0]), run[1..])
  }

  lemma {:induction false} CleanIffNoneLost(s: Track, run: seq<Step>)
    requires TimelyRun(s, run)
    ensures CleanRun(s, run) <==> SoldAgain(s, run) == 0 && ClosedUnsold(s, run) == 0
    decreases |run|
  {
    if run != [] {
      CleanIffNoneLost(Do(s, run[0]), run[1..]);
    }
  }

  // --- One step ---------------------------------------------------------------------------

  /** Each sale row was written for some entry. */
  predicate SalesOwned(s: Track) {
    |Sales(s.rows)| == |s.soldFor| && forall t :: 0 <= t < |s.soldFor| ==> Owned(s, s.soldFor[t])
  }

  predicate Accounted(s: Track) { Tidy(s) && SalesOwned(s) }

  function OneIf(b: bool): int { if b then 1 else 0 }

  /** Sale rows beyond one for each closed position and the one an open position may have. */
  function Surplus(s: Track): int { |Sales(s.rows)| - |Done(s)| - OneIf(SoldYet(s)) }

  /** A sale row more. */
  lemma SaleTidy(s: Track, row: Row, soldFor: seq<nat>)
    requires Tidy(s) && LastIsOpen(s) && row.action == SELL && s.rows != [] && row.date >= s.rows[|s.rows| - 1].date
    ensures var b := Track(s.rows + [row], s.entries, soldFor); Tidy(b) && LastIsOpen(b)
  {
    RowsGrow(s.rows, row);
    EntriesStay(s, row, soldFor);
    var b := Track(s.rows + [row], s.entries, soldFor);
    forall k | 0 <= k < |b.rows| && b.rows[k].action == BUY && b.rows[k].closed && !Owned(b, k)
      ensures b.rows[k].date < b.rows[|b.rows| - 1].date
    {
      assert b.rows[k] == s.rows[k] && !Owned(s, k);
    }
  }

  lemma SaleAccounted(s: Track, row: Row)
    requires Accounted(s) && LastIsOpen(s) && row.action == SELL
    requires s.rows != [] && row.date >= s.rows[|s.rows| - 1].date
    ensures var b := s.(rows := s.rows + [row], soldFor := s.soldFor + [s.entries[|s.entries| - 1].tradeId]);
      Accounted(b) && LastIsOpen(b) && SoldYet(b) && |Sales(b.rows)| == |Sales(s.rows)| + 1
  {
    var id := s.entries[|s.entries| - 1].tradeId;
    var b := s.(rows := s.rows + [row], soldFor := s.soldFor + [id]);
    SaleTidy(s, row, b.soldFor);
    SalesOfAppend(s.rows, row);
    SaleOwned(s, b);
    assert b.soldFor[|s.soldFor|] == id;
  }

  lemma SaleOwned(s: Track, b: Track)
    requires SalesOwned(s) && b.entries == s.entries && s.entries != []
    requires b.soldFor == s.soldFor + [s.entries[|s.entries| - 1].tradeId]
    ensures forall t :: 0 <= t < |b.soldFor| ==> Owned(b, b.soldFor[t])
  {
    forall t | 0 <= t < |b.soldFor| ensures Owned(b, b.soldFor[t]) {
      if t < |s.soldFor| {
        assert Owned(s, s.soldFor[t]);
        var i :| 0 <= i < |s.entries| && s.entries[i].tradeId == s.soldFor[t];
        assert b.entries[i].tradeId == b.soldFor[t];
      } else {
        assert b.entries[|b.entries| - 1].tradeId == b.soldFor[t];
      }
    }
  }

  lemma CloseTidy(s: Track, id: nat)
    requires Tidy(s) && LastIsOpen(s) && id == s.entries[|s.entries| - 1].tradeId < |s.rows|
    ensures var b := s.(rows := CloseKey(s.rows, s.rows[id].key)); Tidy(b) && !LastIsOpen(b)
  {
    ClosedEntriesStay(s, s.rows[id].key);
    ClosedStraysAreOld(s, id);
  }

  lemma CloseAccounted(s: Track, id: nat)
    requires Accounted(s) && LastIsOpen(s) && id == s.entries[|s.entries| - 1].tradeId < |s.rows|
    ensures var b := s.(rows := CloseKey(s.rows, s.rows[id].key));
      Accounted(b) && !LastIsOpen(b) && |Sales(b.rows)| == |Sales(s.rows)|
  {
    var b := s.(rows := CloseKey(s.rows, s.rows[id].key));
    CloseTidy(s, id);
    SalesOfClosed(s.rows, s.rows[id].key);
    forall t | 0 <= t < |b.soldFor| ensures Owned(b, b.soldFor[t]) {
      assert Owned(s, s.soldFor[t]);
      var i :| 0 <= i < |s.entries| && s.entries[i].tradeId == s.soldFor[t];
      assert b.entries[i].tradeId == b.soldFor[t];
    }
  }

  /** The sale row of an exit, or none. */
  lemma SoldCounts(s: Track, step: Step, id: nat)
    requires Accounted(s) && Timely(s, step) && step.Exit? && LastIsOpen(s)
    requires id == s.entries[|s.entries| - 1].tradeId < |s.rows|
    ensures var b := Sold(s, step, id);
      && Accounted(b) && LastIsOpen(b) && b.entries == s.entries && |b.rows| >= |s.rows| && b.rows[id] == s.rows[id]
      && (SoldYet(b) <==> SoldYet(s) || !SaleTaken(s, step.date))
      && |Sales(b.rows)| == |Sales(s.rows)| + OneIf(!SaleTaken(s, step.date))
  {
    if !SaleTaken(s, step.date) {
      SaleAccounted(s, Row(step.date, SELL, s.rows[id].key, step.price, step.quantity, false));
    }
  }

  lemma SurplusShut(s: Track)
    requires !LastIsOpen(s)
    ensures Surplus(s) == |Sales(s.rows)| - |s.entries|
  {
  }

  lemma SurplusOpen(s: Track)
    requires LastIsOpen(s)
    ensures Surplus(s) == |Sales(s.rows)| - |s.entries| + 1 - OneIf(SoldYet(s))
  {
  }

  lemma ExitCounts(s: Track, step: Step)
    requires Accounted(s) && Timely(s, step) && step.Exit? && AnyOpen(s)
    ensures Accounted(Do(s, step))
    ensures Surplus(Do(s, step)) == Surplus(s) + OneIf(SellsAgain(s, step)) - OneIf(ClosesUnsold(s, step))
  {
    ExitShape(s, step);
    var id := s.entries[|s.entries| - 1].tradeId;
    SoldCounts(s, step, id);
    var sold := Sold(s, step, id);
    SurplusOpen(s);
    SurplusOpen(sold);
    if step.completes {
      CloseAccounted(sold, id);
      assert Do(s, step) == sold.(rows := CloseKey(sold.rows, sold.rows[id].key));
    }
  }

  /** A row or an entry more while nothing is open. */
  lemma EnterCounts(s: Track, step: Step)
    requires Accounted(s) && Timely(s, step) && !step.Exit?
    ensures Accounted(Do(s, step)) && Surplus(Do(s, step)) == Surplus(s)
  {
    OpenIsLast(s);
    if !AnyOpen(s) {
      if step.Enter? {
        EnterKeeps(s, step);
        EnterAddsNoSale(s, step);
      } else if !Taken(s.rows, step.key, step.date, BUY) {
        AppendTidy(s, Purchase(step));
        PurchaseCounts(s, Purchase(step));
      }
    }
  }

  lemma EnterAddsNoSale(s: Track, step: Step)
    requires Accounted(s) && Timely(s, step) && step.Enter? && !AnyOpen(s)
    ensures SalesOwned(Do(s, step)) && Surplus(Do(s, step)) == Surplus(s)
  {
    if !Taken(s.rows, step.key, step.date, BUY) {
      AppendTidy(s, Purchase(step));
      PurchaseCounts(s, Purchase(step));
      var next := s.(rows := s.rows + [Purchase(step)]);
      EntryAddsNoSale(next, step, |s.rows|);
      assert Do(s, step) == next.(entries := next.entries + [EntryOfStep(step, |s.rows|)]);
    } else {
      var id := RowOf(s.rows, step.key, step.date, BUY);
      if !Owned(s, id) { EntryAddsNoSale(s, step, id); }
    }
  }

  /** A purchase row more while nothing is open. */
  lemma PurchaseCounts(s: Track, row: Row)
    requires Accounted(s) && !AnyOpen(s) && row.action == BUY && !row.closed
    requires s.rows != [] ==> row.date >= s.rows[|s.rows| - 1].date
    requires !Taken(s.rows, row.key, row.date, BUY)
    ensures var b := s.(rows := s.rows + [row]); SalesOwned(b) && Surplus(b) == Surplus(s)
  {
    var b := s.(rows := s.rows + [row]);
    AppendTidy(s, row);
    SalesOfAppend(s.rows, row);
    OwnedStay(s, b);
    OpenIsLast(s);
    OpenIsLast(b);
    SurplusShut(s);
    SurplusShut(b);
  }

  lemma OwnedStay(s: Track, b: Track)
    requires SalesOwned(s) && b.entries == s.entries && b.soldFor == s.soldFor
    ensures forall t :: 0 <= t < |b.soldFor| ==> Owned(b, b.soldFor[t])
  {
    forall t | 0 <= t < |b.soldFor| ensures Owned(b, b.soldFor[t]) {
      var i :| 0 <= i < |s.entries| && s.entries[i].tradeId == s.soldFor[t];
      assert b.entries[i].tradeId == b.soldFor[t];
    }
  }

  /** An entry with a purchase row of the day that no entry has. */
  lemma EntryAddsNoSale(s: Track, step: Step, id: nat)
    requires Accounted(s) && !AnyOpen(s) && step.Enter? && !Owned(s, id)
    requires id < |s.rows| && s.rows[id].action == BUY && s.rows[id].date == step.date
    requires step.date >= s.rows[|s.rows| - 1].date
    ensures var b := s.(entries := s.entries + [EntryOfStep(step, id)]); SalesOwned(b) && Surplus(b) == Surplus(s)
  {
    var b := s.(entries := s.entries + [EntryOfStep(step, id)]);
    OpenIsLast(s);
    TakeOverKeeps(s, step, id);
    FreshEntryUnsold(s, b, EntryOfStep(step, id));
    SurplusOpen(b);
  }

  lemma FreshEntryUnsold(s: Track, b: Track, e: Entry)
    requires SalesOwned(s) && !Owned(s, e.tradeId) && b.entries == s.entries + [e] && b.soldFor == s.soldFor
    ensures !SoldYet(b) && forall t :: 0 <= t < |b.soldFor| ==> Owned(b, b.soldFor[t])
  {
    forall t | 0 <= t < |b.soldFor| ensures Owned(b, b.soldFor[t]) && b.soldFor[t] != e.tradeId {
      assert Owned(s, s.soldFor[t]);
      var i :| 0 <= i < |s.entries| && s.entries[i].tradeId == s.soldFor[t];
      assert b.entries[i].tradeId == b.soldFor[t];
    }
  }

  lemma StepCounts(s: Track, step: Step)
    requires Accounted(s) && Timely(s, step)
    ensures Accounted(Do(s, step))
    ensures Surplus(Do(s, step)) == Surplus(s) + OneIf(SellsAgain(s, step)) - OneIf(ClosesUnsold(s, step))
  {
    OpenIsLast(s);
    if !step.Exit? {
      EnterCounts(s, step);
    } else if AnyOpen(s) {
      ExitCounts(s, step);
    }
  }

  lemma {:induction false} RunCounts(s: Track, run: seq<Step>)
    requires Accounted(s) && TimelyRun(s, run)
    ensures Accounted(Final(s, run))
    ensures Surplus(Final(s, run)) == Surplus(s) + SoldAgain(s, run) - ClosedUnsold(s, run)
    decreases |run|
  {
    if run != [] {
      StepCounts(s, run[0]);
      RunCounts(Do(s, run[0]), run[1..]);
    }
  }

  // --- A position closed without a sale ----------------------------------------------------

  predicate NeverSold(s: Track, i: nat) { i < |Done(s)| && s.entries[i].tradeId !in s.soldFor }

  /** Closed without a sale row once, without one for good. */
  lemma StaysUnsold(s: Track, step: Step, i: nat)
    requires Accounted(s) && Timely(s, step) && NeverSold(s, i)
    ensures NeverSold(Do(s, step), i)
  {
    SoldForGrows(s, step);
    StepCounts(s, step);
    OpenIsLast(s);
    OpenIsLast(Do(s, step));
    OneEntryOpens(s, step);
  }

  lemma SoldForGrows(s: Track, step: Step)
    requires Tidy(s)
    ensures var b := Do(s, step);
      && |b.entries| >= |s.entries| && b.entries[..|s.entries|] == s.entries
      && (b.soldFor == s.soldFor || (LastIsOpen(s) && b.soldFor == s.soldFor + [s.entries[|s.entries| - 1].tradeId]))
  {
    OpenIsLast(s);
    if step.Exit? && AnyOpen(s) { ExitShape(s, step); }
  }

  lemma ClosesOneUnsold(s: Track, step: Step)
    requires Accounted(s) && Timely(s, step) && ClosesUnsold(s, step)
    ensures NeverSold(Do(s, step), |s.entries| - 1)
  {
    OpenIsLast(s);
    ExitShape(s, step);
    CloseAccounted(s, s.entries[|s.entries| - 1].tradeId);
  }

  lemma {:induction false} UnsoldForGood(s: Track, run: seq<Step>, i: nat)
    requires Accounted(s) && TimelyRun(s, run) && NeverSold(s, i)
    ensures NeverSold(Final(s, run), i)
    decreases |run|
  {
    if run != [] {
      StepCounts(s, run[0]);
      StaysUnsold(s, run[0], i);
      UnsoldForGood(Do(s, run[0]), run[1..], i);
    }
  }

  lemma {:induction false} OneIsUnsold(s: Track, run: seq<Step>) returns (i: nat)
    requires Accounted(s) && TimelyRun(s, run) && ClosedUnsold(s, run) > 0
    ensures NeverSold(Final(s, run), i)
    decreases |run|
  {
    StepCounts(s, run[0]);
    if ClosesUnsold(s, run[0]) {
      i := |s.entries| - 1;
      ClosesOneUnsold(s, run[0]);
      UnsoldForGood(Do(s, run[0]), run[1..], i);
    } else {
      i := OneIsUnsold(Do(s, run[0]), run[1..]);
    }
  }

  lemma UnsoldIsUnpaired(s: Track, entries: seq<Entry>, sales: seq<Sale>, i: nat)
    requires Tidy(s) && NeverSold(s, i) && QueryAnswers(s, entries, sales)
    ensures !AllPaired(s, entries, sales)
  {
    ClosedAreDone(s);
    var e := s.entries[i];
    assert Done(s)[i] == e && e in multiset(Done(s)) && e in multiset(entries);
    var k :| 0 <= k < |entries| && entries[k] == e;
    if |entries| <= |sales| { assert !OwnSale(s, entries[k], sales[k]); }
  }

  // --- The report -------------------------------------------------------------------------

  /** Over every history in date order the lists differ in length by the second sales, the missing ones and the
      sale of a position half closed. The strict zip succeeds with every closed entry beside its own sale
      exactly when there was none of these and no entry took over a row behind. */
  lemma ReportIsRightIff(run: seq<Step>, entries: seq<Entry>, sales: seq<Sale>)
    requires TimelyRun(Empty, run) && QueryAnswers(Final(Empty, run), entries, sales)
    ensures var s := Final(Empty, run);
      && |sales| + ClosedUnsold(Empty, run) == |entries| + SoldAgain(Empty, run) + OneIf(SoldYet(s))
      && (|entries| == |sales| && AllPaired(s, entries, sales)
          <==> CleanRun(Empty, run) && !SoldYet(s) && NoneBehind(Empty, run[..Idle(Empty, run)]))
  {
    assert Kept(Empty);
    LengthsFrom(Empty, run, entries, sales);
    if CleanRun(Empty, run) { CleanReport(Empty, run, entries, sales); }
    else { UncleanReport(Empty, run, entries, sales); }
  }

  lemma LengthsFrom(start: Track, run: seq<Step>, entries: seq<Entry>, sales: seq<Sale>)
    requires Accounted(start) && Surplus(start) == 0 && TimelyRun(start, run)
    requires QueryAnswers(Final(start, run), entries, sales)
    ensures Accounted(Final(start, run))
    ensures |sales| + ClosedUnsold(start, run)
         == |entries| + SoldAgain(start, run) + OneIf(SoldYet(Final(start, run)))
  {
    RunCounts(start, run);
    SameLengths(Final(start, run), entries, sales);
  }

  /** A clean history. */
  lemma CleanReport(start: Track, run: seq<Step>, entries: seq<Entry>, sales: seq<Sale>)
    requires Kept(start) && start.entries == [] && CleanRun(start, run)
    requires QueryAnswers(Final(start, run), entries, sales)
    ensures |entries| == |sales| <==> !SoldYet(Final(start, run))
    ensures AllPaired(Final(start, run), entries, sales) <==> NoneBehind(start, run[..Idle(start, run)])
  {
    PairedFrom(start, run, entries, sales);
    CleanRunKeeps(start, run);
    SoldYetIffHalfClosed(Final(start, run));
  }

  /** Any other: a closed position without a sale is not paired, and without one the lengths differ. */
  lemma UncleanReport(start: Track, run: seq<Step>, entries: seq<Entry>, sales: seq<Sale>)
    requires Accounted(start) && Surplus(start) == 0 && TimelyRun(start, run) && !CleanRun(start, run)
    requires QueryAnswers(Final(start, run), entries, sales)
    ensures |entries| != |sales| || !AllPaired(Final(start, run), entries, sales)
  {
    LengthsFrom(start, run, entries, sales);
    CleanIffNoneLost(start, run);
    if ClosedUnsold(start, run) > 0 {
      var i := OneIsUnsold(start, run);
      UnsoldIsUnpaired(Final(start, run), entries, sales, i);
    }
  }

  lemma SameLengths(s: Track, entries: seq<Entry>, sales: seq<Sale>)
    requires Tidy(s) && QueryAnswers(s, entries, sales)
    ensures |entries| == |Done(s)| && |sales| == |Sales(s.rows)|
  {
    ClosedAreDone(s);
    assert |entries| == |multiset(entries)| && |sales| == |multiset(sales)|;
  }

  // --- Two improper exits that cancel -------------------------------------------------------

  const BUY_A: Step := Enter(1, "a", 10.0, 65, "CE", "v1", None)
  const STOP: Step := Exit(1, 12.0, 65, false)
  const FINISH: Step := Exit(2, 13.0, 65, true)
  const BUY_AGAIN: Step := Enter(2, "a", 11.0, 65, "CE", "v1", None)
  const SELL_AGAIN: Step := Exit(2, 14.0, 65, true)

  /** An exit stops half way and is finished on the next day; its contract is bought and sold again on that day. */
  predicate IsTwice(run: seq<Step>) {
    |run| == 5 && run[0] == BUY_A && run[1] == STOP && run[2] == FINISH && run[3] == BUY_AGAIN && run[4] == SELL_AGAIN
  }

  const B1: Row := Row(1, BUY, "a", 10.0, 65, false)
  const S1: Row := Row(1, SELL, "a", 12.0, 65, false)
  const S2: Row := Row(2, SELL, "a", 13.0, 65, false)
  const B2: Row := Row(2, BUY, "a", 11.0, 65, false)
  const E1: Entry := Entry(0, 1, 10.0, "CE", "v1", None)
  const E2: Entry := Entry(3, 2, 11.0, "CE", "v1", None)

  const OPENED: Track := Track([B1], [E1], [])
  const HALF: Track := Track([B1, S1], [E1], [0])
  const SHUT: Track :=
    Track([B1.(closed := true), S1.(closed := true), S2.(closed := true)], [E1], [0, 0])
  const REOPENED: Track := Track(SHUT.rows + [B2], [E1, E2], [0, 0])
  const DONE: Track := Track(SHUT.rows + [B2.(closed := true)], [E1, E2], [0, 0])

  lemma FirstOpened()
    ensures Do(Empty, BUY_A) == OPENED && Timely(Empty, BUY_A)
    ensures !SellsAgain(Empty, BUY_A) && !ClosesUnsold(Empty, BUY_A)
  {
  }

  lemma LastOf(s: Track, init: seq<Entry>, e: Entry)
    requires s.entries == init + [e] && !IsClosed(s, e) && forall x :: x in init ==> IsClosed(s, x)
    ensures AnyOpen(s) && OpenEntry(s) == Some(e)
  {
    assert s.entries[|init|] == e && s.entries[..|init|] == init;
    NoneOpen(s, init);
  }

  lemma FirstHalf()
    ensures Do(OPENED, STOP) == HALF && Timely(OPENED, STOP)
    ensures !SellsAgain(OPENED, STOP) && !ClosesUnsold(OPENED, STOP)
  {
    LastOf(OPENED, [], E1);
    assert !Taken([B1], "a", 1, SELL);
    assert [B1] + [S1] == [B1, S1] && [] + [0] == [0];
  }

  lemma SoldTwice()
    ensures Do(HALF, FINISH) == SHUT && Timely(HALF, FINISH) && SellsAgain(HALF, FINISH)
    ensures !ClosesUnsold(HALF, FINISH)
  {
    LastOf(HALF, [], E1);
    assert !Taken([B1, S1], "a", 2, SELL);
    assert HALF.soldFor[0] == 0;
    assert [B1, S1] + [S2] == [B1, S1, S2] && [0] + [0] == [0, 0];
    assert CloseKey([B1, S1, S2], "a") == SHUT.rows;
  }

  lemma SecondOpened()
    ensures Do(SHUT, BUY_AGAIN) == REOPENED && Timely(SHUT, BUY_AGAIN)
    ensures !SellsAgain(SHUT, BUY_AGAIN) && !ClosesUnsold(SHUT, BUY_AGAIN)
  {
    assert !AnyOpen(SHUT) && !Taken(SHUT.rows, "a", 2, BUY);
    assert [E1] + [E2] == [E1, E2];
  }

  lemma SaleSkipped()
    ensures Do(REOPENED, SELL_AGAIN) == DONE && Timely(REOPENED, SELL_AGAIN) && ClosesUnsold(REOPENED, SELL_AGAIN)
    ensures !SellsAgain(REOPENED, SELL_AGAIN)
  {
    assert [E1, E2] == [E1] + [E2];
    LastOf(REOPENED, [E1], E2);
    assert IsKey(REOPENED.rows[2], "a", 2, SELL) && Taken(REOPENED.rows, "a", 2, SELL);
    assert forall t :: 0 <= t < 2 ==> REOPENED.soldFor[t] == 0;
    assert CloseKey(REOPENED.rows, "a") == DONE.rows;
  }

  /** A run read from its first step. */
  lemma Unroll(s: Track, run: seq<Step>, next: Track)
    requires run != [] && Do(s, run[0]) == next && Timely(s, run[0]) && TimelyRun(next, run[1..])
    ensures TimelyRun(s, run) && Final(s, run) == Final(next, run[1..])
    ensures SoldAgain(s, run) == (if SellsAgain(s, run[0]) then 1 else 0) + SoldAgain(next, run[1..])
    ensures ClosedUnsold(s, run) == (if ClosesUnsold(s, run[0]) then 1 else 0) + ClosedUnsold(next, run[1..])
  {
  }

  lemma {:induction false} TwiceCounts(run: seq<Step>)
    requires IsTwice(run)
    ensures TimelyRun(Empty, run) && Final(Empty, run) == DONE
    ensures SoldAgain(Empty, run) == 1 && ClosedUnsold(Empty, run) == 1
  {
    assert run[1..][0] == run[1] && run[2..][0] == run[2] && run[3..][0] == run[3] && run[4..][0] == run[4];
    assert run[4..][1..] == [] && run[3..][1..] == run[4..] && run[2..][1..] == run[3..] && run[1..][1..] == run[2..];
    SaleSkipped();
    Unroll(REOPENED, run[4..], DONE);
    SecondOpened();
    Unroll(SHUT, run[3..], REOPENED);
    SoldTwice();
    Unroll(HALF, run[2..], SHUT);
    FirstHalf();
    Unroll(OPENED, run[1..], HALF);
    FirstOpened();
    Unroll(Empty, run, OPENED);
  }

  /** Unequal lengths do not stay: a second sale of one position and a skipped sale of the next make the lengths
      equal again, and the report pairs wrongly without an error. */
  lemma {:induction false} ImproperExitsCancel(run: seq<Step>) returns (entries: seq<Entry>, sales: seq<Sale>)
    requires IsTwice(run)
    ensures TimelyRun(Empty, run) && QueryAnswers(Final(Empty, run), entries, sales)
    ensures |entries| == |sales| && !AllPaired(Final(Empty, run), entries, sales)
  {
    TwiceCounts(run);
    assert Kept(Empty);
    RunCounts(Empty, run);
    entries, sales := [E1, E2], Sales(DONE.rows);
    DoneAnswers(entries);
    ReportIsRightIff(run, entries, sales);
    CleanIffNoneLost(Empty, run);
  }

  lemma DoneAnswers(entries: seq<Entry>)
    requires entries == [E1, E2] && Tidy(DONE)
    ensures QueryAnswers(DONE, entries, Sales(DONE.rows)) && !SoldYet(DONE)
  {
    assert IsClosed(DONE, E1) && IsClosed(DONE, E2);
    AllClosed(DONE, entries);
    SalesOrdered(DONE.rows);
  }
}
