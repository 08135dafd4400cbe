/** The results of the report against the money in the ledger: what sales bring in and purchases cost, row by row. */
module SignalCash {
  import opened Wrappers
  import opened PaperLedger
  import opened SignalLedger
  import opened SignalPairing
  import opened SignalCounts
  import opened SignalReport

  function Amount(r: Row): real { r.price * r.quantity as real }

  /** What all sale rows bring in. */
  function Received(rows: seq<Row>): real {
    if rows == [] then 0.0
    else Received(rows[..|rows| - 1])
         + (if rows[|rows| - 1].action == SELL then Amount(rows[|rows| - 1]) else 0.0)
  }

  /** What the purchase rows of some entries cost. */
  function Paid(rows: seq<Row>, entries: seq<Entry>): real
    requires forall i :: 0 <= i < |entries| ==> entries[i].tradeId < |rows|
  {
    if entries == [] then 0.0
    else Paid(rows, entries[..|entries| - 1]) + Amount(rows[entries[|entries| - 1].tradeId])
  }

  /** What the sold quantities cost at the premiums of the entries. */
  function AtPremium(entries: seq<Entry>, sales: seq<Sale>): real
    requires |entries| == |sales|
  {
    if entries == [] then 0.0
    else
      var n := |entries| - 1;
      AtPremium(entries[..n], sales[..n]) + entries[n].premium * sales[n].row.quantity as real
  }

  function SaleAmounts(sales: seq<Sale>): real {
    if sales == [] then 0.0 else SaleAmounts(sales[..|sales| - 1]) + Amount(sales[|sales| - 1].row)
  }

  /** Sales and entries paired position by position. */
  ghost predicate Loaded(cycles: seq<ClosedCycle>, entries: seq<Entry>, sales: seq<Sale>,
                         signals: nat -> Option<string>)
  {
    && |cycles| == |entries| == |sales|
    && forall i :: 0 <= i < |cycles| ==> cycles[i] == CycleOf(entries[i], sales[i], signals(entries[i].tradeId))
  }

  lemma Distributed(sold: real, bought: real, q: real)
    ensures (sold - bought) * q == sold * q - bought * q
  {
  }

  lemma {:induction false} TotalOfLoaded(cycles: seq<ClosedCycle>, entries: seq<Entry>, sales: seq<Sale>,
                                         signals: nat -> Option<string>)
    requires Loaded(cycles, entries, sales, signals)
    ensures Sum(Pnls(cycles)) == SaleAmounts(sales) - AtPremium(entries, sales)
  {
    if cycles != [] {
      var n := |cycles| - 1;
      TotalOfLoaded(cycles[..n], entries[..n], sales[..n], signals);
      assert Pnls(cycles)[..n] == Pnls(cycles[..n]);
      Distributed(sales[n].row.price, entries[n].premium, sales[n].row.quantity as real);
    }
  }

  lemma {:induction false} ReceivedIsSales(rows: seq<Row>)
    ensures Received(rows) == SaleAmounts(Sales(rows))
  {
    if rows != [] {
      var n := |rows| - 1;
      ReceivedIsSales(rows[..n]);
      if rows[n].action == SELL {
        assert Sales(rows)[..|Sales(rows[..n])|] == Sales(rows[..n]);
      } else {
        assert Sales(rows) == Sales(rows[..n]) + [] == Sales(rows[..n]);
      }
    }
  }

  // --- Rows that are paid as the log says ----------------------------------------------------

  /** The step logs an entry on a purchase row that stands already. */
  predicate TakesOver(s: Track, step: Step) {
    && step.Enter? && !AnyOpen(s) && Taken(s.rows, step.key, step.date, BUY)
    && !Owned(s, RowOf(s.rows, step.key, step.date, BUY))
  }

  /** The purchase row of the last entry. */
  predicate HasLastRow(s: Track) { LastIsOpen(s) && s.entries[|s.entries| - 1].tradeId < |s.rows| }

  function LastRow(s: Track): Row
    requires HasLastRow(s)
  {
    s.rows[s.entries[|s.entries| - 1].tradeId]
  }

  /** The step writes a sale row. */
  predicate WritesSale(s: Track, step: Step) {
    step.Exit? && HasLastRow(s) && !Taken(s.rows, LastRow(s).key, step.date, SELL)
  }

  /** Visible before the step: an entry that takes over a purchase row has its premium, and a sale is of the quantity
      that was bought. */
  predicate PaysAsLogged(s: Track, step: Step) {
    && (TakesOver(s, step) ==> s.rows[RowOf(s.rows, step.key, step.date, BUY)].price == step.premium)
    && (WritesSale(s, step) ==> LastRow(s).quantity == step.quantity)
  }

  predicate PaysThroughout(s: Track, run: seq<Step>)
    decreases |run|
  {
    run == [] || (PaysAsLogged(s, run[0]) && PaysThroughout(Do(s, run[0]), run[1..]))
  }

  /** Each entry's premium is the price of its purchase row, and the i-th sale is of what the i-th entry bought. */
  ghost predicate Square(s: Track) {
    && (forall i :: 0 <= i < |s.entries| ==>
          s.entries[i].tradeId < |s.rows| && s.rows[s.entries[i].tradeId].price == s.entries[i].premium)
    && (forall t :: 0 <= t < |s.soldFor| ==>
          t < |Sales(s.rows)| && s.soldFor[t] < |s.rows|
          && Sales(s.rows)[t].row.quantity == s.rows[s.soldFor[t]].quantity)
  }

  lemma {:induction false} SalesAfterClose(rows: seq<Row>, key: Key)
    ensures |Sales(CloseKey(rows, key))| == |Sales(rows)|
    ensures forall t :: 0 <= t < |Sales(rows)| ==>
      Sales(CloseKey(rows, key))[t].row.quantity == Sales(rows)[t].row.quantity
  {
    if rows != [] {
      var n := |rows| - 1;
      SalesAfterClose(rows[..n], key);
      assert CloseKey(rows, key)[..n] == CloseKey(rows[..n], key);
    }
  }

  lemma CloseStaysSquare(s: Track, key: Key)
    requires Square(s)
    ensures Square(s.(rows := CloseKey(s.rows, key)))
  {
    SalesAfterClose(s.rows, key);
  }

  lemma RowStaysSquare(s: Track, row: Row)
    requires Square(s) && row.action == BUY
    ensures Square(s.(rows := s.rows + [row]))
  {
    var b := s.(rows := s.rows + [row]);
    SalesOfAppend(s.rows, row);
    assert Sales(b.rows) == Sales(s.rows);
    forall t | 0 <= t < |b.soldFor|
      ensures t < |Sales(b.rows)| && b.soldFor[t] < |b.rows|
      ensures Sales(b.rows)[t].row.quantity == b.rows[b.soldFor[t]].quantity
    {
      assert b.rows[s.soldFor[t]] == s.rows[s.soldFor[t]];
    }
  }

  lemma EnterStaysSquare(s: Track, step: Step)
    requires Square(s) && PaysAsLogged(s, step) && step.Enter?
    ensures Square(Do(s, step))
  {
    if !AnyOpen(s) && !Taken(s.rows, step.key, step.date, BUY) { RowStaysSquare(s, Purchase(step)); }
  }

  lemma SaleStaysSquare(s: Track, row: Row, id: nat)
    requires Square(s) && SalesInTurn(s) && row.action == SELL && id < |s.rows| && row.quantity == s.rows[id].quantity
    ensures Square(s.(rows := s.rows + [row], soldFor := s.soldFor + [id]))
  {
    SalesOfAppend(s.rows, row);
  }

  lemma StepStaysSquare(s: Track, step: Step)
    requires Kept(s) && Square(s) && PaysAsLogged(s, step)
    ensures Square(Do(s, step))
  {
    OpenIsLast(s);
    if step.StrayBuy? {
      if !AnyOpen(s) && !Taken(s.rows, step.key, step.date, BUY) { RowStaysSquare(s, Purchase(step)); }
    } else if step.Enter? {
      EnterStaysSquare(s, step);
    } else if AnyOpen(s) {
      ExitStaysSquare(s, step);
    }
  }

  lemma ExitStaysSquare(s: Track, step: Step)
    requires Kept(s) && Square(s) && PaysAsLogged(s, step) && step.Exit? && AnyOpen(s)
    ensures Square(Do(s, step))
  {
    ExitShape(s, step);
    var id := s.entries[|s.entries| - 1].tradeId;
    if !Taken(s.rows, s.rows[id].key, step.date, SELL) {
      SaleStaysSquare(s, Row(step.date, SELL, s.rows[id].key, step.price, step.quantity, false), id);
    }
    CloseStaysSquare(Sold(s, step, id), s.rows[id].key);
  }

  // --- And only those --------------------------------------------------------------------------

  predicate SameMoney(a: Row, b: Row) { a.price == b.price && a.quantity == b.quantity }

  /** Rows, entries and sales are only added, at the end. */
  ghost predicate OnlyAdds(s: Track, b: Track) {
    && |s.rows| <= |b.rows| && |s.entries| <= |b.entries| && |s.soldFor| <= |b.soldFor|
    && |Sales(s.rows)| <= |Sales(b.rows)|
    && (forall k :: 0 <= k < |s.rows| ==> SameMoney(s.rows[k], b.rows[k]))
    && (forall i :: 0 <= i < |s.entries| ==> b.entries[i] == s.entries[i])
    && (forall t :: 0 <= t < |s.soldFor| ==> b.soldFor[t] == s.soldFor[t])
    && (forall t :: 0 <= t < |Sales(s.rows)| ==> Sales(b.rows)[t].row.quantity == Sales(s.rows)[t].row.quantity)
  }

  lemma RowAdds(s: Track, row: Row, b: Track)
    requires b.rows == s.rows + [row] && |s.entries| <= |b.entries| && b.entries[..|s.entries|] == s.entries
    requires |s.soldFor| <= |b.soldFor| && b.soldFor[..|s.soldFor|] == s.soldFor
    ensures OnlyAdds(s, b)
  {
    SalesOfAppend(s.rows, row);
    forall i | 0 <= i < |s.entries| ensures b.entries[i] == s.entries[i] {
      assert b.entries[..|s.entries|][i] == s.entries[i];
    }
    forall t | 0 <= t < |s.soldFor| ensures b.soldFor[t] == s.soldFor[t] {
      assert b.soldFor[..|s.soldFor|][t] == s.soldFor[t];
    }
  }

  lemma CloseAdds(s: Track, b: Track, key: Key)
    requires OnlyAdds(s, b)
    ensures OnlyAdds(s, b.(rows := CloseKey(b.rows, key)))
  {
    SalesAfterClose(b.rows, key);
    forall k | 0 <= k < |s.rows| ensures SameMoney(s.rows[k], CloseKey(b.rows, key)[k]) {
      assert SameMoney(s.rows[k], b.rows[k]);
    }
  }

  lemma StepAdds(s: Track, step: Step)
    requires Kept(s)
    ensures OnlyAdds(s, Do(s, step))
  {
    if step.Exit? {
      if AnyOpen(s) { ExitAdds(s, step); } else { OpenIsLast(s); }
    } else if !AnyOpen(s) && !Taken(s.rows, step.key, step.date, BUY) {
      RowAdds(s, Purchase(step), Do(s, step));
    }
  }

  lemma ExitAdds(s: Track, step: Step)
    requires Kept(s) && AnyOpen(s) && step.Exit?
    ensures OnlyAdds(s, Do(s, step))
  {
    ExitShape(s, step);
    var id := s.entries[|s.entries| - 1].tradeId;
    var sold := Sold(s, step, id);
    if sold != s { RowAdds(s, sold.rows[|s.rows|], sold); }
    CloseAdds(s, sold, s.rows[id].key);
  }

  lemma WasSquare(s: Track, b: Track)
    requires Kept(s) && OnlyAdds(s, b) && Square(b)
    ensures Square(s)
  {
    forall i | 0 <= i < |s.entries|
      ensures s.entries[i].tradeId < |s.rows| && s.rows[s.entries[i].tradeId].price == s.entries[i].premium
    {
      assert HasPurchase(s, i) && b.entries[i] == s.entries[i];
      assert SameMoney(s.rows[s.entries[i].tradeId], b.rows[s.entries[i].tradeId]);
    }
    forall t | 0 <= t < |s.soldFor|
      ensures s.soldFor[t] < |s.rows| && Sales(s.rows)[t].row.quantity == s.rows[s.soldFor[t]].quantity
    {
      assert HasPurchase(s, t) && s.soldFor[t] == s.entries[t].tradeId && b.soldFor[t] == s.soldFor[t];
      assert SameMoney(s.rows[s.soldFor[t]], b.rows[s.soldFor[t]]);
    }
  }

  lemma SquareTakesOver(s: Track, step: Step)
    requires Kept(s) && TakesOver(s, step) && Square(Do(s, step))
    ensures PaysAsLogged(s, step)
  {
    var b := Do(s, step);
    assert b.entries[|s.entries|] == EntryOfStep(step, RowOf(s.rows, step.key, step.date, BUY)) && b.rows == s.rows;
  }

  lemma SquareSells(s: Track, step: Step)
    requires Kept(s) && WritesSale(s, step) && Square(Do(s, step))
    ensures PaysAsLogged(s, step)
  {
    OpenIsLast(s);
    ExitShape(s, step);
    var id := s.entries[|s.entries| - 1].tradeId;
    var row := Row(step.date, SELL, s.rows[id].key, step.price, step.quantity, false);
    var sold := Sold(s, step, id);
    var b := Do(s, step);
    SalesOfAppend(s.rows, row);
    SalesAfterClose(sold.rows, s.rows[id].key);
    assert b.soldFor[|s.soldFor|] == id && Sales(sold.rows)[|s.soldFor|].row == row;
    assert b.rows[id].quantity == s.rows[id].quantity;
  }

  lemma StepStaysSquareIff(s: Track, step: Step)
    requires Kept(s)
    ensures Square(Do(s, step)) <==> Square(s) && PaysAsLogged(s, step)
  {
    if Square(s) && PaysAsLogged(s, step) {
      StepStaysSquare(s, step);
    } else if Square(Do(s, step)) {
      StepAdds(s, step);
      WasSquare(s, Do(s, step));
      if TakesOver(s, step) { SquareTakesOver(s, step); } else { SquareSells(s, step); }
    }
  }

  /** Over every clean history: all premiums are the prices of their rows, and all sales of what was bought, exactly
      when no step went against it. */
  lemma {:induction false} SquareIffPaid(s: Track, run: seq<Step>)
    requires Kept(s) && CleanRun(s, run)
    ensures Square(Final(s, run)) <==> Square(s) && PaysThroughout(s, run)
    decreases |run|
  {
    if run != [] {
      StepStaysSquareIff(s, run[0]);
      CleanKeeps(s, run[0]);
      SquareIffPaid(Do(s, run[0]), run[1..]);
    }
  }

  lemma {:induction false} PremiumsArePaid(rows: seq<Row>, entries: seq<Entry>, sales: seq<Sale>)
    requires |entries| == |sales|
    requires forall i :: 0 <= i < |entries| ==>
      && entries[i].tradeId < |rows| && rows[entries[i].tradeId].price == entries[i].premium
      && sales[i].row.quantity == rows[entries[i].tradeId].quantity
    ensures AtPremium(entries, sales) == Paid(rows, entries)
  {
    if entries != [] {
      PremiumsArePaid(rows, entries[..|entries| - 1], sales[..|sales| - 1]);
    }
  }

  // --- The report's total --------------------------------------------------------------------

  /** In a report that pairs rightly the entries come in the order they were taken, with their sales. */
  lemma RightReportIsInTurn(s: Track, entries: seq<Entry>, sales: seq<Sale>)
    requires Kept(s) && QueryAnswers(s, entries, sales) && AllPaired(s, entries, sales)
    ensures entries == Done(s) && sales == Sales(s.rows)
  {
    PairedIffOrdered(s, entries, sales);
    ClosedAreDone(s);
    AnswerIsUnique(entries, Done(s), EntryPlace);
    SalesOrdered(s.rows);
    AnswerIsUnique(sales, Sales(s.rows), SalePlace);
  }

  /** Over every history in which the report is right: the total of its cycles is what all sale rows bring in less what
      the sold quantities cost at the premiums of the closed entries; and less what their purchase rows cost, when
      every entry that took over a row had its premium and every sale was of what was bought. */
  lemma TotalIsCash(run: seq<Step>, entries: seq<Entry>, sales: seq<Sale>, signals: nat -> Option<string>,
                    cycles: seq<ClosedCycle>)
    requires TimelyRun(Empty, run) && QueryAnswers(Final(Empty, run), entries, sales)
    requires |entries| == |sales| && AllPaired(Final(Empty, run), entries, sales)
    requires Loaded(cycles, entries, sales, signals)
    ensures var s := Final(Empty, run);
      && entries == Done(s) && sales == Sales(s.rows) && (forall e :: e in Done(s) ==> e.tradeId < |s.rows|)
      && Sum(Pnls(cycles)) == Received(s.rows) - AtPremium(entries, sales)
      && (PaysThroughout(Empty, run) ==> Sum(Pnls(cycles)) == Received(s.rows) - Paid(s.rows, Done(s)))
  {
    assert Kept(Empty) && Square(Empty);
    ReportIsRightIff(run, entries, sales);
    TotalFrom(Empty, run, entries, sales, signals, cycles);
  }

  lemma TotalFrom(start: Track, run: seq<Step>, entries: seq<Entry>, sales: seq<Sale>,
                  signals: nat -> Option<string>, cycles: seq<ClosedCycle>)
    requires Kept(start) && Square(start) && CleanRun(start, run) && QueryAnswers(Final(start, run), entries, sales)
    requires |entries| == |sales| && AllPaired(Final(start, run), entries, sales)
    requires Loaded(cycles, entries, sales, signals)
    ensures var s := Final(start, run);
      && entries == Done(s) && sales == Sales(s.rows) && (forall e :: e in Done(s) ==> e.tradeId < |s.rows|)
      && Sum(Pnls(cycles)) == Received(s.rows) - AtPremium(entries, sales)
      && (PaysThroughout(start, run) ==> Sum(Pnls(cycles)) == Received(s.rows) - Paid(s.rows, Done(s)))
  {
    CleanRunKeeps(start, run);
    SquareIffPaid(start, run);
    TotalNow(Final(start, run), entries, sales, signals, cycles);
  }

  lemma TotalNow(s: Track, entries: seq<Entry>, sales: seq<Sale>, signals: nat -> Option<string>,
                 cycles: seq<ClosedCycle>)
    requires Kept(s) && QueryAnswers(s, entries, sales) && |entries| == |sales| && AllPaired(s, entries, sales)
    requires Loaded(cycles, entries, sales, signals)
    ensures entries == Done(s) && sales == Sales(s.rows) && forall e :: e in Done(s) ==> e.tradeId < |s.rows|
    ensures Sum(Pnls(cycles)) == Received(s.rows) - AtPremium(entries, sales)
    ensures Square(s) ==> Sum(Pnls(cycles)) == Received(s.rows) - Paid(s.rows, Done(s))
  {
    RightReportIsInTurn(s, entries, sales);
    TotalOfLoaded(cycles, entries, sales, signals);
    ReceivedIsSales(s.rows);
    forall i | 0 <= i < |s.entries| ensures s.entries[i].tradeId < |s.rows| { assert HasPurchase(s, i); }
    if Square(s) { SquareIsPaid(s); }
  }

  lemma SquareIsPaid(s: Track)
    requires Kept(s) && Square(s) && |Done(s)| == |Sales(s.rows)|
    ensures forall e :: e in Done(s) ==> e.tradeId < |s.rows|
    ensures AtPremium(Done(s), Sales(s.rows)) == Paid(s.rows, Done(s))
  {
    forall i | 0 <= i < |Done(s)| ensures Sales(s.rows)[i].row.quantity == s.rows[Done(s)[i].tradeId].quantity {
      assert s.soldFor[i] == s.entries[i].tradeId;
    }
    PremiumsArePaid(s.rows, Done(s), Sales(s.rows));
  }

  // --- A premium that was not paid ----------------------------------------------------------

  /** An entry stops after its purchase row at one price, is made again on that date at another, and is sold. */
  datatype Repriced = Repriced(date: int, key: Key, paid: real, premium: real, price: real, quantity: int)
  {
    function Bought(): Row { Row(date, BUY, key, paid, quantity, false) }

    function Sold(): Row { Row(date, SELL, key, price, quantity, false) }

    function Logged(): Entry { Entry(0, date, premium, "CE", "v1", None) }

    function First(): Step { StrayBuy(date, key, paid, quantity) }

    function Second(): Step { Enter(date, key, premium, quantity, "CE", "v1", None) }

    function Third(): Step { Exit(date, price, quantity, true) }

    function After(): Track { Track([Bought().(closed := true), Sold().(closed := true)], [Logged()], [0]) }

    function SaleOf(): Sale { Sale(1, Sold().(closed := true)) }

    predicate Runs(run: seq<Step>) { |run| == 3 && run[0] == First() && run[1] == Second() && run[2] == Third() }
  }

  lemma EnteredAgain(x: Repriced)
    ensures Do(Empty, x.First()) == Track([x.Bought()], [], [])
    ensures Do(Track([x.Bought()], [], []), x.Second()) == Track([x.Bought()], [x.Logged()], [])
  {
    var s := Track([x.Bought()], [], []);
    assert [] + [x.Bought()] == [x.Bought()] && [] + [x.Logged()] == [x.Logged()];
    assert IsKey(s.rows[0], x.key, x.date, BUY) && RowOf(s.rows, x.key, x.date, BUY) == 0;
  }

  lemma SoldOnce(x: Repriced)
    ensures var s := Track([x.Bought()], [x.Logged()], []);
      Do(s, x.Third()) == x.After() && Clean(s, x.Third())
  {
    var s := Track([x.Bought()], [x.Logged()], []);
    assert s.entries[..0] == [] && LastOpen(s, []).None? && !IsClosed(s, s.entries[0]);
    assert OpenEntry(s) == Some(x.Logged()) && !Taken(s.rows, x.key, x.date, SELL);
    var sold := Track([x.Bought(), x.Sold()], [x.Logged()], [0]);
    assert s.rows + [x.Sold()] == sold.rows && s.soldFor + [0] == sold.soldFor;
    assert Sold(s, x.Third(), 0) == sold;
    assert CloseKey(sold.rows, x.key) == x.After().rows;
  }

  lemma TwoRows(bought: Row, sold: Row)
    requires bought.action == BUY && sold.action == SELL
    ensures Sales([bought, sold]) == [Sale(1, sold)] && Received([bought, sold]) == Amount(sold)
  {
    var rows := [bought, sold];
    assert rows[..1] == [bought] && [bought][..0] == [];
    assert Sales([]) == [] && Received([]) == 0.0;
    assert Sales([bought]) == [] && Received([bought]) == 0.0;
  }

  lemma OneEntry(rows: seq<Row>, e: Entry, sale: Sale)
    requires e.tradeId < |rows|
    ensures Paid(rows, [e]) == Amount(rows[e.tradeId])
    ensures SaleAmounts([sale]) == Amount(sale.row)
    ensures AtPremium([e], [sale]) == e.premium * sale.row.quantity as real
  {
    assert [e][..0] == [] && [sale][..0] == [];
    assert Paid(rows, []) == 0.0 && SaleAmounts([]) == 0.0 && AtPremium([], []) == 0.0;
  }

  lemma RepricedIsRight(x: Repriced)
    ensures Done(x.After()) == [x.Logged()]
    ensures QueryAnswers(x.After(), [x.Logged()], [x.SaleOf()])
    ensures AllPaired(x.After(), [x.Logged()], [x.SaleOf()])
  {
    var s := x.After();
    TwoRows(s.rows[0], s.rows[1]);
    assert IsClosed(s, s.entries[0]);
    assert s.entries[..0] == [] && ClosedEntries(s, s.entries) == [x.Logged()];
    assert s.soldFor[0] == x.Logged().tradeId && Sales(s.rows)[0] == x.SaleOf();
    assert OwnSale(s, x.Logged(), x.SaleOf());
  }

  lemma {:induction false} RepricedRuns(x: Repriced, run: seq<Step>)
    requires x.Runs(run)
    ensures CleanRun(Empty, run) && Final(Empty, run) == x.After()
  {
    EnteredAgain(x);
    SoldOnce(x);
    var s1, s2 := Track([x.Bought()], [], []), Track([x.Bought()], [x.Logged()], []);
    assert run[2..][1..] == [] && run[1..][1..] == run[2..] && run[1..][0] == run[1] && run[2..][0] == run[2];
    assert Final(x.After(), []) == x.After() && CleanRun(x.After(), []);
    assert Final(s2, run[2..]) == x.After() && CleanRun(s2, run[2..]);
    assert Final(s1, run[1..]) == x.After() && CleanRun(s1, run[1..]);
  }

  lemma RepricedTotal(x: Repriced, signals: nat -> Option<string>, cycles: seq<ClosedCycle>)
    requires Loaded(cycles, [x.Logged()], [x.SaleOf()], signals)
    ensures Sum(Pnls(cycles)) == x.price * x.quantity as real - x.premium * x.quantity as real
  {
    TotalOfLoaded(cycles, [x.Logged()], [x.SaleOf()], signals);
    OneEntry(x.After().rows, x.Logged(), x.SaleOf());
  }

  lemma RepricedMoney(x: Repriced)
    ensures Received(x.After().rows) == x.price * x.quantity as real
    ensures Paid(x.After().rows, [x.Logged()]) == x.paid * x.quantity as real
  {
    TwoRows(x.After().rows[0], x.After().rows[1]);
    OneEntry(x.After().rows, x.Logged(), x.SaleOf());
  }

  /** For all prices: a clean history whose report pairs rightly and whose total differs from the money in the ledger by
      what the premium differs from the price paid. */
  lemma TakingOverMisprices(x: Repriced, run: seq<Step>, signals: nat -> Option<string>, cycles: seq<ClosedCycle>)
    requires x.Runs(run) && Loaded(cycles, [x.Logged()], [x.SaleOf()], signals)
    ensures CleanRun(Empty, run) && Final(Empty, run) == x.After()
    ensures QueryAnswers(x.After(), [x.Logged()], [x.SaleOf()]) && AllPaired(x.After(), [x.Logged()], [x.SaleOf()])
    ensures Sum(Pnls(cycles)) == x.price * x.quantity as real - x.premium * x.quantity as real
    ensures Received(x.After().rows) - Paid(x.After().rows, [x.Logged()])
         == x.price * x.quantity as real - x.paid * x.quantity as real
  {
    RepricedRuns(x, run);
    RepricedIsRight(x);
    RepricedTotal(x, signals, cycles);
    RepricedMoney(x);
  }

  // --- Each cycle is told by two rows --------------------------------------------------------

  /** The i-th sale is in the contract of what it sells, and stands behind it in the ledger. */
  ghost predicate SoldOnContract(s: Track) {
    forall t :: 0 <= t < |s.soldFor| ==>
      && t < |Sales(s.rows)| && s.soldFor[t] < |s.rows| && Sales(s.rows)[t].id > s.soldFor[t]
      && Sales(s.rows)[t].row.key == s.rows[s.soldFor[t]].key
  }

  lemma {:induction false} SalePlacesAfterClose(rows: seq<Row>, key: Key)
    ensures |Sales(CloseKey(rows, key))| == |Sales(rows)|
    ensures forall t :: 0 <= t < |Sales(rows)| ==>
      && Sales(CloseKey(rows, key))[t].id == Sales(rows)[t].id
      && Sales(CloseKey(rows, key))[t].row.key == Sales(rows)[t].row.key
  {
    if rows != [] {
      var n := |rows| - 1;
      SalePlacesAfterClose(rows[..n], key);
      assert CloseKey(rows, key)[..n] == CloseKey(rows[..n], key);
    }
  }

  lemma PurchaseStaysOnContract(s: Track, row: Row, b: Track)
    requires SoldOnContract(s) && row.action == BUY && b.rows == s.rows + [row] && b.soldFor == s.soldFor
    ensures SoldOnContract(b)
  {
    SalesOfAppend(s.rows, row);
    assert Sales(b.rows) == Sales(s.rows);
    forall t | 0 <= t < |b.soldFor|
      ensures t < |Sales(b.rows)| && b.soldFor[t] < |b.rows| && Sales(b.rows)[t].id > b.soldFor[t]
      ensures Sales(b.rows)[t].row.key == b.rows[b.soldFor[t]].key
    {
      assert b.rows[s.soldFor[t]] == s.rows[s.soldFor[t]];
    }
  }

  lemma SaleStaysOnContract(s: Track, row: Row, id: nat)
    requires SoldOnContract(s) && SalesInTurn(s) && row.action == SELL && id < |s.rows| && row.key == s.rows[id].key
    ensures SoldOnContract(s.(rows := s.rows + [row], soldFor := s.soldFor + [id]))
  {
    SalesOfAppend(s.rows, row);
  }

  lemma CloseStaysOnContract(s: Track, key: Key)
    requires SoldOnContract(s)
    ensures SoldOnContract(s.(rows := CloseKey(s.rows, key)))
  {
    SalePlacesAfterClose(s.rows, key);
  }

  lemma ExitStaysOnContract(s: Track, step: Step)
    requires Kept(s) && SoldOnContract(s) && step.Exit? && AnyOpen(s)
    ensures SoldOnContract(Do(s, step))
  {
    ExitShape(s, step);
    var id := s.entries[|s.entries| - 1].tradeId;
    if !Taken(s.rows, s.rows[id].key, step.date, SELL) {
      SaleStaysOnContract(s, Row(step.date, SELL, s.rows[id].key, step.price, step.quantity, false), id);
    }
    CloseStaysOnContract(Sold(s, step, id), s.rows[id].key);
  }

  lemma StepStaysOnContract(s: Track, step: Step)
    requires Kept(s) && SoldOnContract(s)
    ensures SoldOnContract(Do(s, step))
  {
    if step.Exit? {
      if AnyOpen(s) { ExitStaysOnContract(s, step); } else { OpenIsLast(s); }
    } else if !AnyOpen(s) && !Taken(s.rows, step.key, step.date, BUY) {
      PurchaseStaysOnContract(s, Purchase(step), Do(s, step));
    }
  }

  lemma {:induction false} RunStaysOnContract(s: Track, run: seq<Step>)
    requires Kept(s) && SoldOnContract(s) && CleanRun(s, run)
    ensures SoldOnContract(Final(s, run))
    decreases |run|
  {
    if run != [] {
      StepStaysOnContract(s, run[0]);
      CleanKeeps(s, run[0]);
      RunStaysOnContract(Do(s, run[0]), run[1..]);
    }
  }

  /** The cycle is bought on its signal date by one row and sold by a later row of the same contract: that row's price,
      date and quantity are the cycle's exit. */
  ghost predicate ToldByRows(s: Track, c: ClosedCycle) {
    exists bought, sold :: 0 <= bought < sold < |s.rows| && TellCycle(s.rows[bought], s.rows[sold], c)
  }

  predicate TellCycle(bought: Row, sold: Row, c: ClosedCycle) {
    && bought.action == BUY && sold.action == SELL && bought.key == sold.key
    && c.entry.signalDate == bought.date <= sold.date == c.exitDate
    && c.exitPrice == sold.price && c.qty == sold.quantity
  }

  /** Over every history in which the report is right, each cycle is told by its two rows, and every sale row tells
      one. */
  lemma CyclesAreRows(run: seq<Step>, entries: seq<Entry>, sales: seq<Sale>, signals: nat -> Option<string>,
                      cycles: seq<ClosedCycle>)
    requires TimelyRun(Empty, run) && QueryAnswers(Final(Empty, run), entries, sales)
    requires |entries| == |sales| && AllPaired(Final(Empty, run), entries, sales)
    requires Loaded(cycles, entries, sales, signals)
    ensures forall c :: c in cycles ==> ToldByRows(Final(Empty, run), c)
    ensures |cycles| == |Sales(Final(Empty, run).rows)|
  {
    assert Kept(Empty) && SoldOnContract(Empty);
    ReportIsRightIff(run, entries, sales);
    CleanRunKeeps(Empty, run);
    RunStaysOnContract(Empty, run);
    var s := Final(Empty, run);
    RightReportIsInTurn(s, entries, sales);
    forall i | 0 <= i < |cycles| ensures ToldByRows(s, cycles[i]) { CycleIsTold(s, i, signals(entries[i].tradeId)); }
  }

  lemma CycleIsTold(s: Track, i: nat, signal: Option<string>)
    requires Kept(s) && SoldOnContract(s) && i < |Done(s)| && |Done(s)| == |Sales(s.rows)|
    ensures ToldByRows(s, CycleOf(Done(s)[i], Sales(s.rows)[i], signal))
  {
    assert HasPurchase(s, i) && s.soldFor[i] == s.entries[i].tradeId && Done(s)[i] == s.entries[i];
    SalesAreRows(s.rows);
    SalesAreSales(s.rows);
    var bought, sold := s.entries[i].tradeId, Sales(s.rows)[i].id;
    assert s.rows[bought].date <= s.rows[sold].date;
    assert TellCycle(s.rows[bought], s.rows[sold], CycleOf(Done(s)[i], Sales(s.rows)[i], signal));
  }

  lemma {:induction false} SalesAreSales(rows: seq<Row>)
    ensures forall t :: 0 <= t < |Sales(rows)| ==> Sales(rows)[t].row.action == SELL
  {
    if rows != [] { SalesAreSales(rows[..|rows| - 1]); }
  }

  // --- Winners and losers ---------------------------------------------------------------------

  /** The places of a list at which something holds. */
  function At<T>(xs: seq<T>, p: T -> bool): set<nat> { set i: nat | i < |xs| && p(xs[i]) }

  lemma OneMoreAt<T>(xs: seq<T>, x: T, p: T -> bool)
    ensures |At(xs + [x], p)| == |At(xs, p)| + (if p(x) then 1 else 0)
  {
    var before, after := At(xs, p), At(xs + [x], p);
    forall i: nat ensures i in after <==> i in before || (i == |xs| && p(x)) {
      if i < |xs| { assert (xs + [x])[i] == xs[i]; }
    }
    if p(x) { assert after == before + {|xs|}; } else { assert after == before; }
  }

  lemma {:induction false} CountWinners(xs: seq<real>)
    ensures Winners(xs) == |At(xs, x => x > 0.0)| && Losers(xs) == |At(xs, x => x < 0.0)|
  {
    if xs == [] {
      assert At(xs, x => x > 0.0) == {} && At(xs, x => x < 0.0) == {};
    } else {
      var n := |xs| - 1;
      CountWinners(xs[..n]);
      OneMoreAt(xs[..n], xs[n], x => x > 0.0);
      OneMoreAt(xs[..n], xs[n], x => x < 0.0);
      assert xs[..n] + [xs[n]] == xs;
    }
  }

  lemma SignOfProduct(a: real, q: real)
    requires q > 0.0
    ensures a * q > 0.0 <==> a > 0.0
    ensures a * q < 0.0 <==> a < 0.0
  {
  }

  function SoldAbove(cycles: seq<ClosedCycle>): set<nat> {
    set i: nat | i < |cycles| && cycles[i].exitPrice > cycles[i].entry.premium
  }

  function SoldBelow(cycles: seq<ClosedCycle>): set<nat> {
    set i: nat | i < |cycles| && cycles[i].exitPrice < cycles[i].entry.premium
  }

  lemma ResultSign(c: ClosedCycle)
    requires c.qty > 0
    ensures c.Pnl() > 0.0 <==> c.exitPrice > c.entry.premium
    ensures c.Pnl() < 0.0 <==> c.exitPrice < c.entry.premium
  {
    SignOfProduct(c.exitPrice - c.entry.premium, c.qty as real);
  }

  /** Of cycles with a positive quantity those sold above their premium are the winners, those sold below it the losers;
      one sold at its premium is neither. */
  lemma WinnersAreSoldAbovePremium(cycles: seq<ClosedCycle>)
    requires forall c :: c in cycles ==> c.qty > 0
    ensures Winners(Pnls(cycles)) == |SoldAbove(cycles)| && Losers(Pnls(cycles)) == |SoldBelow(cycles)|
  {
    var xs := Pnls(cycles);
    CountWinners(xs);
    forall i: nat | i < |cycles|
      ensures xs[i] > 0.0 <==> cycles[i].exitPrice > cycles[i].entry.premium
      ensures xs[i] < 0.0 <==> cycles[i].exitPrice < cycles[i].entry.premium
    {
      assert xs[i] == cycles[i].Pnl() && cycles[i] in cycles;
      ResultSign(cycles[i]);
    }
    assert At(xs, x => x > 0.0) == SoldAbove(cycles) && At(xs, x => x < 0.0) == SoldBelow(cycles);
  }
}
