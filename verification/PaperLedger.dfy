/** The `paper_trades` table of one strategy: an append-only list of rows under
    the unique key (leg role, instrument key, trade date, action), and the net
    quantities the strategies read back from it. */
module PaperLedger {
  import opened Wrappers

  datatype OptionType = CE | PE
  datatype Side = Put | Call

  datatype LegRole =
    | Gamma(optionType: OptionType)   // gamma_call, gamma_put
    | Short(side: Side)               // short_put, short_call
    | Long(side: Side)                // long_put_hedge, long_call_hedge
    | OtherRole(name: string)

  datatype Action = BUY | SELL
  datatype TradeState = OPEN | DEFENDED | RE_ENTRY_PENDING | CLOSED

  type Key = string
  type SignalId = nat

  /** The free-text notes column, as far as the scan gives it a meaning. */
  datatype Notes = EntryOf(signal: SignalId) | ExitOf(signal: SignalId) | Text(text: string)

  datatype Trade = Trade(role: LegRole, key: Key, date: int, action: Action,
                         quantity: int, price: real, notes: Notes, state: TradeState)
  {
    /** What the PaperTrade model accepts. */
    predicate Valid() { key != "" && quantity > 0 && price > 0.0 }

    function Signed(): int { if action == BUY then quantity else -quantity }

    predicate SameKey(other: Trade) {
      role == other.role && key == other.key && date == other.date && action == other.action
    }

    predicate On(r: LegRole, k: Key) { role == r && key == k }

    /** A row that still counts as live for its leg. */
    predicate Live() { state == OPEN || state == DEFENDED }
  }

  predicate Conflicts(ledger: seq<Trade>, t: Trade) {
    exists i :: 0 <= i < |ledger| && ledger[i].SameKey(t)
  }

  /** INSERT ... ON CONFLICT DO NOTHING. */
  function Insert(ledger: seq<Trade>, t: Trade): seq<Trade> {
    if Conflicts(ledger, t) then ledger else ledger + [t]
  }

  function Net(ledger: seq<Trade>, role: LegRole): int {
    if ledger == [] then 0
    else Net(ledger[..|ledger| - 1], role)
         + (if ledger[|ledger| - 1].role == role then ledger[|ledger| - 1].Signed() else 0)
  }

  function NetContract(ledger: seq<Trade>, role: LegRole, key: Key): int {
    if ledger == [] then 0
    else NetContract(ledger[..|ledger| - 1], role, key)
         + (if ledger[|ledger| - 1].On(role, key) then ledger[|ledger| - 1].Signed() else 0)
  }

  /** UPDATE ... SET state = 'CLOSED' WHERE leg and key AND state IN ('OPEN', 'DEFENDED'). */
  function MarkClosed(ledger: seq<Trade>, role: LegRole, key: Key): (r: seq<Trade>)
    ensures |r| == |ledger|
    ensures forall i :: 0 <= i < |r| ==>
      r[i] == if ledger[i].On(role, key) && ledger[i].Live() then ledger[i].(state := CLOSED) else ledger[i]
  {
    seq(|ledger|, i requires 0 <= i < |ledger| =>
      if ledger[i].On(role, key) && ledger[i].Live() then ledger[i].(state := CLOSED) else ledger[i])
  }

  /** Every live row of the leg belongs to a contract that is not flat. */
  ghost predicate NoStaleFlatLeg(ledger: seq<Trade>, role: LegRole) {
    forall i :: 0 <= i < |ledger| && ledger[i].role == role && ledger[i].Live()
      ==> NetContract(ledger, role, ledger[i].key) != 0
  }

  lemma NetOfAppend(ledger: seq<Trade>, t: Trade, role: LegRole, key: Key)
    ensures Net(ledger + [t], role) == Net(ledger, role) + (if t.role == role then t.Signed() else 0)
    ensures NetContract(ledger + [t], role, key)
         == NetContract(ledger, role, key) + (if t.On(role, key) then t.Signed() else 0)
  {
    assert (ledger + [t])[..|ledger|] == ledger;
  }

  /** Net quantities do not depend on the state column. */
  lemma {:induction false} NetIgnoresState(a: seq<Trade>, b: seq<Trade>, role: LegRole, key: Key)
    requires |a| == |b|
    requires forall i :: 0 <= i < |a| ==> a[i].(state := CLOSED) == b[i].(state := CLOSED)
    ensures Net(a, role) == Net(b, role) && NetContract(a, role, key) == NetContract(b, role, key)
  {
    if a != [] {
      var n := |a| - 1;
      NetIgnoresState(a[..n], b[..n], role, key);
      assert a[n].(state := CLOSED) == b[n].(state := CLOSED);
      assert a[n].role == a[n].(state := CLOSED).role && a[n].key == a[n].(state := CLOSED).key;
      assert a[n].Signed() == a[n].(state := CLOSED).Signed() == b[n].Signed();
    }
  }

  /** PaperStore.record_trades: one all-or-nothing batch that skips duplicates. */
  method RecordTrades(ledger: seq<Trade>, batch: seq<Trade>)
    returns (after: seq<Trade>, inserted: seq<Trade>, skipped: seq<Trade>)
    ensures after == ledger + inserted
    ensures multiset(inserted) + multiset(skipped) == multiset(batch)
    ensures after == Recorded(ledger, batch)
    ensures skipped == [] <==> inserted == batch
  {
    after, inserted, skipped := ledger, [], [];
    for i := 0 to |batch|
      invariant after == ledger + inserted && after == Recorded(ledger, batch[..i])
      invariant multiset(inserted) + multiset(skipped) == multiset(batch[..i])
      invariant |inserted| + |skipped| == i
      invariant skipped == [] ==> inserted == batch[..i]
    {
      assert batch[..i + 1][..i] == batch[..i];
      assert batch[..i + 1] == batch[..i] + [batch[i]];
      if Conflicts(after, batch[i]) {
        skipped := skipped + [batch[i]];
      } else {
        after, inserted := after + [batch[i]], inserted + [batch[i]];
      }
    }
    assert batch[..|batch|] == batch;
  }

  function Recorded(ledger: seq<Trade>, batch: seq<Trade>): seq<Trade> {
    if batch == [] then ledger
    else Insert(Recorded(ledger, batch[..|batch| - 1]), batch[|batch| - 1])
  }

  /** A batch whose unique keys are new to the table and distinct among themselves. */
  predicate FreshBatch(ledger: seq<Trade>, batch: seq<Trade>) {
    && (forall i :: 0 <= i < |batch| ==> !Conflicts(ledger, batch[i]))
    && (forall i, j :: 0 <= i < j < |batch| ==> !batch[i].SameKey(batch[j]))
  }

  /** A batch is stored whole exactly when its unique keys are new and distinct. */
  lemma {:induction false} BatchStoredWholeIff(ledger: seq<Trade>, batch: seq<Trade>)
    ensures |Recorded(ledger, batch)| <= |ledger| + |batch|
    ensures FreshBatch(ledger, batch) <==> |Recorded(ledger, batch)| == |ledger| + |batch|
    ensures FreshBatch(ledger, batch) ==> Recorded(ledger, batch) == ledger + batch
  {
    if batch != [] {
      var n := |batch| - 1;
      BatchStoredWholeIff(ledger, batch[..n]);
      FreshOneMore(ledger, batch[..n], batch[n]);
      assert batch == batch[..n] + [batch[n]];
    }
  }

  /** One more row keeps a fresh batch fresh exactly when it conflicts with nothing stored so far. */
  lemma FreshOneMore(ledger: seq<Trade>, init: seq<Trade>, last: Trade)
    ensures FreshBatch(ledger, init + [last]) <==>
      FreshBatch(ledger, init) && !Conflicts(ledger + init, last)
  {
    var batch := init + [last];
    if FreshBatch(ledger, batch) {
      forall i | 0 <= i < |init| ensures !Conflicts(ledger, init[i]) { assert batch[i] == init[i]; }
      forall i, j | 0 <= i < j < |init| ensures !init[i].SameKey(init[j]) {
        assert batch[i] == init[i] && batch[j] == init[j];
      }
      forall i | 0 <= i < |ledger + init| ensures !(ledger + init)[i].SameKey(last) {
        assert batch[|init|] == last && !Conflicts(ledger, batch[|init|]);
        if i >= |ledger| { assert batch[i - |ledger|] == (ledger + init)[i]; }
      }
    } else if FreshBatch(ledger, init) && !Conflicts(ledger + init, last) {
      forall i | 0 <= i < |ledger| ensures !ledger[i].SameKey(last) { assert (ledger + init)[i] == ledger[i]; }
      forall i | 0 <= i < |init| ensures !init[i].SameKey(last) { assert (ledger + init)[|ledger| + i] == init[i]; }
      assert false;
    }
  }
}
