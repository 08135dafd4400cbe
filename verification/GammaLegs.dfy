/** Quantity accounting of one leg (all calls, or all puts): flat, or holding
    exactly one lot of one contract. Used where scans are serialised. */
module GammaLegs {
  import opened Wrappers
  import opened PaperLedger
  import opened GammaTables
  import opened GammaAgreement

  type Resolver = Contract -> Option<Key>

  ghost predicate ContractFlat(ledger: seq<Trade>, role: LegRole, key: Key) {
    && NetContract(ledger, role, key) == 0
    && (forall i :: 0 <= i < |ledger| && ledger[i].On(role, key) ==> !ledger[i].Live())
  }

  ghost predicate LegFlat(db: Db, t: OptionType) {
    && Net(db.ledger, Gamma(t)) == 0
    && (forall k: Key :: ContractFlat(db.ledger, Gamma(t), k))
    && !HasOpen(db, t)
  }

  /** The open position, if any, is in the held contract and was bought as this lot. */
  ghost predicate OpenIsHeld(db: Db, resolve: Resolver, t: OptionType, key: Key, lot: int) {
    forall id :: id in db.log && db.log[id].Open() && db.log[id].contract.optionType == t ==>
      && resolve(db.log[id].contract) == Some(key)
      && (forall i :: 0 <= i < |db.ledger| && BuysSignal(db.ledger[i], id) ==> db.ledger[i].quantity == lot)
  }

  /** The last row the leg has: a purchase. */
  ghost predicate LastLot(ledger: seq<Trade>, role: LegRole, i: nat) {
    && i < |ledger| && ledger[i].role == role && ledger[i].action == BUY
    && (forall j :: i < j < |ledger| ==> ledger[j].role != role)
  }

  /** The leg's last row is the purchase of the lot, and it is the purchase of every open position. */
  ghost predicate LotBought(db: Db, t: OptionType, key: Key, lot: int, i: nat) {
    && LastLot(db.ledger, Gamma(t), i) && db.ledger[i].key == key && db.ledger[i].quantity == lot
    && (forall id :: id in db.log && db.log[id].Open() && db.log[id].contract.optionType == t ==>
          BuysSignal(db.ledger[i], id))
  }

  ghost predicate LegHolds(db: Db, resolve: Resolver, t: OptionType, key: Key, lot: int) {
    && lot > 0
    && Net(db.ledger, Gamma(t)) == lot && NetContract(db.ledger, Gamma(t), key) == lot
    && (forall k: Key :: k != key ==> ContractFlat(db.ledger, Gamma(t), k))
    && OpenIsHeld(db, resolve, t, key, lot)
    && (exists i :: LotBought(db, t, key, lot, i))
  }

  ghost predicate LegOk(db: Db, resolve: Resolver, t: OptionType) {
    LegFlat(db, t) || exists key, lot :: LegHolds(db, resolve, t, key, lot)
  }

  /** A lot the log no longer knows about. */
  ghost predicate Surplus(db: Db, t: OptionType) {
    !HasOpen(db, t) && Net(db.ledger, Gamma(t)) != 0
  }

  lemma FlatAfterAppend(ledger: seq<Trade>, t: Trade, role: LegRole, key: Key)
    requires ContractFlat(ledger, role, key) && !t.On(role, key)
    ensures ContractFlat(ledger + [t], role, key)
  {
    NetOfAppend(ledger, t, role, key);
  }

  lemma {:induction false} NetIgnoresStateEverywhere(a: seq<Trade>, b: seq<Trade>, role: LegRole)
    requires |a| == |b|
    requires forall i :: 0 <= i < |a| ==> SameButState(a[i], b[i])
    ensures Net(a, role) == Net(b, role)
    ensures forall k: Key :: NetContract(a, role, k) == NetContract(b, role, k)
  {
    forall k: Key ensures Net(a, role) == Net(b, role) && NetContract(a, role, k) == NetContract(b, role, k) {
      NetIgnoresState(a, b, role, k);
    }
    NetIgnoresState(a, b, role, "");
  }

  /** A fill turns a flat leg into one that holds exactly its lot. */
  lemma BuyHoldsOneLot(db: Db, resolve: Resolver, ev: Evaluated, now: Moment, lot: int)
    requires LegFlat(db, ev.row.contract.optionType)
    requires BuysMatchFills(db) && IsCandidate(ev)
    requires EntryTx(db, ev, now, lot).Some?
    requires ev.key == resolve(ev.row.contract)
    requires !Conflicts(db.ledger, BuyTrade(ev, now, lot))
    ensures ev.key.Some?
    ensures LegHolds(EntryTx(db, ev, now, lot).value, resolve, ev.row.contract.optionType, ev.key.value, lot)
    ensures HasOpen(EntryTx(db, ev, now, lot).value, ev.row.contract.optionType)
  {
    var t := ev.row.contract.optionType;
    var after := EntryTx(db, ev, now, lot).value;
    var buy := BuyTrade(ev, now, lot);
    assert after.ledger == db.ledger + [buy];
    assert ev.key.Some? by {
      assert buy.Valid();
    }
    NetOfAppend(db.ledger, buy, Gamma(t), ev.key.value);
    assert ContractFlat(db.ledger, Gamma(t), ev.key.value);
    forall k: Key | k != ev.key.value ensures ContractFlat(after.ledger, Gamma(t), k) {
      assert ContractFlat(db.ledger, Gamma(t), k);
      FlatAfterAppend(db.ledger, buy, Gamma(t), k);
    }
    assert after.log[ev.id].Open();
    forall i | 0 <= i < |db.ledger| ensures !BuysSignal(db.ledger[i], ev.id) {
      if db.ledger[i].action == BUY {
        assert FillMatches(db, db.ledger[i], db.ledger[i].notes.signal);
      }
    }
    assert LotBought(after, t, ev.key.value, lot, |db.ledger|);
  }

  ghost predicate SameOpens(db: Db, after: Db, t: OptionType) {
    forall id :: (id in after.log && after.log[id].Open() && after.log[id].contract.optionType == t)
            <==> (id in db.log && db.log[id].Open() && db.log[id].contract.optionType == t)
  }

  /** Same contract and same BUY rows for every open position of the leg. */
  ghost predicate SameBuys(db: Db, after: Db, t: OptionType) {
    forall id :: id in db.log && db.log[id].Open() && db.log[id].contract.optionType == t ==>
      && id in after.log && after.log[id].contract == db.log[id].contract
      && (forall i :: 0 <= i < |after.ledger| && BuysSignal(after.ledger[i], id) ==>
            i < |db.ledger| && BuysSignal(db.ledger[i], id) && db.ledger[i].quantity == after.ledger[i].quantity)
  }

  ghost predicate SameNets(before: seq<Trade>, after: seq<Trade>, t: OptionType) {
    && Net(after, Gamma(t)) == Net(before, Gamma(t))
    && (forall k: Key :: NetContract(after, Gamma(t), k) == NetContract(before, Gamma(t), k))
    && (forall k: Key :: ContractFlat(before, Gamma(t), k) ==> ContractFlat(after, Gamma(t), k))
  }

  /** The leg's rows are where they were, up to their state, and no new row is of the leg. */
  ghost predicate SameRows(before: seq<Trade>, after: seq<Trade>, t: OptionType) {
    && |before| <= |after|
    && (forall i :: 0 <= i < |before| ==> SameButState(before[i], after[i]))
    && (forall i :: |before| <= i < |after| ==> after[i].role != Gamma(t))
  }

  lemma LotKept(db: Db, after: Db, t: OptionType, key: Key, lot: int, i: nat)
    requires SameOpens(db, after, t) && SameRows(db.ledger, after.ledger, t) && LotBought(db, t, key, lot, i)
    ensures LotBought(after, t, key, lot, i)
  {
    assert SameButState(db.ledger[i], after.ledger[i]);
    forall j | i < j < |after.ledger| ensures after.ledger[j].role != Gamma(t) {
      if j < |db.ledger| { assert SameButState(db.ledger[j], after.ledger[j]); }
    }
  }

  lemma LegFrame(db: Db, after: Db, resolve: Resolver, t: OptionType)
    requires SameOpens(db, after, t) && SameBuys(db, after, t) && SameNets(db.ledger, after.ledger, t)
    requires SameRows(db.ledger, after.ledger, t)
    ensures HasOpen(after, t) <==> HasOpen(db, t)
    ensures LegOk(db, resolve, t) ==> LegOk(after, resolve, t)
  {
    if HasOpen(after, t) {
      var id :| id in after.log && after.log[id].Open() && after.log[id].contract.optionType == t;
      assert id in db.log && db.log[id].Open();
    }
    if HasOpen(db, t) {
      var id :| id in db.log && db.log[id].Open() && db.log[id].contract.optionType == t;
      assert id in after.log && after.log[id].Open();
    }
    if LegOk(db, resolve, t) && !LegFlat(db, t) {
      var key, q :| LegHolds(db, resolve, t, key, q);
      var i :| LotBought(db, t, key, q, i);
      LotKept(db, after, t, key, q, i);
      assert OpenIsHeld(after, resolve, t, key, q);
      assert LegHolds(after, resolve, t, key, q);
    }
  }

  lemma AppendOtherKeepsNets(ledger: seq<Trade>, x: Trade, t: OptionType)
    requires x.role != Gamma(t)
    ensures SameNets(ledger, ledger + [x], t)
  {
    NetOfAppend(ledger, x, Gamma(t), "");
    forall k: Key ensures NetContract(ledger + [x], Gamma(t), k) == NetContract(ledger, Gamma(t), k)
                  ensures ContractFlat(ledger, Gamma(t), k) ==> ContractFlat(ledger + [x], Gamma(t), k)
    {
      NetOfAppend(ledger, x, Gamma(t), k);
    }
  }

  /** An entry leaves the other leg, and a refused or duplicate entry both legs, as they were. */
  lemma EntryKeepsLeg(db: Db, resolve: Resolver, ev: Evaluated, now: Moment, lot: int, t: OptionType)
    requires BuysMatchFills(db) && IsCandidate(ev) && EntryTx(db, ev, now, lot).Some?
    requires (ev.row.contract.optionType != t
              || !Clear(db, t) || Conflicts(db.ledger, BuyTrade(ev, now, lot)))
    ensures LegOk(db, resolve, t) ==> LegOk(EntryTx(db, ev, now, lot).value, resolve, t)
    ensures Net(EntryTx(db, ev, now, lot).value.ledger, Gamma(t)) == Net(db.ledger, Gamma(t))
    ensures HasOpen(EntryTx(db, ev, now, lot).value, t) <==> HasOpen(db, t)
  {
    var after := EntryTx(db, ev, now, lot).value;
    if after.ledger != db.ledger {
      AppendOtherKeepsNets(db.ledger, BuyTrade(ev, now, lot), t);
    }
    assert SameOpens(db, after, t);
    LegFrame(db, after, resolve, t);
  }

  /** A close of the held position: the first SELL of the contract on its date flattens the leg and
      closes all its rows; a second one is swallowed by the unique key and strands the lot. */
  lemma SellFlattensOrStrands(db: Db, resolve: Resolver, o: ExitOrder, now: Moment, lot: int)
    requires Agreed(db) && o.id in db.log && db.log[o.id].Open() && db.log[o.id].contract == o.contract
    requires LegHolds(db, resolve, o.contract.optionType, o.key, lot)
    ensures SellTrade(o, now, lot).Valid() ==> ExitTx(db, o, now, lot).Some?
    ensures ExitTx(db, o, now, lot).Some? ==>
      var after := ExitTx(db, o, now, lot).value;
      && !HasOpen(after, o.contract.optionType)
      && (if Conflicts(db.ledger, SellTrade(o, now, lot))
          then LegHolds(after, resolve, o.contract.optionType, o.key, lot)
          else LegFlat(after, o.contract.optionType))
  {
    var t := o.contract.optionType;
    var sell := SellTrade(o, now, lot);
    if ExitTx(db, o, now, lot).Some? {
      var after := ExitTx(db, o, now, lot).value;
      assert !HasOpen(after, t) by {
        assert after.log.Keys == db.log.Keys;
        assert forall id :: id in db.log && id != o.id ==> after.log[id] == db.log[id];
      }
      if Conflicts(db.ledger, sell) {
        assert Insert(db.ledger, sell) == db.ledger;
        assert after.ledger == db.ledger;
        var i :| LotBought(db, t, o.key, lot, i);
        assert LotBought(after, t, o.key, lot, i);
      } else {
        SellFlattensLedger(db.ledger, sell, lot);
      }
    }
  }

  lemma SellFlattensLedger(ledger: seq<Trade>, sell: Trade, lot: int)
    requires sell.action == SELL && sell.quantity == lot && !Conflicts(ledger, sell)
    requires Net(ledger, sell.role) == lot && NetContract(ledger, sell.role, sell.key) == lot
    requires forall k: Key :: k != sell.key ==> ContractFlat(ledger, sell.role, k)
    ensures Net(CloseLong(ledger, sell), sell.role) == 0
    ensures forall k: Key :: ContractFlat(CloseLong(ledger, sell), sell.role, k)
  {
    var inserted := ledger + [sell];
    assert Insert(ledger, sell) == inserted;
    NetOfAppend(ledger, sell, sell.role, sell.key);
    assert Net(inserted, sell.role) == 0;
    var after := MarkClosed(inserted, sell.role, sell.key);
    assert CloseLong(ledger, sell) == after;
    NetIgnoresStateEverywhere(inserted, after, sell.role);
    forall k: Key ensures ContractFlat(after, sell.role, k) {
      if k != sell.key {
        assert ContractFlat(ledger, sell.role, k);
        FlatAfterAppend(ledger, sell, sell.role, k);
        forall i | 0 <= i < |after| && after[i].On(sell.role, k) ensures !after[i].Live() {
          assert after[i] == inserted[i];
        }
      }
    }
  }

  /** A close touches no other leg. */
  lemma ExitKeepsOtherLeg(db: Db, resolve: Resolver, o: ExitOrder, now: Moment, lot: int, t: OptionType)
    requires ExitTx(db, o, now, lot).Some?
    requires o.id in db.log && db.log[o.id].Open() && db.log[o.id].contract == o.contract
    requires o.contract.optionType != t
    ensures LegOk(db, resolve, t) ==> LegOk(ExitTx(db, o, now, lot).value, resolve, t)
    ensures Net(ExitTx(db, o, now, lot).value.ledger, Gamma(t)) == Net(db.ledger, Gamma(t))
    ensures HasOpen(ExitTx(db, o, now, lot).value, t) <==> HasOpen(db, t)
  {
    var sell := SellTrade(o, now, lot);
    var after := ExitTx(db, o, now, lot).value;
    assert SameNets(db.ledger, after.ledger, t) by { CloseOtherKeepsNets(db.ledger, sell, t); }
    assert SameOpens(db, after, t) by {
      assert forall id :: id in db.log && id != o.id ==> after.log[id] == db.log[id];
    }
    CloseOtherKeepsRows(db.ledger, sell, t);
    RowsKeepBuys(db, after, t);
    LegFrame(db, after, resolve, t);
  }

  lemma CloseOtherKeepsRows(ledger: seq<Trade>, x: Trade, t: OptionType)
    requires x.role != Gamma(t) && x.action == SELL
    ensures SameRows(ledger, CloseLong(ledger, x), t)
    ensures forall i :: |ledger| <= i < |CloseLong(ledger, x)| ==> CloseLong(ledger, x)[i].action == SELL
  {
    CloseLongShape(ledger, x);
  }

  /** Rows that keep all but their state still buy the same signals. */
  lemma RowsKeepBuys(db: Db, after: Db, t: OptionType)
    requires SameRows(db.ledger, after.ledger, t)
    requires forall i :: |db.ledger| <= i < |after.ledger| ==> after.ledger[i].action == SELL
    requires forall other :: other in db.log ==>
      other in after.log && after.log[other].contract == db.log[other].contract
    ensures SameBuys(db, after, t)
  {
    forall i | 0 <= i < |db.ledger| ensures SameButState(db.ledger[i], after.ledger[i]) {
    }
  }

  lemma CloseOtherKeepsNets(ledger: seq<Trade>, x: Trade, t: OptionType)
    requires x.role != Gamma(t)
    ensures SameNets(ledger, CloseLong(ledger, x), t)
  {
    var inserted := Insert(ledger, x);
    AppendOtherKeepsNets(ledger, x, t);
    if Net(inserted, x.role) == 0 {
      MarkOtherKeepsNets(inserted, x.role, x.key, t);
    }
  }

  lemma MarkOtherKeepsNets(ledger: seq<Trade>, role: LegRole, key: Key, t: OptionType)
    requires role != Gamma(t)
    ensures SameNets(ledger, MarkClosed(ledger, role, key), t)
  {
    var after := MarkClosed(ledger, role, key);
    NetIgnoresStateEverywhere(ledger, after, Gamma(t));
    forall k: Key | ContractFlat(ledger, Gamma(t), k) ensures ContractFlat(after, Gamma(t), k) {
      forall i | 0 <= i < |after| && after[i].On(Gamma(t), k) ensures !after[i].Live() {
        assert after[i] == ledger[i];
      }
    }
  }

  /** The one lot of the leg: its last row, worth the whole net, and the purchase of any open position. */
  ghost predicate NetIsLot(db: Db, t: OptionType, i: nat) {
    && LastLot(db.ledger, Gamma(t), i) && Net(db.ledger, Gamma(t)) == db.ledger[i].quantity
    && NetContract(db.ledger, Gamma(t), db.ledger[i].key) == db.ledger[i].quantity
    && (forall id :: id in db.log && db.log[id].Open() && db.log[id].contract.optionType == t ==>
          BuysSignal(db.ledger[i], id))
  }

  /** What the accounting gives a reader: the leg holds nothing, or exactly the lot of its last purchase. */
  lemma LegNetIsZeroOrOneLot(db: Db, resolve: Resolver, t: OptionType)
    requires LegOk(db, resolve, t)
    ensures Net(db.ledger, Gamma(t)) >= 0
    ensures if Net(db.ledger, Gamma(t)) == 0 then !HasOpen(db, t) else exists i :: NetIsLot(db, t, i)
  {
    if !LegFlat(db, t) {
      var key, q :| LegHolds(db, resolve, t, key, q);
      var i :| LotBought(db, t, key, q, i);
      assert NetIsLot(db, t, i);
    }
  }

  lemma LegHasNoStaleRow(db: Db, resolve: Resolver, t: OptionType)
    requires LegOk(db, resolve, t)
    ensures NoStaleFlatLeg(db.ledger, Gamma(t))
  {
    forall i | 0 <= i < |db.ledger| && db.ledger[i].role == Gamma(t) && db.ledger[i].Live()
      ensures NetContract(db.ledger, Gamma(t), db.ledger[i].key) != 0
    {
      assert !ContractFlat(db.ledger, Gamma(t), db.ledger[i].key);
    }
  }
}
