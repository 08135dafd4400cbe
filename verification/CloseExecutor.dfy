/** Closing and rolling condor legs: prices for the closing trades, the trades themselves, and the one
    batch in which they are offered to the ledger. */
module CloseExecutor {
  import opened Wrappers
  import opened PaperLedger
  import opened CondorRoll
  import opened CondorStore
  import opened Rounding

  datatype Instrument = Instrument(expiry: Option<int>, optionType: Option<OptionType>, strike: Option<real>)

  type Master = Key -> Option<Instrument>

  /** What the outside world answers. A failed price fetch is an `ltp` that knows nothing; `master(n)`
      is the n-th attempt to load the instrument master, None when it fails; `spot` is the answer to
      the one index-price fetch. */
  datatype Feeds = Feeds(today: int, ltp: Key -> Option<real>, master: nat -> Option<Master>, spot: Option<real>)

  // --- Prices -------------------------------------------------------------------

  function Cents(x: real): real { HalfEven(x * 100.0) as real / 100.0 }

  function Intrinsic(optionType: OptionType, spot: real, strike: real): real {
    if optionType == CE then spot - strike else strike - spot
  }

  const OTM_EXPIRY_PRICE: real := 0.05

  predicate Expired(inst: Instrument, today: int) {
    inst.expiry.Some? && inst.expiry.value <= today && inst.optionType.Some? && inst.strike.Some?
  }

  function Settlement(optionType: OptionType, spot: real, strike: real): real {
    if Intrinsic(optionType, spot, strike) > 0.0 then Cents(Intrinsic(optionType, spot, strike)) else OTM_EXPIRY_PRICE
  }

  predicate Quoted(feeds: Feeds, key: Key) { feeds.ltp(key).Some? && feeds.ltp(key).value > 0.0 }

  /** Live price, else settlement of an expired contract, else the leg's own entry price. */
  function ClosePrice(feeds: Feeds, master: Option<Master>, p: Position): real {
    if Quoted(feeds, p.key) then Cents(feeds.ltp(p.key).value)
    else
      var inst := if master.Some? then master.value(p.key) else None;
      if inst.Some? && Expired(inst.value, feeds.today) && feeds.spot.Some? then
        Settlement(inst.value.optionType.value, feeds.spot.value, inst.value.strike.value)
      else if p.netQty < 0 then p.avgSell else p.avgCost
  }

  /** Expiry settlement is within one tick of the intrinsic value. */
  lemma SettlementNearIntrinsic(optionType: OptionType, spot: real, strike: real)
    ensures var intrinsic := Intrinsic(optionType, spot, strike);
      var payoff := if intrinsic > 0.0 then intrinsic else 0.0;
      Abs(Settlement(optionType, spot, strike) - payoff) <= 0.05
  {
    CentsNear(Intrinsic(optionType, spot, strike));
  }

  /** A settlement is a price the ledger accepts unless the leg is in the money by half a cent or less:
      there the rounding gives 0. */
  lemma SettlementPricedIff(optionType: OptionType, spot: real, strike: real)
    ensures Settlement(optionType, spot, strike) > 0.0 <==> !(0.0 < Intrinsic(optionType, spot, strike) <= 0.005)
  {
    CentsPositiveIff(Intrinsic(optionType, spot, strike));
  }

  /** An index and strikes quoted to two decimals never give such an amount: their settlement is priced. */
  lemma QuotedSettlementIsPriced(optionType: OptionType, spotCents: int, strikeCents: int)
    ensures Settlement(optionType, spotCents as real / 100.0, strikeCents as real / 100.0) > 0.0
  {
    var cents := if optionType == CE then spotCents - strikeCents else strikeCents - spotCents;
    assert Intrinsic(optionType, spotCents as real / 100.0, strikeCents as real / 100.0) == cents as real / 100.0;
    SettlementPricedIff(optionType, spotCents as real / 100.0, strikeCents as real / 100.0);
  }

  lemma CentsNear(x: real)
    ensures -0.005 <= Cents(x) - x <= 0.005
  {
    var n := HalfEven(x * 100.0);
    assert -0.5 <= n as real - x * 100.0 <= 0.5;
  }

  lemma CentsPositiveIff(x: real)
    ensures Cents(x) > 0.0 <==> x > 0.005
  {
    var y := x * 100.0;
    assert y > 0.5 <==> x > 0.005;
    if y > 0.5 {
      assert HalfEven(y) >= 1;
    } else {
      assert HalfEven(y) <= 0;
    }
  }

  // --- Trades -------------------------------------------------------------------

  /** The instrument master after some attempts to load it: the first that succeeded is kept. */
  function FirstLoaded(master: nat -> Option<Master>, attempts: nat): Option<Master> {
    if attempts == 0 then None
    else if FirstLoaded(master, attempts - 1).Some? then FirstLoaded(master, attempts - 1)
    else master(attempts - 1)
  }

  function Unquoted(feeds: Feeds, legs: seq<Position>): nat {
    if legs == [] then 0
    else Unquoted(feeds, legs[..|legs| - 1]) + (if Quoted(feeds, legs[|legs| - 1].key) then 0 else 1)
  }

  function CloseTrade(feeds: Feeds, master: Option<Master>, p: Position, notes: Notes): Trade {
    Trade(p.role, p.key, feeds.today, if p.netQty > 0 then SELL else BUY,
          if p.netQty < 0 then -p.netQty else p.netQty, ClosePrice(feeds, master, p), notes, OPEN)
  }

  /** One closing trade per leg, each unquoted leg trying again to load a master not yet loaded. */
  function CloseTrades(feeds: Feeds, legs: seq<Position>, notes: Notes): (r: seq<Trade>)
    ensures |r| == |legs|
  {
    if legs == [] then []
    else CloseTrades(feeds, legs[..|legs| - 1], notes)
         + [CloseTrade(feeds, FirstLoaded(feeds.master, Unquoted(feeds, legs)), legs[|legs| - 1], notes)]
  }

  function LegTrade(feeds: Feeds, legs: seq<Position>, i: nat, notes: Notes): Trade
    requires i < |legs|
  {
    CloseTrade(feeds, FirstLoaded(feeds.master, Unquoted(feeds, legs[..i + 1])), legs[i], notes)
  }

  lemma NextLeg(feeds: Feeds, legs: seq<Position>, i: nat, notes: Notes)
    requires i < |legs|
    ensures CloseTrades(feeds, legs[..i + 1], notes)
         == CloseTrades(feeds, legs[..i], notes) + [LegTrade(feeds, legs, i, notes)]
    ensures Unquoted(feeds, legs[..i + 1]) == Unquoted(feeds, legs[..i]) + (if Quoted(feeds, legs[i].key) then 0 else 1)
  {
    assert legs[..i + 1][..i] == legs[..i];
  }

  lemma InvalidLegRejects(feeds: Feeds, legs: seq<Position>, i: nat, notes: Notes)
    requires i < |legs| && !LegTrade(feeds, legs, i, notes).Valid()
    ensures !AllValid(CloseTrades(feeds, legs, notes))
  {
    PrefixOfCloseTrades(feeds, legs, i + 1, notes);
    assert legs[..i + 1][..i] == legs[..i];
    assert CloseTrades(feeds, legs, notes)[..i + 1][i] == LegTrade(feeds, legs, i, notes);
  }

  predicate AllValid(trades: seq<Trade>) { forall t :: t in trades ==> t.Valid() }

  /** What the loop over the legs has looked up so far. */
  datatype Lookups = Lookups(master: Option<Master>, attempts: nat, spot: Option<real>, spotAttempted: bool)

  ghost predicate UpToDate(feeds: Feeds, l: Lookups, unquoted: nat) {
    && l.master == FirstLoaded(feeds.master, unquoted)
    && (l.master.None? ==> l.attempts == unquoted)
    && (l.spotAttempted ==> l.spot == feeds.spot)
  }

  method ResolvePrice(feeds: Feeds, p: Position, l: Lookups, ghost n: nat) returns (price: real, l': Lookups)
    requires UpToDate(feeds, l, n)
    ensures var n' := if Quoted(feeds, p.key) then n else n + 1;
      UpToDate(feeds, l', n') && price == ClosePrice(feeds, FirstLoaded(feeds.master, n'), p)
  {
    l' := l;
    if Quoted(feeds, p.key) {
      price := Cents(feeds.ltp(p.key).value);
    } else {
      if l.master.None? {
        l' := l'.(master := feeds.master(l.attempts), attempts := l.attempts + 1);
      }
      price := if p.netQty < 0 then p.avgSell else p.avgCost;
      var inst := if l'.master.Some? then l'.master.value(p.key) else None;
      if inst.Some? && Expired(inst.value, feeds.today) {
        if !l'.spotAttempted {
          l' := l'.(spot := feeds.spot, spotAttempted := true);
        }
        if l'.spot.Some? {
          price := Settlement(inst.value.optionType.value, l'.spot.value, inst.value.strike.value);
        }
      }
    }
  }

  method CloseLeg(feeds: Feeds, legs: seq<Position>, i: nat, notes: Notes, l: Lookups)
    returns (trade: Trade, l': Lookups)
    requires i < |legs| && UpToDate(feeds, l, Unquoted(feeds, legs[..i]))
    ensures trade == LegTrade(feeds, legs, i, notes) && UpToDate(feeds, l', Unquoted(feeds, legs[..i + 1]))
  {
    var p := legs[i];
    NextLeg(feeds, legs, i, notes);
    var price: real;
    price, l' := ResolvePrice(feeds, p, l, Unquoted(feeds, legs[..i]));
    trade := Trade(p.role, p.key, feeds.today, if p.netQty > 0 then SELL else BUY,
                   if p.netQty < 0 then -p.netQty else p.netQty, price, notes, OPEN);
  }

  /** `None` stands for the rejected row that makes the whole call raise. */
  method BuildCloseTrades(feeds: Feeds, legs: seq<Position>, notes: Notes) returns (r: Option<seq<Trade>>)
    ensures r == if AllValid(CloseTrades(feeds, legs, notes)) then Some(CloseTrades(feeds, legs, notes)) else None
  {
    var lookups := Lookups(None, 0, None, false);
    var trades: seq<Trade> := [];
    for i := 0 to |legs|
      invariant trades == CloseTrades(feeds, legs[..i], notes) && AllValid(trades)
      invariant UpToDate(feeds, lookups, Unquoted(feeds, legs[..i]))
    {
      NextLeg(feeds, legs, i, notes);
      var trade: Trade;
      trade, lookups := CloseLeg(feeds, legs, i, notes, lookups);
      if !trade.Valid() {
        InvalidLegRejects(feeds, legs, i, notes);
        return None;
      }
      trades := trades + [trade];
    }
    assert legs[..|legs|] == legs;
    return Some(trades);
  }

  lemma {:induction false} PrefixOfCloseTrades(feeds: Feeds, legs: seq<Position>, n: nat, notes: Notes)
    requires n <= |legs|
    ensures CloseTrades(feeds, legs[..n], notes) == CloseTrades(feeds, legs, notes)[..n]
  {
    if n < |legs| {
      var m := |legs| - 1;
      PrefixOfCloseTrades(feeds, legs[..m], n, notes);
      assert legs[..m][..n] == legs[..n];
    } else {
      assert legs[..n] == legs;
    }
  }

  // --- What the trades do to the holdings ------------------------------------------

  function HeldIn(positions: seq<Position>, role: LegRole, key: Key): int {
    if positions == [] then 0
    else
      var p := positions[|positions| - 1];
      HeldIn(positions[..|positions| - 1], role, key) + (if p.role == role && p.key == key then p.netQty else 0)
  }

  /** The open positions in the roles to close. */
  function ToClose(positions: seq<Position>, roles: set<LegRole>): seq<Position> {
    if positions == [] then []
    else
      var p := positions[|positions| - 1];
      ToClose(positions[..|positions| - 1], roles) + (if p.role in roles && p.netQty != 0 then [p] else [])
  }

  lemma {:induction false} NetOfConcat(a: seq<Trade>, b: seq<Trade>, role: LegRole, key: Key)
    ensures NetContract(a + b, role, key) == NetContract(a, role, key) + NetContract(b, role, key)
  {
    if b == [] {
      assert a + b == a;
    } else {
      var n := |b| - 1;
      NetOfConcat(a, b[..n], role, key);
      assert (a + b)[..|a| + n] == a + b[..n];
    }
  }

  /** The closing trades of any legs are worth exactly minus those legs, contract by contract. */
  lemma {:induction false} CloseTradesNegate(feeds: Feeds, legs: seq<Position>, notes: Notes, role: LegRole, key: Key)
    ensures NetContract(CloseTrades(feeds, legs, notes), role, key) == -HeldIn(legs, role, key)
  {
    if legs != [] {
      var n := |legs| - 1;
      CloseTradesNegate(feeds, legs[..n], notes, role, key);
      NetOfAppend(CloseTrades(feeds, legs[..n], notes),
                  CloseTrade(feeds, FirstLoaded(feeds.master, Unquoted(feeds, legs)), legs[n], notes), role, key);
    }
  }

  lemma {:induction false} HeldToClose(positions: seq<Position>, roles: set<LegRole>, role: LegRole, key: Key)
    ensures HeldIn(ToClose(positions, roles), role, key) == if role in roles then HeldIn(positions, role, key) else 0
  {
    if positions != [] {
      var n := |positions| - 1;
      HeldToClose(positions[..n], roles, role, key);
      var rest := ToClose(positions[..n], roles);
      assert (rest + [positions[n]])[..|rest|] == rest && rest + [] == rest;
    }
  }

  /** Over any position list: the closed roles come out flat in every contract, all other legs keep what
      they hold. */
  lemma ClosingFlattensExactly(feeds: Feeds, positions: seq<Position>, roles: set<LegRole>, notes: Notes,
                               role: LegRole, key: Key)
    ensures HeldIn(positions, role, key)
          + NetContract(CloseTrades(feeds, ToClose(positions, roles), notes), role, key)
         == if role in roles then 0 else HeldIn(positions, role, key)
  {
    CloseTradesNegate(feeds, ToClose(positions, roles), notes, role, key);
    HeldToClose(positions, roles, role, key);
  }

  // --- Persistence ------------------------------------------------------------------

  datatype Outcome = Inserted(trades: seq<Trade>) | Raised

  /** A write that faults is rolled back and reported as nothing inserted. */
  method CloseIcLegs(store: PaperStore, feeds: Feeds, positions: seq<Position>, roles: set<LegRole>,
                     notes: Notes, writeFaults: bool) returns (r: Outcome)
    modifies store`ledger
    ensures var batch := CloseTrades(feeds, ToClose(positions, roles), notes);
      && (r.Raised? <==> !AllValid(batch))
      && store.ledger == (if r.Raised? || writeFaults then old(store.ledger) else Recorded(old(store.ledger), batch))
      && (r.Inserted? ==> store.ledger == old(store.ledger) + r.trades)
  {
    var legs := ToClose(positions, roles);
    if legs == [] { return Inserted([]); }
    var trades := BuildCloseTrades(feeds, legs, notes);
    if trades.None? { return Raised; }
    if writeFaults { return Inserted([]); }
    var after, inserted, skipped := RecordTrades(store.ledger, trades.value);
    store.ledger := after;
    return Inserted(inserted);
  }

  function OpenTrade(feeds: Feeds, leg: LegSpec, notes: Notes): Trade {
    Trade(leg.role, leg.key, feeds.today, leg.action, leg.quantity, leg.price, notes, OPEN)
  }

  function OpenTrades(feeds: Feeds, legs: seq<LegSpec>, notes: Notes): (r: seq<Trade>)
    ensures |r| == |legs| && forall i :: 0 <= i < |r| ==> r[i] == OpenTrade(feeds, legs[i], notes)
  {
    seq(|legs|, i requires 0 <= i < |legs| => OpenTrade(feeds, legs[i], notes))
  }

  function RollBatch(feeds: Feeds, positions: seq<Position>, roles: set<LegRole>, opens: seq<LegSpec>,
                     notes: Notes): seq<Trade>
  {
    CloseTrades(feeds, ToClose(positions, roles), notes) + OpenTrades(feeds, opens, notes)
  }

  /** A missing price is a price of 0: either aborts the roll. */
  predicate AllPriced(opens: seq<LegSpec>) { forall i :: 0 <= i < |opens| ==> opens[i].price > 0.0 }

  /** All of a roll's trades are offered in one batch, or the ledger stays as it is. */
  method RollIcLegs(store: PaperStore, feeds: Feeds, positions: seq<Position>, roles: set<LegRole>,
                    opens: seq<LegSpec>, notes: Notes, writeFaults: bool) returns (r: Outcome)
    modifies store`ledger
    ensures var batch := RollBatch(feeds, positions, roles, opens, notes);
      && (r.Raised? <==> AllPriced(opens) && !AllValid(batch))
      && store.ledger == (if r.Raised? || writeFaults || !AllPriced(opens) then old(store.ledger)
                          else Recorded(old(store.ledger), batch))
      && (r.Inserted? ==> store.ledger == old(store.ledger) + r.trades)
  {
    var legs := ToClose(positions, roles);
    if legs == [] && opens == [] { return Inserted([]); }
    for i := 0 to |opens|
      invariant forall j :: 0 <= j < i ==> opens[j].price > 0.0
      invariant store.ledger == old(store.ledger)
    {
      if opens[i].price <= 0.0 { return Inserted([]); }
    }
    var closes := BuildCloseTrades(feeds, legs, notes);
    var openTrades := BuildOpenTrades(feeds, opens, notes);
    ValidConcat(CloseTrades(feeds, legs, notes), OpenTrades(feeds, opens, notes));
    if closes.None? || openTrades.None? { return Raised; }
    if writeFaults { return Inserted([]); }
    var after, inserted, skipped := RecordTrades(store.ledger, closes.value + openTrades.value);
    store.ledger := after;
    return Inserted(inserted);
  }

  method BuildOpenTrades(feeds: Feeds, opens: seq<LegSpec>, notes: Notes) returns (r: Option<seq<Trade>>)
    ensures r == if AllValid(OpenTrades(feeds, opens, notes)) then Some(OpenTrades(feeds, opens, notes)) else None
  {
    var trades: seq<Trade> := [];
    for i := 0 to |opens|
      invariant trades == OpenTrades(feeds, opens, notes)[..i] && AllValid(trades)
    {
      var trade := OpenTrade(feeds, opens[i], notes);
      if !trade.Valid() {
        assert OpenTrades(feeds, opens, notes)[i] == trade;
        return None;
      }
      trades := trades + [trade];
    }
    assert OpenTrades(feeds, opens, notes)[..|opens|] == OpenTrades(feeds, opens, notes);
    return Some(trades);
  }

  lemma ValidConcat(a: seq<Trade>, b: seq<Trade>)
    ensures AllValid(a + b) <==> AllValid(a) && AllValid(b)
  {
    forall t | t in a ensures t in a + b {
    }
    forall t | t in b ensures t in a + b {
    }
  }
}
