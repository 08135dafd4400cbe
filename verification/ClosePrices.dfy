/** The price of each closing trade, told from quotes, index level and strikes: a quote, the payoff of an expired
    contract, or what the leg was entered for. */
module ClosePrices {
  import opened Wrappers
  import opened PaperLedger
  import opened CondorRoll
  import opened CloseExecutor

  /** Equal to the half cent. */
  predicate NearCent(price: real, x: real) { -0.005 <= price - x <= 0.005 }

  /** The price feed has a positive quote of a key. */
  predicate HasQuote(feeds: Feeds, key: Key, quote: real) { feeds.ltp(key) == Some(quote) && quote > 0.0 }

  predicate NoQuote(feeds: Feeds, key: Key) { feeds.ltp(key).None? || feeds.ltp(key).value <= 0.0 }

  /** The legs up to and including the i-th that have no quote. */
  function UnquotedUpTo(feeds: Feeds, legs: seq<Position>, i: nat): set<nat>
    requires i < |legs|
  {
    set j | 0 <= j <= i && NoQuote(feeds, legs[j].key)
  }

  /** The instrument master a leg is looked up in: the first that could be loaded, with one more attempt for each leg
      without a quote until then. */
  ghost predicate LookedUpIn(feeds: Feeds, legs: seq<Position>, i: nat, master: Master)
    requires i < |legs|
  {
    exists n: nat :: n < |UnquotedUpTo(feeds, legs, i)| && feeds.master(n) == Some(master)
                     && forall m: nat :: m < n ==> feeds.master(m).None?
  }

  lemma {:induction false} FirstLoadedIff(master: nat -> Option<Master>, attempts: nat, found: Master)
    ensures FirstLoaded(master, attempts) == Some(found)
       <==> exists n: nat :: n < attempts && master(n) == Some(found) && forall m: nat :: m < n ==> master(m).None?
    ensures FirstLoaded(master, attempts).None? <==> forall m: nat :: m < attempts ==> master(m).None?
  {
    if attempts > 0 {
      FirstLoadedIff(master, attempts - 1, found);
    }
  }

  lemma {:induction false} UnquotedCount(feeds: Feeds, legs: seq<Position>, i: nat)
    requires i < |legs|
    ensures |UnquotedUpTo(feeds, legs, i)| == Unquoted(feeds, legs[..i + 1])
  {
    assert legs[..i + 1][..i] == legs[..i];
    if i > 0 {
      UnquotedCount(feeds, legs, i - 1);
      OneMoreUnquoted(feeds, legs, i);
    } else {
      assert UnquotedUpTo(feeds, legs, 0) == if NoQuote(feeds, legs[0].key) then {0} else {};
      assert legs[..0] == [];
    }
  }

  lemma OneMoreUnquoted(feeds: Feeds, legs: seq<Position>, i: nat)
    requires 0 < i < |legs|
    ensures |UnquotedUpTo(feeds, legs, i)|
         == |UnquotedUpTo(feeds, legs, i - 1)| + (if NoQuote(feeds, legs[i].key) then 1 else 0)
  {
    assert UnquotedUpTo(feeds, legs, i)
        == UnquotedUpTo(feeds, legs, i - 1) + (if NoQuote(feeds, legs[i].key) then {i} else {});
  }

  lemma TradeOfLeg(feeds: Feeds, legs: seq<Position>, i: nat, notes: Notes)
    requires i < |legs|
    ensures CloseTrades(feeds, legs, notes)[i] == LegTrade(feeds, legs, i, notes)
  {
    PrefixOfCloseTrades(feeds, legs, i + 1, notes);
    assert legs[..i + 1][..i] == legs[..i];
  }

  /** The price of the i-th closing trade. */
  function PriceOf(feeds: Feeds, legs: seq<Position>, i: nat, notes: Notes): real
    requires i < |legs|
  {
    CloseTrades(feeds, legs, notes)[i].price
  }

  /** A quoted leg is closed at its quote. */
  lemma QuotedLegClosesAtQuote(feeds: Feeds, legs: seq<Position>, i: nat, notes: Notes, quote: real)
    requires i < |legs| && HasQuote(feeds, legs[i].key, quote)
    ensures NearCent(PriceOf(feeds, legs, i, notes), quote)
  {
    TradeOfLeg(feeds, legs, i, notes);
    CentsNear(quote);
  }

  /** The contract of an unquoted leg has expired, and there is an index level to settle it at. */
  ghost predicate Settles(feeds: Feeds, legs: seq<Position>, i: nat, optionType: OptionType, strike: real, spot: real)
    requires i < |legs|
  {
    && NoQuote(feeds, legs[i].key) && feeds.spot == Some(spot)
    && exists master, expiry: int :: LookedUpIn(feeds, legs, i, master) && expiry <= feeds.today
         && master(legs[i].key) == Some(Instrument(Some(expiry), Some(optionType), Some(strike)))
  }

  /** An expired call is closed at what the index is above its strike, an expired put at what it is below, and at one
      tick when that is nothing. */
  lemma ExpiredLegClosesAtPayoff(feeds: Feeds, legs: seq<Position>, i: nat, notes: Notes, optionType: OptionType,
                                 strike: real, spot: real)
    requires i < |legs| && Settles(feeds, legs, i, optionType, strike, spot)
    ensures optionType == CE && spot > strike ==> NearCent(PriceOf(feeds, legs, i, notes), spot - strike)
    ensures optionType == CE && spot <= strike ==> PriceOf(feeds, legs, i, notes) == 0.05
    ensures optionType == PE && spot < strike ==> NearCent(PriceOf(feeds, legs, i, notes), strike - spot)
    ensures optionType == PE && spot >= strike ==> PriceOf(feeds, legs, i, notes) == 0.05
  {
    TradeOfLeg(feeds, legs, i, notes);
    var master, expiry: int :| LookedUpIn(feeds, legs, i, master) && expiry <= feeds.today
      && master(legs[i].key) == Some(Instrument(Some(expiry), Some(optionType), Some(strike)));
    UnquotedCount(feeds, legs, i);
    FirstLoadedIff(feeds.master, Unquoted(feeds, legs[..i + 1]), master);
    CentsNear(spot - strike);
    CentsNear(strike - spot);
  }

  /** Any other unquoted leg is closed at what it was entered for: a short at its sale average, a long at its cost. */
  lemma OtherLegClosesAtEntry(feeds: Feeds, legs: seq<Position>, i: nat, notes: Notes)
    requires i < |legs| && NoQuote(feeds, legs[i].key)
    requires forall t, k, s :: !Settles(feeds, legs, i, t, k, s)
    ensures PriceOf(feeds, legs, i, notes) == if legs[i].netQty < 0 then legs[i].avgSell else legs[i].avgCost
  {
    TradeOfLeg(feeds, legs, i, notes);
    UnquotedCount(feeds, legs, i);
    var loaded := FirstLoaded(feeds.master, Unquoted(feeds, legs[..i + 1]));
    if loaded.Some? {
      var master := loaded.value;
      FirstLoadedIff(feeds.master, Unquoted(feeds, legs[..i + 1]), master);
      assert LookedUpIn(feeds, legs, i, master);
      var inst := master(legs[i].key);
      if inst.Some? && Expired(inst.value, feeds.today) && feeds.spot.Some? {
        var x := inst.value;
        assert x == Instrument(Some(x.expiry.value), Some(x.optionType.value), Some(x.strike.value));
        assert Settles(feeds, legs, i, x.optionType.value, x.strike.value, feeds.spot.value);
        assert false;
      }
    }
  }

  /** A closing trade is on the leg it closes, of its size and against it. */
  lemma ClosingTradeOpposes(feeds: Feeds, legs: seq<Position>, i: nat, notes: Notes)
    requires i < |legs|
    ensures var t, p := CloseTrades(feeds, legs, notes)[i], legs[i];
      && t.role == p.role && t.key == p.key && t.date == feeds.today && t.notes == notes
      && (p.netQty > 0 ==> t.action == SELL && t.quantity == p.netQty)
      && (p.netQty < 0 ==> t.action == BUY && t.quantity == -p.netQty)
  {
    TradeOfLeg(feeds, legs, i, notes);
  }

  /** The opening trades of a roll follow its closing ones, one for each leg to open: its contract, direction, size and
      price, on the day of the roll. */
  lemma OpeningTradesFollow(feeds: Feeds, positions: seq<Position>, roles: set<LegRole>, opens: seq<LegSpec>,
                            notes: Notes, i: nat)
    requires i < |opens|
    ensures var batch := RollBatch(feeds, positions, roles, opens, notes);
      var closing := |ToClose(positions, roles)|;
      |batch| == closing + |opens| && Carries(batch[closing + i], opens[i], feeds.today)
  {
    TradeAfter(CloseTrades(feeds, ToClose(positions, roles), notes), OpenTrades(feeds, opens, notes), i);
    assert Carries(OpenTrade(feeds, opens[i], notes), opens[i], feeds.today);
  }

  /** The trade opens the leg on the day. */
  predicate Carries(t: Trade, leg: LegSpec, day: int) {
    && t.role == leg.role && t.key == leg.key && t.action == leg.action && t.quantity == leg.quantity
    && t.price == leg.price && t.date == day
  }

  lemma TradeAfter(a: seq<Trade>, b: seq<Trade>, i: nat)
    requires i < |b|
    ensures |a + b| == |a| + |b| && (a + b)[|a| + i] == b[i]
  {
  }
}
