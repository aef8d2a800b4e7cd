/** The trades the engine's books make are trades that settle, whatever the order in which
    settlement takes them, and a market buy's trades never use up its budget. */
module EngineTrades {
  import opened Prelude
  import opened OrderBooks
  import opened Matching
  import opened BookTrades
  import F = Fees
  import L = Ledger
  import S = Settlement
  import R = Reservation
  import G = Progress
  import P = SettlementOrder
  import B = BookRuns

  // ------------------------------------------------------------------- many books

  /** The books of an engine, one run per symbol, and all their trades as they came. */
  ghost predicate Made(all: seq<EngineTrade>, runs: map<string, seq<B.Action>>) {
    && (forall s :: s in runs ==> IsShift(runs[s], s) && Shift(OPENING, runs[s]).trades == OfSymbol(all, s))
    && (forall i :: 0 <= i < |all| ==> all[i].symbol in runs)
  }

  /** The order table holds the submitted orders, open and with that much left. */
  predicate Backed(st: S.Store, submitted: map<nat, BookOrder>) {
    forall id :: id in submitted ==>
      && S.HasOrder(st.orders, id) && S.IsOpen(st.orders[id - 1])
      && var row, o := st.orders[id - 1], submitted[id];
         && row.user == o.user && o.user != 0 && row.symbol == o.symbol && o.symbol != "" && row.side == o.side
         && row.kind == o.kind && row.price == o.price
         && (Works(o) ==> row.amount - row.filled == o.amount)
  }

  ghost predicate AllBacked(st: S.Store, runs: map<string, seq<B.Action>>) {
    forall s :: s in runs ==> Backed(st, Shift(OPENING, runs[s]).submitted)
  }

  /** A trade between two open rows on terms both accept. */
  predicate Acceptable(st: S.Store, t: EngineTrade) {
    && S.HasOrder(st.orders, t.buyOrder) && S.HasOrder(st.orders, t.sellOrder) && t.price > 0.0 && t.quantity > 0.0
    && t.symbol != ""
    && var b, s := st.orders[t.buyOrder - 1], st.orders[t.sellOrder - 1];
       && S.IsOpen(b) && S.IsOpen(s) && b.side == Buy && s.side == Sell && b.symbol == t.symbol && s.symbol == t.symbol
       && b.user != 0 && s.user != 0 && b.user != s.user
       && (b.kind == Limit ==> t.price <= b.price)
  }

  lemma {:induction false} OfSymbolHas(all: seq<EngineTrade>, i: nat)
    requires i < |all|
    ensures all[i] in OfSymbol(all, all[i].symbol)
  {
    var n := |all| - 1;
    if i < n {
      OfSymbolHas(all[..n], i);
    }
  }

  lemma TradesAreAcceptable(st: S.Store, all: seq<EngineTrade>, runs: map<string, seq<B.Action>>, i: nat)
    requires Made(all, runs) && AllBacked(st, runs) && i < |all|
    ensures Acceptable(st, all[i])
  {
    hide IsShift, Shift, B.Inv, AllTied, Single, Tied, Capped;
    var t := all[i];
    var f := Shift(OPENING, runs[t.symbol]);
    EveryTradeIsCovered(runs[t.symbol], t.symbol);
    OfSymbolHas(all, i);
    var k :| 0 <= k < |f.trades| && f.trades[k] == t;
    assert Fair(f.trades[k], f.submitted);
  }

  /** A row that trades was submitted to the book of its own symbol. */
  lemma TradersAreSubmitted(st: S.Store, all: seq<EngineTrade>, runs: map<string, seq<B.Action>>, id: nat, i: nat)
    requires Made(all, runs) && AllBacked(st, runs) && i < |all| && (all[i].buyOrder == id || all[i].sellOrder == id)
    ensures S.HasOrder(st.orders, id) && st.orders[id - 1].symbol == all[i].symbol && all[i].symbol in runs
    ensures id in Shift(OPENING, runs[all[i].symbol]).submitted
  {
    hide IsShift, Shift, B.Inv, AllTied, Single, Tied, Capped, OfSymbol;
    var t := all[i];
    var f := Shift(OPENING, runs[t.symbol]);
    EveryTradeIsCovered(runs[t.symbol], t.symbol);
    OfSymbolHas(all, i);
    var k :| 0 <= k < |f.trades| && f.trades[k] == t;
    assert Fair(f.trades[k], f.submitted);
  }

  /** No row trades beyond what it has left, over all books together, and no market buy
      spends more than the quote it was submitted with. */
  lemma RowIsCovered(st: S.Store, all: seq<EngineTrade>, runs: map<string, seq<B.Action>>, id: nat, i: nat)
    requires Made(all, runs) && AllBacked(st, runs) && i < |all| && (all[i].buyOrder == id || all[i].sellOrder == id)
    ensures S.HasOrder(st.orders, id)
    ensures var row := st.orders[id - 1];
      if S.IsMarketBuy(row)
      then exists o :: BoughtFor(st, runs, id, o) && Spending(all, id) <= o.quote
      else row.filled + Volume(all, id) <= row.amount
  {
    hide IsShift, Shift, B.Inv, AllTied, Single, Tied, OfSymbol, Volume, Spending;
    TradersAreSubmitted(st, all, runs, id, i);
    var symbol := st.orders[id - 1].symbol;
    forall k | 0 <= k < |all| && (all[k].buyOrder == id || all[k].sellOrder == id) ensures all[k].symbol == symbol {
      TradersAreSubmitted(st, all, runs, id, k);
    }
    VolumeOfSymbol(all, symbol, id);
    SubmittedIsCovered(st, runs, id, symbol);
  }

  lemma SubmittedIsCovered(st: S.Store, runs: map<string, seq<B.Action>>, id: nat, symbol: string)
    requires symbol in runs && IsShift(runs[symbol], symbol) && AllBacked(st, runs)
    requires S.HasOrder(st.orders, id) && st.orders[id - 1].symbol == symbol && id in Shift(OPENING, runs[symbol]).submitted
    ensures var row, f := st.orders[id - 1], Shift(OPENING, runs[symbol]);
      if S.IsMarketBuy(row)
      then BoughtFor(st, runs, id, f.submitted[id]) && Spending(f.trades, id) <= f.submitted[id].quote
      else row.filled + Volume(f.trades, id) <= row.amount
  {
    hide IsShift, Shift, B.Inv, AllTied, Single, Tied, Volume, Spending;
    EveryTradeIsCovered(runs[symbol], symbol);
    assert Backed(st, Shift(OPENING, runs[symbol]).submitted);
  }

  /** The order a market buy's row was submitted as. */
  ghost predicate BoughtFor(st: S.Store, runs: map<string, seq<B.Action>>, id: nat, o: BookOrder)
    requires S.HasOrder(st.orders, id)
  {
    var symbol := st.orders[id - 1].symbol;
    && symbol in runs && id in Shift(OPENING, runs[symbol]).submitted && Shift(OPENING, runs[symbol]).submitted[id] == o
    && o.kind == Market && o.side == Buy
  }

  // ---------------------------------------------------------------- into settlement

  /** A trade as settlement receives it, with the fees of the policy. */
  function Booked(t: EngineTrade, key: string, number: nat): S.Trade {
    S.WithFees(S.Trade(key, number, key, t.symbol, t.price, t.quantity, 0.0, 0.0, 0.0, t.buyOrder, t.sellOrder))
  }

  /** The first `n` trades whose buyer placed a limit order. */
  function Settling(st: S.Store, all: seq<EngineTrade>, keys: seq<string>, n: nat): seq<S.Trade>
    requires n <= |all| == |keys|
  {
    if n == 0 then []
    else
      var t, before := all[n - 1], Settling(st, all, keys, n - 1);
      if S.HasOrder(st.orders, t.buyOrder) && st.orders[t.buyOrder - 1].kind == Limit
      then before + [Booked(t, keys[n - 1], n)] else before
  }

  /** Event keys are new and never used twice. */
  predicate NewKeys(st: S.Store, keys: seq<string>) {
    && (forall i, j :: 0 <= i < j < |keys| ==> keys[i] != keys[j])
    && (forall i :: 0 <= i < |keys| ==> S.FindTrade(st.trades, keys[i]).None?)
  }

  ghost predicate AllAcceptable(st: S.Store, all: seq<EngineTrade>) {
    forall i :: 0 <= i < |all| ==> Acceptable(st, all[i])
  }

  lemma {:induction false} SettlingIsPlain(st: S.Store, all: seq<EngineTrade>, keys: seq<string>, n: nat, i: nat)
    requires AllAcceptable(st, all) && NewKeys(st, keys)
    requires n <= |all| == |keys| && i < |Settling(st, all, keys, n)|
    ensures P.Plain(st, Settling(st, all, keys, n)[i])
    ensures exists k :: 0 <= k < n && Settling(st, all, keys, n)[i].key == keys[k]
  {
    if i < |Settling(st, all, keys, n - 1)| {
      SettlingIsPlain(st, all, keys, n - 1, i);
      var k :| 0 <= k < n - 1 && Settling(st, all, keys, n - 1)[i].key == keys[k];
      assert Settling(st, all, keys, n)[i].key == keys[k];
    } else {
      assert Acceptable(st, all[n - 1]);
      assert Settling(st, all, keys, n)[i] == Booked(all[n - 1], keys[n - 1], n);
      assert Settling(st, all, keys, n)[i].key == keys[n - 1];
    }
  }

  lemma {:induction false} SettlingKeysDiffer(st: S.Store, all: seq<EngineTrade>, keys: seq<string>, n: nat, i: nat, j: nat)
    requires AllAcceptable(st, all) && NewKeys(st, keys)
    requires n <= |all| == |keys| && i < j < |Settling(st, all, keys, n)|
    ensures Settling(st, all, keys, n)[i].key != Settling(st, all, keys, n)[j].key
  {
    hide AllAcceptable;
    if j < |Settling(st, all, keys, n - 1)| {
      SettlingKeysDiffer(st, all, keys, n - 1, i, j);
    } else {
      SettlingIsPlain(st, all, keys, n - 1, i);
    }
  }

  lemma {:induction false} QuantityNext(ts: seq<S.Trade>, t: S.Trade, id: nat)
    ensures P.Quantity(ts + [t], id) == P.Quantity(ts, id) + P.QuantityAt(t, id)
  {
    assert (ts + [t])[..|ts|] == ts;
  }

  lemma NoVolume(id: nat)
    ensures P.Quantity([], id) == 0.0 && Volume([], id) == 0.0
  {
  }

  /** What is settled of a row is what it traded, at most; and a row in these trades works
      off an amount. */
  lemma {:induction false} SettlingVolume(st: S.Store, all: seq<EngineTrade>, keys: seq<string>, n: nat, id: nat)
    requires AllAcceptable(st, all) && n <= |all| == |keys|
    ensures 0.0 <= P.Quantity(Settling(st, all, keys, n), id) <= Volume(all[..n], id)
    ensures P.Quantity(Settling(st, all, keys, n), id) > 0.0 ==>
      && (exists i :: 0 <= i < n && (all[i].buyOrder == id || all[i].sellOrder == id))
      && S.HasOrder(st.orders, id) && !S.IsMarketBuy(st.orders[id - 1])
  {
    hide P.Quantity, Volume;
    NoVolume(id);
    if n > 0 {
      SettlingVolume(st, all, keys, n - 1, id);
      var t := all[n - 1];
      assert Acceptable(st, t);
      assert all[..n] == all[..n - 1] + [t];
      VolumeNext(all[..n - 1], t, id);
      QuantityNext(Settling(st, all, keys, n - 1), Booked(t, keys[n - 1], n), id);
    }
  }

  /** What the engine's books make for held orders, over all symbols, is what settlement
      can take in any order. */
  lemma EngineTradesAreEmitted(st: S.Store, all: seq<EngineTrade>, runs: map<string, seq<B.Action>>, keys: seq<string>)
    requires Made(all, runs) && AllBacked(st, runs) && NewKeys(st, keys) && |keys| == |all|
    ensures P.Emitted(st, Settling(st, all, keys, |all|))
  {
    hide Made, AllBacked, Acceptable, P.Plain, P.Quantity, Settling, NewKeys, Volume, Spending;
    forall i | 0 <= i < |all| ensures Acceptable(st, all[i]) {
      TradesAreAcceptable(st, all, runs, i);
    }
    var ts := Settling(st, all, keys, |all|);
    forall i | 0 <= i < |ts| ensures P.Plain(st, ts[i]) {
      SettlingIsPlain(st, all, keys, |all|, i);
    }
    forall i, j | 0 <= i < j < |ts| ensures ts[i].key != ts[j].key {
      SettlingKeysDiffer(st, all, keys, |all|, i, j);
    }
    forall i | 0 <= i < |st.orders| && P.Quantity(ts, i + 1) > 0.0
      ensures st.orders[i].filled + P.Quantity(ts, i + 1) <= st.orders[i].amount
    {
      SettlingVolume(st, all, keys, |all|, i + 1);
      assert all[..|all|] == all;
      var k :| 0 <= k < |all| && (all[k].buyOrder == i + 1 || all[k].sellOrder == i + 1);
      RowIsCovered(st, all, runs, i + 1, k);
    }
  }

  /** End to end: let any number of books run in any way, then settle the trades of their
      limit buyers in any order whatever. Every one of them settles, and the order of
      settlement leaves no trace in fills, statuses or balances. */
  lemma EngineTradesSettleInAnyOrder(
    base: R.Exchange, all: seq<EngineTrade>, runs: map<string, seq<B.Action>>, keys: seq<string>, us: seq<S.Trade>)
    requires |keys| == |all|
    requires R.Inv(base) && L.Sound(base.store.ledger) && P.PartiesSolvent(base.store, Settling(base.store, all, keys, |all|))
    requires Made(all, runs) && AllBacked(base.store, runs) && NewKeys(base.store, keys)
    requires multiset(us) == multiset(Settling(base.store, all, keys, |all|))
    ensures var ts := Settling(base.store, all, keys, |all|);
      && P.SettleAll(base.store, ts).Ok? && P.SettleAll(base.store, us).Ok?
      && var a, b := P.SettleAll(base.store, ts).value, P.SettleAll(base.store, us).value;
         a.orders == b.orders && forall x :: L.Balance(a.ledger, x) == L.Balance(b.ledger, x)
  {
    hide Made, R.Inv, L.Sound, P.PartiesSolvent, P.Emitted, P.SettleAll, AllBacked, NewKeys, Settling;
    EngineTradesAreEmitted(base.store, all, runs, keys);
    P.SettlementOrderDoesNotMatter(base, Settling(base.store, all, keys, |all|), us);
  }

  // ----------------------------------------------------------- the budget of a market buy

  /** Every market buy was submitted with the executable part of its row's budget, which
      has sixteen digits and is worth more than their rounding, and none of it is spent. */
  ghost predicate Budgeted(st: S.Store, runs: map<string, seq<B.Action>>) {
    forall id: nat, o :: S.HasOrder(st.orders, id) && BoughtFor(st, runs, id, o) ==>
      var budget := st.orders[id - 1].quote;
      && st.orders[id - 1].filledQuote == 0.0 && o.quote == F.ExecutableQuote(budget)
      && F.OnGrid(budget) && budget > 0.5 / F.SCALE * (1.0 + F.FEE_RATE) / F.FEE_RATE
  }

  /** What an order spends in some of the first `n` trades. */
  ghost function SpentIn(all: seq<EngineTrade>, id: nat, n: nat, some: set<nat>): real
    requires n <= |all|
  {
    if n == 0 then 0.0 else SpentIn(all, id, n - 1, some) + if n - 1 in some then CostAt(all[n - 1], id) else 0.0
  }

  lemma {:induction false} SpentInSome(st: S.Store, all: seq<EngineTrade>, id: nat, n: nat, some: set<nat>)
    requires AllAcceptable(st, all) && n <= |all|
    ensures 0.0 <= SpentIn(all, id, n, some) <= Spending(all[..n], id)
  {
    hide Spending, Cost;
    NoTrades("", id);
    if n > 0 {
      SpentInSome(st, all, id, n - 1, some);
      assert Acceptable(st, all[n - 1]);
      CostIsPositive(all[n - 1].price, all[n - 1].quantity);
      assert all[..n] == all[..n - 1] + [all[n - 1]];
      SpendingNext(all[..n - 1], all[n - 1], id);
    }
  }

  lemma CostIsPositive(price: real, quantity: real)
    requires price > 0.0 && quantity > 0.0
    ensures Cost(price, quantity) > 0.0
  {
  }

  lemma {:induction false} SpentInMore(all: seq<EngineTrade>, id: nat, n: nat, some: set<nat>, k: nat)
    requires n <= |all| && k < |all| && k !in some
    ensures SpentIn(all, id, n, some + {k}) == SpentIn(all, id, n, some) + if k < n then CostAt(all[k], id) else 0.0
  {
    if n > 0 {
      SpentInMore(all, id, n - 1, some, k);
    }
  }

  /** A row has the terms it started with, and as a market buy no more on it than the
      trades tried so far. */
  ghost predicate RowBehind(base: S.Store, st: S.Store, all: seq<EngineTrade>, some: set<nat>, id: nat)
    requires S.HasOrder(base.orders, id) && |st.orders| == |base.orders|
  {
    var was, row := base.orders[id - 1], st.orders[id - 1];
    && row.side == was.side && row.kind == was.kind && row.quote == was.quote
    && (S.IsMarketBuy(was) ==> row.filledQuote <= was.filledQuote + SpentIn(all, id, |all|, some))
  }

  ghost predicate Behind(base: S.Store, st: S.Store, all: seq<EngineTrade>, some: set<nat>) {
    |st.orders| == |base.orders| && forall id :: S.HasOrder(base.orders, id) ==> RowBehind(base, st, all, some, id)
  }

  /** The settlement of one of the trades. */
  function SettleOne(all: seq<EngineTrade>, keys: seq<string>, outbox: seq<nat>, k: nat): R.Action
    requires k < |all| == |keys| == |outbox|
  {
    R.Settle(S.Item(Booked(all[k], keys[k], k + 1), outbox[k]))
  }

  /** What any of the trades leaves of a market buy's budget. */
  lemma BudgetIsKept(base: S.Store, all: seq<EngineTrade>, runs: map<string, seq<B.Action>>, some: set<nat>, k: nat)
    requires Made(all, runs) && AllBacked(base, runs) && Budgeted(base, runs) && k < |all| && k !in some
    ensures S.HasOrder(base.orders, all[k].buyOrder)
    ensures var id := all[k].buyOrder;
      var row := base.orders[id - 1];
      S.IsMarketBuy(row) ==>
        row.filledQuote + SpentIn(all, id, |all|, some) + Cost(all[k].price, all[k].quantity) < row.quote
  {
    hide Made, AllBacked, Acceptable, Spending, SpentIn, BoughtFor, F.ExecutableQuote, F.OnGrid, Cost;
    var id := all[k].buyOrder;
    RowIsCovered(base, all, runs, id, k);
    var row := base.orders[id - 1];
    if S.IsMarketBuy(row) {
      var o :| BoughtFor(base, runs, id, o) && Spending(all, id) <= o.quote;
      F.ExecutableQuoteBelowBudget(row.quote);
      forall i | 0 <= i < |all| ensures Acceptable(base, all[i]) {
        TradesAreAcceptable(base, all, runs, i);
      }
      SpentInMore(all, id, |all|, some, k);
      SpentInSome(base, all, id, |all|, some + {k});
      assert all[..|all|] == all;
    }
  }

  lemma GuardHolds(
    base: S.Store, x: R.Exchange, all: seq<EngineTrade>, runs: map<string, seq<B.Action>>,
    keys: seq<string>, outbox: seq<nat>, some: set<nat>, k: nat)
    requires Made(all, runs) && AllBacked(base, runs) && Budgeted(base, runs) && k < |all| == |keys| == |outbox| && k !in some
    requires Behind(base, x.store, all, some)
    ensures R.Enabled(x, SettleOne(all, keys, outbox, k))
  {
    hide Made, AllBacked, Budgeted, SpentIn;
    BudgetIsKept(base, all, runs, some, k);
    assert RowBehind(base, x.store, all, some, all[k].buyOrder);
    assert S.Quote(Booked(all[k], keys[k], k + 1)) == Cost(all[k].price, all[k].quantity);
  }

  /** A row after a settlement: its terms, and no more than the trade's quote added. */
  predicate RowFilled(row: S.Order, row': S.Order, added: real) {
    && row'.side == row.side && row'.kind == row.kind && row'.quote == row.quote
    && (row.side == Buy ==> row'.filledQuote <= row.filledQuote + added)
  }

  lemma ApplyingFillsRows(st: S.Store, t: S.Trade, id: nat)
    requires S.HasOrder(st.orders, id) && S.ApplyTrade(st, t).Ok? && S.Quote(t) > 0.0
    ensures var st' := S.ApplyTrade(st, t).value;
      && |st'.orders| == |st.orders|
      && RowFilled(st.orders[id - 1], st'.orders[id - 1], if t.buyOrder == id then S.Quote(t) else 0.0)
  {
    hide S.ApplyTrade, S.Fill, S.Quote, S.PlanTrade, L.Record;
    R.ApplyParts(st, t);
    if id != t.buyOrder && id != t.sellOrder {
      assert S.ApplyTrade(st, t).value.orders[id - 1] == st.orders[id - 1];
    }
  }

  /** What a settlement does to a row, whether or not it is refused. */
  lemma SettlingFillsRows(x: R.Exchange, item: S.Item, id: nat)
    requires S.HasOrder(x.store.orders, id) && S.Quote(item.trade) > 0.0
    ensures var st' := R.Do(x, R.Settle(item)).store;
      && |st'.orders| == |x.store.orders|
      && RowFilled(x.store.orders[id - 1], st'.orders[id - 1], if item.trade.buyOrder == id then S.Quote(item.trade) else 0.0)
  {
    hide S.ApplyTrade, S.FindTrade, RowFilled;
    var t := S.WithFees(item.trade);
    assert S.Quote(t) == S.Quote(item.trade);
    RowUnfilled(x.store.orders[id - 1], S.Quote(t));
    if S.ApplyTrade(x.store, t).Ok? {
      ApplyingFillsRows(x.store, t, id);
    }
  }

  lemma RowUnfilled(row: S.Order, added: real)
    requires added > 0.0
    ensures RowFilled(row, row, added) && RowFilled(row, row, 0.0)
  {
  }

  lemma StaysBehind(
    base: S.Store, x: R.Exchange, all: seq<EngineTrade>, keys: seq<string>, outbox: seq<nat>, some: set<nat>, k: nat)
    requires Behind(base, x.store, all, some) && AllAcceptable(base, all) && k < |all| == |keys| == |outbox| && k !in some
    ensures Behind(base, R.Do(x, SettleOne(all, keys, outbox, k)).store, all, some + {k})
  {
    hide R.Do, SpentIn, AllAcceptable, Cost, S.Quote;
    var item := SettleOne(all, keys, outbox, k).item;
    CostOfTrade(base, all, k);
    QuoteOfTrade(all[k], keys[k], k + 1);
    SettlingFillsRows(x, item, all[k].buyOrder);
    forall id | S.HasOrder(base.orders, id)
      ensures RowBehind(base, R.Do(x, R.Settle(item)).store, all, some + {k}, id)
    {
      SettlingFillsRows(x, item, id);
      assert RowBehind(base, x.store, all, some, id);
      SpentInMore(all, id, |all|, some, k);
    }
  }

  lemma CostOfTrade(st: S.Store, all: seq<EngineTrade>, k: nat)
    requires AllAcceptable(st, all) && k < |all|
    ensures Cost(all[k].price, all[k].quantity) > 0.0 && S.HasOrder(st.orders, all[k].buyOrder)
  {
    assert Acceptable(st, all[k]);
    CostIsPositive(all[k].price, all[k].quantity);
  }

  lemma QuoteOfTrade(t: EngineTrade, key: string, number: nat)
    ensures S.Quote(Booked(t, key, number)) == Cost(t.price, t.quantity)
  {
  }

  function SettleSome(all: seq<EngineTrade>, keys: seq<string>, outbox: seq<nat>, ks: seq<nat>): seq<R.Action>
    requires |all| == |keys| == |outbox| && forall i :: 0 <= i < |ks| ==> ks[i] < |all|
  {
    seq(|ks|, i requires 0 <= i < |ks| => SettleOne(all, keys, outbox, ks[i]))
  }

  function Tried(ks: seq<nat>): set<nat> {
    set k | k in ks
  }

  /** Settle any of the engine's trades, market buys' included, each once and in any
      order, some refused: a market buy's filled quote stays below its budget at every
      settlement, so every user's locked balance stays exactly what is reserved. */
  lemma {:induction false} EngineTradesStayInBudget(
    base: R.Exchange, all: seq<EngineTrade>, runs: map<string, seq<B.Action>>, keys: seq<string>, outbox: seq<nat>, ks: seq<nat>)
    requires R.Inv(base) && Made(all, runs) && AllBacked(base.store, runs) && Budgeted(base.store, runs)
    requires |all| == |keys| == |outbox| && forall i :: 0 <= i < |ks| ==> ks[i] < |all|
    requires forall i, j :: 0 <= i < j < |ks| ==> ks[i] != ks[j]
    ensures var actions := SettleSome(all, keys, outbox, ks);
      && R.Inv(G.Play(base, actions))
      && forall i :: 0 <= i < |actions| ==> R.Enabled(G.Play(base, actions[..i]), actions[i])
    ensures Behind(base.store, G.Play(base, SettleSome(all, keys, outbox, ks)).store, all, Tried(ks))
  {
    hide R.Inv, Made, AllBacked, Budgeted, Behind, R.Enabled, R.Do, AllAcceptable;
    var actions := SettleSome(all, keys, outbox, ks);
    if ks == [] {
      NothingTried(base.store, all);
      assert actions == [] && Tried(ks) == {};
    } else {
      var n := |ks| - 1;
      var before := SettleSome(all, keys, outbox, ks[..n]);
      assert actions == before + [SettleOne(all, keys, outbox, ks[n])];
      EngineTradesStayInBudget(base, all, runs, keys, outbox, ks[..n]);
      var x := G.Play(base, before);
      var tried := Tried(ks[..n]);
      GuardHolds(base.store, x, all, runs, keys, outbox, tried, ks[n]);
      R.StepKeepsInv(x, actions[n]);
      AllAreAcceptable(base.store, all, runs);
      StaysBehind(base.store, x, all, keys, outbox, tried, ks[n]);
      G.PlayNext(base, before, actions[n]);
      assert Tried(ks) == tried + {ks[n]} by { assert ks == ks[..n] + [ks[n]]; }
      forall i | 0 <= i < |actions| ensures R.Enabled(G.Play(base, actions[..i]), actions[i]) {
        if i < n {
          assert before[..i] == actions[..i] && before[i] == actions[i];
        } else {
          assert actions[..i] == before;
        }
      }
    }
  }

  lemma AllAreAcceptable(st: S.Store, all: seq<EngineTrade>, runs: map<string, seq<B.Action>>)
    requires Made(all, runs) && AllBacked(st, runs)
    ensures AllAcceptable(st, all)
  {
    hide Made, AllBacked, Acceptable;
    forall i | 0 <= i < |all| ensures Acceptable(st, all[i]) {
      TradesAreAcceptable(st, all, runs, i);
    }
  }

  lemma NothingTried(st: S.Store, all: seq<EngineTrade>)
    ensures Behind(st, st, all, {})
  {
    forall id | S.HasOrder(st.orders, id) ensures SpentIn(all, id, |all|, {}) == 0.0 {
      NothingSpent(all, id, |all|);
    }
  }

  lemma {:induction false} NothingSpent(all: seq<EngineTrade>, id: nat, n: nat)
    requires n <= |all|
    ensures SpentIn(all, id, n, {}) == 0.0
  {
    if n > 0 {
      NothingSpent(all, id, n - 1);
    }
  }
}
