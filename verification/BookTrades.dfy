/** What the trades of one book add up to: over any run, no order trades beyond its amount,
    no market buy beyond its quote, and every trade is between two different users' orders
    of the right sides and within both their limits. */
module BookTrades {
  import opened Prelude
  import opened OrderBooks
  import opened Matching
  import opened BookRuns

  // --------------------------------------------------- how often an order rests

  function Occurs(orders: seq<BookOrder>, x: BookOrder): nat {
    multiset(orders)[x]
  }

  /** How often an order rests on a side, wherever it stands. */
  function Times(levels: seq<Level>, x: BookOrder): nat {
    if levels == [] then 0 else Times(levels[..|levels| - 1], x) + Occurs(levels[|levels| - 1].orders, x)
  }

  function Rests(book: Book, x: BookOrder): nat {
    Times(book.buys, x) + Times(book.sells, x)
  }

  lemma {:induction false} TimesSplit(levels: seq<Level>, k: nat, x: BookOrder)
    requires k <= |levels|
    ensures Times(levels, x) == Times(levels[..k], x) + Times(levels[k..], x)
  {
    hide Occurs;
    if k == |levels| {
      assert levels[..k] == levels;
    } else {
      var n := |levels| - 1;
      TimesSplit(levels[..n], k, x);
      assert levels[..n][..k] == levels[..k];
      assert levels[..n][k..] == levels[k..][..|levels[k..]| - 1];
    }
  }

  lemma {:induction false} TimesAround(levels: seq<Level>, l: nat, x: BookOrder)
    requires l < |levels|
    ensures Times(levels, x) == Times(levels[..l], x) + Occurs(levels[l].orders, x) + Times(levels[l + 1..], x)
  {
    hide Occurs;
    TimesSplit(levels, l + 1, x);
    assert levels[..l + 1][..l] == levels[..l];
  }

  lemma {:induction false} TimesSetQueue(levels: seq<Level>, l: nat, orders: seq<BookOrder>, x: BookOrder)
    requires l < |levels|
    ensures Times(SetQueue(levels, l, orders), x) == Times(levels, x) - Occurs(levels[l].orders, x) + Occurs(orders, x)
  {
    hide Times, Occurs;
    TimesAround(levels, l, x);
    var after := SetQueue(levels, l, orders);
    if orders == [] {
      TimesSplit(after, l, x);
      assert after[..l] == levels[..l] && after[l..] == levels[l + 1..];
      NoneOccurs(x);
    } else {
      TimesAround(after, l, x);
      assert after[..l] == levels[..l] && after[l + 1..] == levels[l + 1..];
    }
  }

  lemma NoneOccurs(x: BookOrder)
    ensures Occurs([], x) == 0 && Times([], x) == 0
  {
  }

  lemma {:induction false} OccursChange(orders: seq<BookOrder>, i: nat, left: BookOrder, x: BookOrder)
    requires i < |orders|
    ensures Occurs(orders[i := left], x) == Occurs(orders, x) - (if x == orders[i] then 1 else 0) + (if x == left then 1 else 0)
    ensures Occurs(Without(orders, i), x) == Occurs(orders, x) - if x == orders[i] then 1 else 0
    ensures Occurs(orders, orders[i]) >= 1
    ensures Occurs(orders + [left], x) == Occurs(orders, x) + if x == left then 1 else 0
  {
    assert orders == orders[..i] + [orders[i]] + orders[i + 1..];
    assert orders[i := left] == orders[..i] + [left] + orders[i + 1..];
  }

  /** A trade changes the one resting order it meets. */
  lemma {:induction false} TimesTake(levels: seq<Level>, l: nat, i: nat, q: real, x: BookOrder)
    requires l < |levels| && i < |levels[l].orders|
    ensures var r := levels[l].orders[i];
      var left := r.(amount := r.amount - q, filled := r.filled + q);
      && Times(levels, r) >= 1
      && Times(Take(levels, l, i, q), x) ==
         Times(levels, x) - (if x == r then 1 else 0) + if x == left && left.amount > 0.0 then 1 else 0
  {
    hide Times, Occurs, SetQueue;
    var orders := levels[l].orders;
    var r := orders[i];
    var left := r.(amount := r.amount - q, filled := r.filled + q);
    OccursChange(orders, i, left, x);
    TimesAround(levels, l, r);
    TimesSetQueue(levels, l, if left.amount > 0.0 then orders[i := left] else Without(orders, i), x);
  }

  lemma {:induction false} TimesInsert(levels: seq<Level>, o: BookOrder, x: BookOrder)
    requires SideOk(o.side, levels)
    ensures Times(Insert(levels, o), x) == Times(levels, x) + if x == o then 1 else 0
  {
    hide Times, Occurs, SetQueue, Position;
    var k := Position(o.side, levels, o.price);
    if k < |levels| && levels[k].price == o.price {
      assert LevelOk(o.side, levels[k]);
      OccursChange(levels[k].orders, 0, o, x);
      TimesSetQueue(levels, k, levels[k].orders + [o], x);
    } else {
      TimesSplit(levels, k, x);
      var after := levels[..k] + [Level(o.price, [o])] + levels[k..];
      TimesAround(after, k, x);
      assert after[..k] == levels[..k] && after[k + 1..] == levels[k..];
      OneOccurs(o, x);
    }
  }

  lemma OneOccurs(o: BookOrder, x: BookOrder)
    ensures Occurs([o], x) == if x == o then 1 else 0
  {
  }

  lemma {:induction false} TimesRemove(levels: seq<Level>, price: real, id: nat, x: BookOrder)
    requires Remove(levels, price, id).Some?
    ensures var r := Removed(levels, price, id);
      r.id == id && Times(levels, r) >= 1 && Times(Remove(levels, price, id).value, x) == Times(levels, x) - if x == r then 1 else 0
  {
    hide Times, Occurs, SetQueue;
    var l := LevelAt(levels, price);
    var orders := levels[l].orders;
    var i := IndexOf(orders, id);
    OccursChange(orders, i, orders[i], x);
    TimesAround(levels, l, orders[i]);
    TimesSetQueue(levels, l, Without(orders, i), x);
  }

  /** The order a removal takes out. */
  function Removed(levels: seq<Level>, price: real, id: nat): BookOrder
    requires Remove(levels, price, id).Some?
  {
    var l := LevelAt(levels, price);
    levels[l].orders[IndexOf(levels[l].orders, id)]
  }

  // ------------------------------------------------------------------ what is owed

  function QuantityAt(t: EngineTrade, id: nat): real {
    if t.buyOrder == id || t.sellOrder == id then t.quantity else 0.0
  }

  /** How much an order has traded. */
  ghost function Volume(trades: seq<EngineTrade>, id: nat): real {
    if trades == [] then 0.0 else Volume(trades[..|trades| - 1], id) + QuantityAt(trades[|trades| - 1], id)
  }

  lemma VolumeNext(trades: seq<EngineTrade>, t: EngineTrade, id: nat)
    ensures Volume(trades + [t], id) == Volume(trades, id) + QuantityAt(t, id)
  {
    assert (trades + [t])[..|trades|] == trades;
  }

  function CostAt(t: EngineTrade, id: nat): real {
    if t.buyOrder == id then Cost(t.price, t.quantity) else 0.0
  }

  /** How much an order has spent. */
  ghost function Spending(trades: seq<EngineTrade>, id: nat): real {
    if trades == [] then 0.0 else Spending(trades[..|trades| - 1], id) + CostAt(trades[|trades| - 1], id)
  }

  lemma SpendingNext(trades: seq<EngineTrade>, t: EngineTrade, id: nat)
    ensures Spending(trades + [t], id) == Spending(trades, id) + CostAt(t, id)
  {
    assert (trades + [t])[..|trades|] == trades;
  }

  function TurnoverAt(t: EngineTrade, id: nat): real {
    if t.buyOrder == id || t.sellOrder == id then Cost(t.price, t.quantity) else 0.0
  }

  /** What an order has traded, in quote. */
  ghost function Turnover(trades: seq<EngineTrade>, id: nat): real {
    if trades == [] then 0.0 else Turnover(trades[..|trades| - 1], id) + TurnoverAt(trades[|trades| - 1], id)
  }

  lemma TurnoverNext(trades: seq<EngineTrade>, t: EngineTrade, id: nat)
    ensures Turnover(trades + [t], id) == Turnover(trades, id) + TurnoverAt(t, id)
  {
    assert (trades + [t])[..|trades|] == trades;
  }

  /** The trades of one symbol, in order. */
  function OfSymbol(trades: seq<EngineTrade>, symbol: string): seq<EngineTrade> {
    if trades == [] then []
    else
      var t := trades[|trades| - 1];
      OfSymbol(trades[..|trades| - 1], symbol) + if t.symbol == symbol then [t] else []
  }

  lemma OfSymbolNext(trades: seq<EngineTrade>, t: EngineTrade, symbol: string)
    ensures OfSymbol(trades + [t], symbol) == if t.symbol == symbol then OfSymbol(trades, symbol) + [t] else OfSymbol(trades, symbol)
  {
    assert (trades + [t])[..|trades|] == trades;
  }

  lemma NoTrades(symbol: string, id: nat)
    ensures OfSymbol([], symbol) == [] && Volume([], id) == 0.0 && Spending([], id) == 0.0 && Turnover([], id) == 0.0
  {
  }

  /** An order whose trades are all of one symbol has its volume there. */
  lemma {:induction false} VolumeOfSymbol(trades: seq<EngineTrade>, symbol: string, id: nat)
    requires forall i :: 0 <= i < |trades| && (trades[i].buyOrder == id || trades[i].sellOrder == id) ==> trades[i].symbol == symbol
    ensures Volume(trades, id) == Volume(OfSymbol(trades, symbol), id)
    ensures Spending(trades, id) == Spending(OfSymbol(trades, symbol), id)
    ensures Turnover(trades, id) == Turnover(OfSymbol(trades, symbol), id)
  {
    hide Volume, Spending, Turnover, OfSymbol, Cost;
    NoTrades(symbol, id);
    if trades != [] {
      var before, t := trades[..|trades| - 1], trades[|trades| - 1];
      assert trades == before + [t];
      VolumeOfSymbol(before, symbol, id);
      OfSymbolNext(before, t, symbol);
      VolumeNext(before, t, id);
      SpendingNext(before, t, id);
      TurnoverNext(before, t, id);
      TurnoverNext(OfSymbol(before, symbol), t, id);
      VolumeNext(OfSymbol(before, symbol), t, id);
      SpendingNext(OfSymbol(before, symbol), t, id);
    }
  }

  /** Orders that work off an amount; a market buy spends a budget instead. */
  predicate Works(o: BookOrder) {
    !(o.kind == Market && o.side == Buy)
  }

  /** An order is the one that was submitted, less what it has traded. */
  ghost predicate Tied(o: BookOrder, submitted: map<nat, BookOrder>, trades: seq<EngineTrade>) {
    && o.id in submitted
    && var s := submitted[o.id];
       && s.user == o.user && s.symbol == o.symbol && s.side == o.side && s.kind == o.kind && s.price == o.price
       && (if Works(o) then o.amount + Volume(trades, o.id) == s.amount
           else o.quote >= 0.0 && o.quote + Spending(trades, o.id) == s.quote)
  }

  ghost predicate AllTied(book: Book, submitted: map<nat, BookOrder>, trades: seq<EngineTrade>) {
    forall x :: Rests(book, x) > 0 ==> Tied(x, submitted, trades)
  }

  /** Each order rests once, and no two share an id. */
  ghost predicate Single(book: Book) {
    && (forall x :: Rests(book, x) <= 1)
    && (forall x, y :: Rests(book, x) > 0 && Rests(book, y) > 0 && x.id == y.id ==> x == y)
  }

  ghost predicate Absent(book: Book, id: nat) {
    forall x :: Rests(book, x) > 0 ==> x.id != id
  }

  /** No order has traded beyond its amount, and no market buy beyond its quote. */
  ghost predicate Capped(submitted: map<nat, BookOrder>, trades: seq<EngineTrade>) {
    && (forall id :: id in submitted ==>
          if Works(submitted[id]) then Volume(trades, id) <= submitted[id].amount
          else Spending(trades, id) <= submitted[id].quote)
    && (forall id :: id !in submitted ==> Volume(trades, id) == 0.0 && Spending(trades, id) == 0.0)
  }

  /** A trade between the orders it names, on terms both accept. */
  predicate Fair(t: EngineTrade, submitted: map<nat, BookOrder>) {
    && t.buyOrder in submitted && t.sellOrder in submitted && t.price > 0.0 && t.quantity > 0.0
    && var b, s := submitted[t.buyOrder], submitted[t.sellOrder];
       && b.side == Buy && s.side == Sell && b.symbol == t.symbol && s.symbol == t.symbol && !SameOwner(b.user, s.user)
       && (b.kind == Limit ==> t.price <= b.price) && (s.kind == Limit ==> s.price <= t.price)
  }

  predicate AllFair(trades: seq<EngineTrade>, submitted: map<nat, BookOrder>) {
    forall i :: 0 <= i < |trades| ==> Fair(trades[i], submitted)
  }

  predicate OneSymbol(submitted: map<nat, BookOrder>, symbol: string) {
    forall id :: id in submitted ==> submitted[id].symbol == symbol && submitted[id].id == id
  }

  /** The ledger of a book in the middle of a sweep by `o`. */
  ghost predicate Balanced(book: Book, o: BookOrder, submitted: map<nat, BookOrder>, trades: seq<EngineTrade>) {
    && AllTied(book, submitted, trades) && Single(book) && Absent(book, o.id) && Tied(o, submitted, trades)
    && Capped(submitted, trades) && AllFair(trades, submitted)
  }

  ghost predicate Present(book: Book, id: nat) {
    exists x :: Rests(book, x) > 0 && x.id == id
  }

  /** A limit order that was not cancelled, is not being swept and has not traded all of its
      amount. */
  ghost predicate Stays(
    id: nat, submitted: map<nat, BookOrder>, cancelled: set<nat>, trades: seq<EngineTrade>, sweeping: Option<nat>)
  {
    && id in submitted && submitted[id].kind == Limit && id !in cancelled && sweeping != Some(id)
    && Volume(trades, id) < submitted[id].amount
  }

  /** Exactly those orders rest: none is lost and none comes back. */
  ghost predicate Kept(
    book: Book, submitted: map<nat, BookOrder>, cancelled: set<nat>, trades: seq<EngineTrade>, sweeping: Option<nat>)
  {
    forall id :: Present(book, id) <==> Stays(id, submitted, cancelled, trades, sweeping)
  }

  lemma {:induction false} TradeRests(book: Book, o: BookOrder, x: BookOrder)
    requires Facing(book, o) && TradeOnce(book, o).Some?
    ensures var t, best := TradeOnce(book, o).value, Best(book.On(Opposite(o.side)), o);
      && best.Some?
      && var r := book.On(Opposite(o.side))[best.value.0].orders[best.value.1];
         var left := r.(amount := r.amount - t.trade.quantity, filled := r.filled + t.trade.quantity);
         && Rests(book, r) >= 1
         && Rests(t.book, x) == Rests(book, x) - (if x == r then 1 else 0) + if x == left && left.amount > 0.0 then 1 else 0
  {
    hide Times, SideOk, Take, Best;
    var levels := book.On(Opposite(o.side));
    var (l, i) := Best(levels, o).value;
    TimesTake(levels, l, i, TradeOnce(book, o).value.trade.quantity, x);
  }

  lemma {:induction false} RestingIsOk(book: Book, o: BookOrder, l: nat, i: nat)
    requires Facing(book, o) && l < |book.On(Opposite(o.side))| && i < |book.On(Opposite(o.side))[l].orders|
    ensures OrderOk(Opposite(o.side), book.On(Opposite(o.side))[l].price, book.On(Opposite(o.side))[l].orders[i])
  {
    assert LevelOk(Opposite(o.side), book.On(Opposite(o.side))[l]);
  }

  /** Each trade keeps the ledger. */
  lemma {:induction false} TradeBalances(book: Book, o: BookOrder, submitted: map<nat, BookOrder>, trades: seq<EngineTrade>, symbol: string)
    requires Facing(book, o) && TradeOnce(book, o).Some? && Balanced(book, o, submitted, trades) && OneSymbol(submitted, symbol)
    ensures var t := TradeOnce(book, o).value;
      Balanced(t.book, t.order, submitted, trades + [t.trade])
  {
    hide AllTied, Single, Absent, Tied, Capped, AllFair, OneSymbol, Facing, TradeOnce;
    TradeKeepsTied(book, o, submitted, trades);
    TradeKeepsCapped(book, o, submitted, trades, symbol);
  }

  /** Both parties stay what they were submitted as, less what they have traded. */
  lemma {:induction false} TradeKeepsTied(book: Book, o: BookOrder, submitted: map<nat, BookOrder>, trades: seq<EngineTrade>)
    requires Facing(book, o) && TradeOnce(book, o).Some? && Balanced(book, o, submitted, trades)
    ensures var t := TradeOnce(book, o).value;
      && AllTied(t.book, submitted, trades + [t.trade]) && Single(t.book) && Absent(t.book, t.order.id)
      && Tied(t.order, submitted, trades + [t.trade])
  {
    hide SideOk, Best, Take, Rests, Capacity, Volume, Spending, Cost, Capped, AllFair;
    var t, best := TradeOnce(book, o).value, Best(book.On(Opposite(o.side)), o);
    var (l, i) := best.value;
    var r := book.On(Opposite(o.side))[l].orders[i];
    var q := t.trade.quantity;
    var left := r.(amount := r.amount - q, filled := r.filled + q);
    TradeIsFair(book, o);
    RestingIsOk(book, o, l, i);
    TradeKeeps(book, o);
    forall x
      ensures Rests(book, r) >= 1
      ensures Rests(t.book, x) == Rests(book, x) - (if x == r then 1 else 0) + if x == left && left.amount > 0.0 then 1 else 0
    {
      TradeRests(book, o, x);
    }
    forall id: nat
      ensures Volume(trades + [t.trade], id) == Volume(trades, id) + QuantityAt(t.trade, id)
      ensures Spending(trades + [t.trade], id) == Spending(trades, id) + CostAt(t.trade, id)
    {
      VolumeNext(trades, t.trade, id);
      SpendingNext(trades, t.trade, id);
    }
    assert Tied(r, submitted, trades) && r.id != o.id;
  }

  /** Neither party goes beyond its amount or quote, and the trade is fair. */
  lemma {:induction false} TradeKeepsCapped(book: Book, o: BookOrder, submitted: map<nat, BookOrder>, trades: seq<EngineTrade>, symbol: string)
    requires Facing(book, o) && TradeOnce(book, o).Some? && Balanced(book, o, submitted, trades) && OneSymbol(submitted, symbol)
    ensures var t := TradeOnce(book, o).value;
      Capped(submitted, trades + [t.trade]) && AllFair(trades + [t.trade], submitted)
  {
    hide SideOk, Best, Take, Rests, Capacity, Volume, Spending, Cost, Single;
    var t, best := TradeOnce(book, o).value, Best(book.On(Opposite(o.side)), o);
    var (l, i) := best.value;
    var r := book.On(Opposite(o.side))[l].orders[i];
    TradeIsFair(book, o);
    RestingIsOk(book, o, l, i);
    TradeRests(book, o, r);
    forall id: nat
      ensures Volume(trades + [t.trade], id) == Volume(trades, id) + QuantityAt(t.trade, id)
      ensures Spending(trades + [t.trade], id) == Spending(trades, id) + CostAt(t.trade, id)
    {
      VolumeNext(trades, t.trade, id);
      SpendingNext(trades, t.trade, id);
    }
    assert Tied(r, submitted, trades) && r.id != o.id;
  }

  lemma {:induction false} SliceBalances(book: Book, o: BookOrder, n: nat, submitted: map<nat, BookOrder>, trades: seq<EngineTrade>, symbol: string)
    requires Facing(book, o) && Balanced(book, o, submitted, trades) && OneSymbol(submitted, symbol)
    ensures var s := Slice(book, o, n);
      Balanced(s.book, s.order, submitted, trades + s.trades)
    decreases n
  {
    hide Balanced, Facing, Follows, TradeOnce, OneSymbol;
    if TradeOnce(book, o).Some? && n > 0 {
      var t := TradeOnce(book, o).value;
      TradeBalances(book, o, submitted, trades, symbol);
      TradeFaces(book, o);
      SliceBalances(t.book, t.order, n - 1, submitted, trades + [t.trade], symbol);
      assert trades + [t.trade] + Slice(t.book, t.order, n - 1).trades == trades + ([t.trade] + Slice(t.book, t.order, n - 1).trades);
    } else {
      assert trades + [] == trades;
    }
  }

  /** Who is there after one resting order has changed. */
  lemma {:induction false} PresentAfterTrade(book: Book, after: Book, r: BookOrder, left: BookOrder, id: nat)
    requires Single(book) && Rests(book, r) >= 1 && left.id == r.id && left != r
    requires forall x :: Rests(after, x) == Rests(book, x) - (if x == r then 1 else 0) + if x == left && left.amount > 0.0 then 1 else 0
    ensures Present(after, id) <==> if id == r.id then left.amount > 0.0 else Present(book, id)
  {
    hide Rests;
    if id == r.id {
      if left.amount > 0.0 {
        assert Rests(after, left) > 0;
      }
    } else if Present(book, id) {
      var x :| Rests(book, x) > 0 && x.id == id;
      assert Rests(after, x) > 0;
    }
  }

  lemma {:induction false} TradeKeepsResting(
    book: Book, o: BookOrder, submitted: map<nat, BookOrder>, cancelled: set<nat>, trades: seq<EngineTrade>, symbol: string)
    requires Facing(book, o) && TradeOnce(book, o).Some? && Balanced(book, o, submitted, trades) && OneSymbol(submitted, symbol)
    requires Kept(book, submitted, cancelled, trades, Some(o.id))
    ensures var t := TradeOnce(book, o).value;
      Kept(t.book, submitted, cancelled, trades + [t.trade], Some(o.id))
  {
    hide SideOk, Best, Take, Rests, Capacity, Volume, Spending, Cost, Present, Capped, AllFair, Fair;
    var t, best := TradeOnce(book, o).value, Best(book.On(Opposite(o.side)), o);
    var (l, i) := best.value;
    var r := book.On(Opposite(o.side))[l].orders[i];
    var q := t.trade.quantity;
    var left := r.(amount := r.amount - q, filled := r.filled + q);
    TradeIsFair(book, o);
    RestingIsOk(book, o, l, i);
    forall x
      ensures Rests(book, r) >= 1
      ensures Rests(t.book, x) == Rests(book, x) - (if x == r then 1 else 0) + if x == left && left.amount > 0.0 then 1 else 0
    {
      TradeRests(book, o, x);
    }
    assert Tied(r, submitted, trades) && r.id != o.id;
    forall id ensures Present(t.book, id) <==> Stays(id, submitted, cancelled, trades + [t.trade], Some(o.id)) {
      VolumeNext(trades, t.trade, id);
      PresentAfterTrade(book, t.book, r, left, id);
      assert Present(book, id) <==> Stays(id, submitted, cancelled, trades, Some(o.id));
      assert Present(book, r.id) by { IsPresent(book, r); }
    }
  }

  lemma IsPresent(book: Book, x: BookOrder)
    requires Rests(book, x) > 0
    ensures Present(book, x.id)
  {
  }

  lemma {:induction false} SliceKeepsResting(
    book: Book, o: BookOrder, n: nat, submitted: map<nat, BookOrder>, cancelled: set<nat>, trades: seq<EngineTrade>, symbol: string)
    requires Facing(book, o) && Balanced(book, o, submitted, trades) && OneSymbol(submitted, symbol)
    requires Kept(book, submitted, cancelled, trades, Some(o.id))
    ensures var s := Slice(book, o, n);
      Kept(s.book, submitted, cancelled, trades + s.trades, Some(o.id)) && s.order.id == o.id
    decreases n
  {
    hide Balanced, Facing, TradeOnce, OneSymbol, Kept;
    if TradeOnce(book, o).Some? && n > 0 {
      var t := TradeOnce(book, o).value;
      TradeBalances(book, o, submitted, trades, symbol);
      TradeKeepsResting(book, o, submitted, cancelled, trades, symbol);
      TradeFaces(book, o);
      TradeKeeps(book, o);
      SliceKeepsResting(t.book, t.order, n - 1, submitted, cancelled, trades + [t.trade], symbol);
      assert trades + [t.trade] + Slice(t.book, t.order, n - 1).trades == trades + ([t.trade] + Slice(t.book, t.order, n - 1).trades);
    } else {
      assert trades + [] == trades;
    }
  }

  /** What rests of a finished order is all it has left. */
  lemma {:induction false} FinishKeepsResting(
    book: Book, o: BookOrder, submitted: map<nat, BookOrder>, cancelled: set<nat>, trades: seq<EngineTrade>)
    requires BookOk(book) && Absent(book, o.id) && Tied(o, submitted, trades) && o.id !in cancelled
    requires Kept(book, submitted, cancelled, trades, Some(o.id))
    ensures Kept(Finish(book, o), submitted, cancelled, trades, None)
  {
    hide Times, SideOk, Uncrossed, Volume, Spending, Insert;
    var after := Finish(book, o);
    forall x ensures Rests(after, x) == Rests(book, x) + if x == o && o.kind == Limit && o.amount > 0.0 then 1 else 0 {
      if o.kind == Limit && o.amount > 0.0 {
        TimesInsert(book.On(o.side), o, x);
      }
    }
    forall id ensures Present(after, id) <==> Stays(id, submitted, cancelled, trades, None) {
      assert Present(book, id) <==> Stays(id, submitted, cancelled, trades, Some(o.id));
      PresentAfterFinish(book, after, o, id);
    }
  }

  lemma {:induction false} PresentAfterFinish(book: Book, after: Book, o: BookOrder, id: nat)
    requires forall x :: Rests(after, x) == Rests(book, x) + if x == o && o.kind == Limit && o.amount > 0.0 then 1 else 0
    ensures Present(after, id) <==> Present(book, id) || (id == o.id && o.kind == Limit && o.amount > 0.0)
  {
    hide Rests;
    if Present(book, id) {
      var x :| Rests(book, x) > 0 && x.id == id;
      assert Rests(after, x) > 0;
    }
    if id == o.id && o.kind == Limit && o.amount > 0.0 {
      assert Rests(after, o) > 0;
    }
  }

  // -------------------------------------------------------------------------- runs

  /** A book at work, every order ever submitted to it or cancelled from it, every market
      order as its sweep left it, and every trade made. */
  datatype Floor = Floor(
    desk: Desk, submitted: map<nat, BookOrder>, cancelled: set<nat>, reports: map<nat, BookOrder>, trades: seq<EngineTrade>)

  /** Orders are submitted once, under their own id and the book's symbol. */
  predicate Permitted(f: Floor, a: Action, symbol: string) {
    && Enabled(f.desk, a)
    && (a.Admit? ==> a.order.id !in f.submitted && a.order.symbol == symbol && a.order.amount >= 0.0)
  }

  function Advance(f: Floor, a: Action): Floor {
    var desk := Act(f.desk, a);
    match a
    case Admit(o) => f.(desk := desk, submitted := f.submitted[o.id := o])
    case RunSlice(n) =>
      if f.desk.active.None? then f
      else
        var s := Slice(f.desk.book, f.desk.active.value.order, n);
        f.(desk := desk, trades := f.trades + s.trades,
           reports := if s.done && s.order.kind == Market then f.reports[s.order.id := s.order] else f.reports)
    case Cancel(side, price, id) =>
      f.(desk := desk, cancelled := if Remove(f.desk.book.On(side), price, id).Some? then f.cancelled + {id} else f.cancelled)
  }

  ghost predicate FloorInv(f: Floor, symbol: string) {
    && Inv(f.desk) && OneSymbol(f.submitted, symbol) && Capped(f.submitted, f.trades) && AllFair(f.trades, f.submitted)
    && AllTied(f.desk.book, f.submitted, f.trades) && Single(f.desk.book)
    && (f.desk.active.Some? ==>
          Absent(f.desk.book, f.desk.active.value.order.id) && Tied(f.desk.active.value.order, f.submitted, f.trades)
          && f.desk.active.value.order.id !in f.cancelled)
    && Kept(f.desk.book, f.submitted, f.cancelled, f.trades, Sweeping(f.desk))
    && f.cancelled <= f.submitted.Keys
  }

  /** The order being swept, if there is one. */
  function Sweeping(d: Desk): Option<nat> {
    if d.active.Some? then Some(d.active.value.order.id) else None
  }

  lemma {:induction false} AdmitAdvances(f: Floor, o: BookOrder, symbol: string)
    requires FloorInv(f, symbol) && Permitted(f, Admit(o), symbol)
    ensures FloorInv(Advance(f, Admit(o)), symbol)
  {
    hide Rests, Volume, Spending, BookOk, Accounted;
    ActKeepsInv(f.desk, Admit(o));
    assert Volume(f.trades, o.id) == 0.0 && Spending(f.trades, o.id) == 0.0;
    forall i | 0 <= i < |f.trades|
      ensures Fair(f.trades[i], f.submitted[o.id := o])
    {
      assert Fair(f.trades[i], f.submitted);
    }
    forall x | Rests(f.desk.book, x) > 0
      ensures Tied(x, f.submitted[o.id := o], f.trades) && x.id != o.id
    {
      assert Tied(x, f.submitted, f.trades);
    }
    forall id ensures Present(f.desk.book, id) <==>
      Stays(id, f.submitted[o.id := o], f.cancelled, f.trades, Sweeping(Act(f.desk, Admit(o))))
    {
      assert Present(f.desk.book, id) <==> Stays(id, f.submitted, f.cancelled, f.trades, Sweeping(f.desk));
    }
  }

  lemma {:induction false} SliceAdvances(f: Floor, n: nat, symbol: string)
    requires FloorInv(f, symbol) && Permitted(f, RunSlice(n), symbol) && f.desk.active.Some?
    ensures FloorInv(Advance(f, RunSlice(n)), symbol)
  {
    hide Rests, Volume, Spending, BookOk, Accounted, Slice, Finish, Tied, Fair, Works, Kept;
    var o := f.desk.active.value.order;
    var s := Slice(f.desk.book, o, n);
    ActKeepsInv(f.desk, RunSlice(n));
    BookFaces(f.desk.book, o);
    SliceBalances(f.desk.book, o, n, f.submitted, f.trades, symbol);
    SliceKeepsResting(f.desk.book, o, n, f.submitted, f.cancelled, f.trades, symbol);
    if s.done {
      SliceKeepsBook(f.desk.book, o, n);
      FinishRests(s.book, s.order, f.submitted, f.trades + s.trades);
      FinishKeepsResting(s.book, s.order, f.submitted, f.cancelled, f.trades + s.trades);
    }
  }

  lemma BookFaces(book: Book, o: BookOrder)
    requires BookOk(book)
    ensures Facing(book, o)
  {
  }

  /** What rests of a finished order is tied like the rest. */
  lemma {:induction false} FinishRests(book: Book, o: BookOrder, submitted: map<nat, BookOrder>, trades: seq<EngineTrade>)
    requires BookOk(book) && AllTied(book, submitted, trades) && Single(book) && Absent(book, o.id) && Tied(o, submitted, trades)
    ensures AllTied(Finish(book, o), submitted, trades) && Single(Finish(book, o))
  {
    hide Tied, Times, SideOk, Uncrossed;
    if o.kind == Limit && o.amount > 0.0 {
      var levels := book.On(o.side);
      forall x
        ensures Rests(Finish(book, o), x) == Rests(book, x) + if x == o then 1 else 0
      {
        TimesInsert(levels, o, x);
      }
      FinishTies(book, Finish(book, o), o, submitted, trades);
    }
  }

  lemma {:induction false} FinishTies(book: Book, after: Book, o: BookOrder, submitted: map<nat, BookOrder>, trades: seq<EngineTrade>)
    requires AllTied(book, submitted, trades) && Single(book) && Absent(book, o.id) && Tied(o, submitted, trades)
    requires forall x :: Rests(after, x) == Rests(book, x) + if x == o then 1 else 0
    ensures AllTied(after, submitted, trades) && Single(after)
  {
    hide Rests, Tied;
  }

  lemma {:induction false} CancelAdvances(f: Floor, side: Side, price: real, id: nat, symbol: string)
    requires FloorInv(f, symbol) && Permitted(f, Cancel(side, price, id), symbol)
    ensures FloorInv(Advance(f, Cancel(side, price, id)), symbol)
  {
    hide Volume, Spending, BookOk, Accounted, Tied, Fair, Capped, Times, Remove;
    ActKeepsInv(f.desk, Cancel(side, price, id));
    var levels := f.desk.book.On(side);
    if Remove(levels, price, id).Some? {
      var after := f.desk.book.With(side, Remove(levels, price, id).value);
      var r := Removed(levels, price, id);
      forall x
        ensures r.id == id && Rests(f.desk.book, r) >= 1
        ensures Rests(after, x) == Rests(f.desk.book, x) - if x == r then 1 else 0
      {
        TimesRemove(levels, price, id, x);
      }
      CancelKeepsResting(f, after, r);
    }
  }

  lemma {:induction false} CancelKeepsResting(f: Floor, after: Book, r: BookOrder)
    requires Single(f.desk.book) && Rests(f.desk.book, r) >= 1
    requires forall x :: Rests(after, x) == Rests(f.desk.book, x) - if x == r then 1 else 0
    requires Kept(f.desk.book, f.submitted, f.cancelled, f.trades, Sweeping(f.desk))
    ensures Kept(after, f.submitted, f.cancelled + {r.id}, f.trades, Sweeping(f.desk)) && r.id in f.submitted
    ensures Sweeping(f.desk) != Some(r.id)
  {
    hide Rests, Volume;
    IsPresent(f.desk.book, r);
    forall id ensures Present(after, id) <==> id != r.id && Present(f.desk.book, id) {
      if id != r.id && Present(f.desk.book, id) {
        var x :| Rests(f.desk.book, x) > 0 && x.id == id;
        assert Rests(after, x) > 0;
      }
    }
  }

  function Shift(f: Floor, actions: seq<Action>): Floor {
    if actions == [] then f else Advance(Shift(f, actions[..|actions| - 1]), actions[|actions| - 1])
  }

  const OPENING := Floor(Desk(EMPTY, None), map[], {}, map[], [])

  ghost predicate IsShift(actions: seq<Action>, symbol: string) {
    forall i :: 0 <= i < |actions| ==> Permitted(Shift(OPENING, actions[..i]), actions[i], symbol)
  }

  /** Over any run from an empty book, no order trades beyond its amount and every trade
      is fair to both sides. */
  lemma {:induction false} EveryTradeIsCovered(actions: seq<Action>, symbol: string)
    requires IsShift(actions, symbol)
    ensures FloorInv(Shift(OPENING, actions), symbol)
  {
    hide FloorInv, Permitted, Advance;
    if actions == [] {
      OpeningIsFine(symbol);
    } else {
      var before := actions[..|actions| - 1];
      forall i | 0 <= i < |before|
        ensures before[..i] == actions[..i]
      {
      }
      EveryTradeIsCovered(before, symbol);
      AdvanceKeeps(Shift(OPENING, before), actions[|actions| - 1], symbol);
    }
  }

  lemma OpeningIsFine(symbol: string)
    ensures FloorInv(OPENING, symbol)
  {
    assert Owners([]) == {};
  }

  lemma {:induction false} AdvanceKeeps(f: Floor, a: Action, symbol: string)
    requires FloorInv(f, symbol) && Permitted(f, a, symbol)
    ensures FloorInv(Advance(f, a), symbol)
  {
    hide FloorInv;
    match a
    case Admit(o) => AdmitAdvances(f, o, symbol);
    case RunSlice(n) =>
      if f.desk.active.Some? {
        SliceAdvances(f, n, symbol);
      }
    case Cancel(side, price, id) => CancelAdvances(f, side, price, id, symbol);
  }

  // ----------------------------------------------------------------- who is waiting

  lemma {:induction false} TimesFinds(levels: seq<Level>, x: BookOrder) returns (l: nat)
    requires Times(levels, x) > 0
    ensures l < |levels| && x in levels[l].orders
  {
    l := |levels| - 1;
    if x !in levels[l].orders {
      l := TimesFinds(levels[..l], x);
    }
  }

  lemma {:induction false} TimesAreInQueue(side: Side, levels: seq<Level>, x: BookOrder)
    requires SideOk(side, levels)
    ensures Times(levels, x) > 0 <==> x in Queue(levels, x.price) && x.side == side
  {
    hide Times, Sorted;
    if Times(levels, x) > 0 {
      var l := TimesFinds(levels, x);
      assert LevelOk(side, levels[l]);
      QueueIsAt(side, levels, l);
    }
    if x in Queue(levels, x.price) {
      var k := LevelAt(levels, x.price);
      TimesAround(levels, k, x);
    }
  }

  /** An order rests on a book exactly if it stands in the queue of its side and price. */
  lemma {:induction false} RestsInQueue(book: Book, x: BookOrder)
    requires BookOk(book)
    ensures Rests(book, x) > 0 <==> x in Queue(book.On(x.side), x.price)
  {
    hide Times, SideOk, Queue, Uncrossed;
    TimesAreInQueue(Buy, book.buys, x);
    TimesAreInQueue(Sell, book.sells, x);
  }

  /** The order stands in its queue with this much of its amount. */
  ghost predicate Waiting(book: Book, o: BookOrder, left: real) {
    exists x :: x in Queue(book.On(o.side), o.price) && x.id == o.id && x.user == o.user && x.amount == left
  }

  /** Over any run, a limit order that has had its sweep and was not cancelled waits in the
      queue of its price with its amount less all it has traded, whenever that is positive;
      no other order stands anywhere on the book. */
  lemma {:induction false} WhatIsLeftWaits(actions: seq<Action>, symbol: string, id: nat)
    requires IsShift(actions, symbol)
    ensures var f := Shift(OPENING, actions);
      if Stays(id, f.submitted, f.cancelled, f.trades, Sweeping(f.desk))
      then Waiting(f.desk.book, f.submitted[id], f.submitted[id].amount - Volume(f.trades, id))
      else forall x: BookOrder :: x in Queue(f.desk.book.On(x.side), x.price) ==> x.id != id
  {
    hide Rests, BookOk, Volume, Spending, Capped, AllFair, Shift, IsShift, Queue;
    EveryTradeIsCovered(actions, symbol);
    var f := Shift(OPENING, actions);
    forall x: BookOrder ensures Rests(f.desk.book, x) > 0 <==> x in Queue(f.desk.book.On(x.side), x.price) {
      RestsInQueue(f.desk.book, x);
    }
    assert Present(f.desk.book, id) <==> Stays(id, f.submitted, f.cancelled, f.trades, Sweeping(f.desk));
    if Present(f.desk.book, id) {
      var x :| Rests(f.desk.book, x) > 0 && x.id == id;
      assert Tied(x, f.submitted, f.trades);
    }
  }

  // ----------------------------------------------------------------------- reports

  /** A market order as submitted, after these trades: all four amounts follow from them. */
  ghost predicate Reports(o: BookOrder, submitted: map<nat, BookOrder>, trades: seq<EngineTrade>) {
    && o.id in submitted
    && var s, volume, turnover := submitted[o.id], Volume(trades, o.id), Turnover(trades, o.id);
       o == s.(filled := s.filled + volume, filledQuote := s.filledQuote + turnover,
               amount := if s.side == Buy then s.amount else s.amount - volume,
               quote := if s.side == Buy then s.quote - turnover else s.quote)
  }

  /** Every market order is reported once its sweep is over, and what the report says is all
      it ever trades. */
  ghost predicate ReportInv(f: Floor) {
    && (f.desk.active.Some? && f.desk.active.value.order.kind == Market ==>
          Reports(f.desk.active.value.order, f.submitted, f.trades))
    && (forall id :: id in f.reports ==>
          && f.reports[id].id == id && f.reports[id].kind == Market && Sweeping(f.desk) != Some(id)
          && Reports(f.reports[id], f.submitted, f.trades))
    && forall id :: id in f.submitted && f.submitted[id].kind == Market && Admissible(f.submitted[id]) && Sweeping(f.desk) != Some(id) ==>
         id in f.reports
  }

  /** A trade of a sweep takes from an order that rests. */
  lemma {:induction false} TradeParties(book: Book, o: BookOrder, id: nat)
    requires Facing(book, o) && TradeOnce(book, o).Some? && Single(book) && id != o.id && !Present(book, id)
    ensures var t := TradeOnce(book, o).value;
      t.trade.buyOrder != id && t.trade.sellOrder != id && !Present(t.book, id) && t.order.id == o.id
  {
    hide SideOk, Best, Take, Rests, Capacity, Cost, Single;
    var t, best := TradeOnce(book, o).value, Best(book.On(Opposite(o.side)), o);
    var r := book.On(Opposite(o.side))[best.value.0].orders[best.value.1];
    var q := t.trade.quantity;
    var left := r.(amount := r.amount - q, filled := r.filled + q);
    TradeRests(book, o, r);
    assert r.id != id;
    forall x | Rests(t.book, x) > 0 ensures x.id != id {
      TradeRests(book, o, x);
    }
  }

  lemma {:induction false} SliceLeaves(
    book: Book, o: BookOrder, n: nat, submitted: map<nat, BookOrder>, trades: seq<EngineTrade>, symbol: string, id: nat)
    requires Facing(book, o) && Balanced(book, o, submitted, trades) && OneSymbol(submitted, symbol)
    requires id != o.id && !Present(book, id)
    ensures var after := trades + Slice(book, o, n).trades;
      Volume(after, id) == Volume(trades, id) && Turnover(after, id) == Turnover(trades, id)
    decreases n
  {
    hide Facing, TradeOnce, OneSymbol, Present, Single, Tied, Capped, AllFair, Volume, Turnover;
    if TradeOnce(book, o).Some? && n > 0 {
      var t := TradeOnce(book, o).value;
      TradeBalances(book, o, submitted, trades, symbol);
      TradeParties(book, o, id);
      TradeFaces(book, o);
      VolumeNext(trades, t.trade, id);
      TurnoverNext(trades, t.trade, id);
      SliceLeaves(t.book, t.order, n - 1, submitted, trades + [t.trade], symbol, id);
      assert trades + [t.trade] + Slice(t.book, t.order, n - 1).trades == trades + ([t.trade] + Slice(t.book, t.order, n - 1).trades);
    } else {
      assert trades + [] == trades;
    }
  }

  lemma {:induction false} TradeReports(book: Book, o: BookOrder, submitted: map<nat, BookOrder>, trades: seq<EngineTrade>)
    requires Facing(book, o) && TradeOnce(book, o).Some? && Absent(book, o.id) && o.kind == Market && Reports(o, submitted, trades)
    ensures var t := TradeOnce(book, o).value;
      Reports(t.order, submitted, trades + [t.trade]) && t.order.kind == Market
  {
    hide SideOk, Best, Take, Rests, Capacity, Volume, Turnover, Cost;
    var t := TradeOnce(book, o).value;
    VolumeNext(trades, t.trade, o.id);
    TurnoverNext(trades, t.trade, o.id);
  }

  lemma {:induction false} SliceReports(
    book: Book, o: BookOrder, n: nat, submitted: map<nat, BookOrder>, trades: seq<EngineTrade>, symbol: string)
    requires Facing(book, o) && Balanced(book, o, submitted, trades) && OneSymbol(submitted, symbol)
    requires o.kind == Market && Reports(o, submitted, trades)
    ensures var s := Slice(book, o, n);
      Reports(s.order, submitted, trades + s.trades) && s.order.kind == Market
    decreases n
  {
    hide Facing, TradeOnce, OneSymbol, AllTied, Single, Absent, Tied, Capped, AllFair, Reports;
    if TradeOnce(book, o).Some? && n > 0 {
      var t := TradeOnce(book, o).value;
      TradeBalances(book, o, submitted, trades, symbol);
      TradeReports(book, o, submitted, trades);
      TradeFaces(book, o);
      SliceReports(t.book, t.order, n - 1, submitted, trades + [t.trade], symbol);
      assert trades + [t.trade] + Slice(t.book, t.order, n - 1).trades == trades + ([t.trade] + Slice(t.book, t.order, n - 1).trades);
    } else {
      assert trades + [] == trades;
    }
  }

  lemma {:induction false} StrangersTradeNothing(trades: seq<EngineTrade>, submitted: map<nat, BookOrder>, id: nat)
    requires AllFair(trades, submitted) && id !in submitted
    ensures Turnover(trades, id) == 0.0
  {
    hide Cost;
    if trades != [] {
      var before, t := trades[..|trades| - 1], trades[|trades| - 1];
      assert Fair(t, submitted);
      StrangersTradeNothing(before, submitted, id);
    }
  }

  lemma {:induction false} AdmitReports(f: Floor, o: BookOrder, symbol: string)
    requires FloorInv(f, symbol) && ReportInv(f) && Permitted(f, Admit(o), symbol)
    ensures ReportInv(Advance(f, Admit(o)))
  {
    hide Rests, Volume, Spending, Turnover, BookOk, Accounted, Kept, AllTied, Single, AllFair, Tied;
    StrangersTradeNothing(f.trades, f.submitted, o.id);
    assert Volume(f.trades, o.id) == 0.0;
    forall id | id in f.reports ensures Reports(f.reports[id], f.submitted[o.id := o], f.trades) {
      assert Reports(f.reports[id], f.submitted, f.trades);
    }
  }

  lemma {:induction false} SliceKeepsReports(f: Floor, n: nat, symbol: string)
    requires FloorInv(f, symbol) && ReportInv(f) && Permitted(f, RunSlice(n), symbol) && f.desk.active.Some?
    ensures ReportInv(Advance(f, RunSlice(n)))
  {
    hide Rests, Volume, Spending, Turnover, BookOk, Accounted, Slice, Finish, Capped, AllFair, AllTied, Single, Absent, Present;
    var o := f.desk.active.value.order;
    var s := Slice(f.desk.book, o, n);
    BookFaces(f.desk.book, o);
    if o.kind == Market {
      SliceReports(f.desk.book, o, n, f.submitted, f.trades, symbol);
    }
    SliceKeepsResting(f.desk.book, o, n, f.submitted, f.cancelled, f.trades, symbol);
    SliceKeeps(f.desk.book, o, n);
    forall id | id in f.reports ensures Reports(f.reports[id], f.submitted, f.trades + s.trades) {
      assert Reports(f.reports[id], f.submitted, f.trades);
      assert Present(f.desk.book, id) <==> Stays(id, f.submitted, f.cancelled, f.trades, Some(o.id));
      SliceLeaves(f.desk.book, o, n, f.submitted, f.trades, symbol, id);
    }
  }

  lemma {:induction false} AdvanceKeepsReports(f: Floor, a: Action, symbol: string)
    requires FloorInv(f, symbol) && ReportInv(f) && Permitted(f, a, symbol)
    ensures ReportInv(Advance(f, a))
  {
    hide FloorInv, Reports;
    match a
    case Admit(o) => AdmitReports(f, o, symbol);
    case RunSlice(n) =>
      if f.desk.active.Some? {
        SliceKeepsReports(f, n, symbol);
      }
    case Cancel(side, price, id) =>
  }

  /** Over any run, the report of a market order is final: it accounts for every trade the
      order is ever a party to. */
  lemma {:induction false} EveryReportIsFinal(actions: seq<Action>, symbol: string)
    requires IsShift(actions, symbol)
    ensures ReportInv(Shift(OPENING, actions))
  {
    hide FloorInv, ReportInv, Permitted, Advance;
    if actions == [] {
      NothingToReport();
    } else {
      var before := actions[..|actions| - 1];
      forall i | 0 <= i < |before|
        ensures before[..i] == actions[..i]
      {
      }
      EveryTradeIsCovered(before, symbol);
      EveryReportIsFinal(before, symbol);
      AdvanceKeepsReports(Shift(OPENING, before), actions[|actions| - 1], symbol);
    }
  }

  lemma NothingToReport()
    ensures ReportInv(OPENING)
  {
  }
}
