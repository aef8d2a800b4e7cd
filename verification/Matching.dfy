/** Matching one incoming order against a book: which resting order it meets, how much
    of it trades, and the same sweep taken whole or in budgeted slices. */
module Matching {
  import opened Prelude
  import opened Fees
  import opened OrderBooks

  datatype EngineTrade = EngineTrade(symbol: string, price: real, quantity: real, buyOrder: nat, sellOrder: nat)

  // ------------------------------------------------------------ the best counterparty

  /** The first order in a queue that is not the incoming user's own, or the end. */
  function FirstOther(orders: seq<BookOrder>, user: nat, from: nat := 0): (k: nat)
    requires from <= |orders|
    ensures from <= k <= |orders| && (k < |orders| ==> !SameOwner(user, orders[k].user))
    ensures forall j :: from <= j < k ==> SameOwner(user, orders[j].user)
    decreases |orders| - from
  {
    if from == |orders| || !SameOwner(user, orders[from].user) then from else FirstOther(orders, user, from + 1)
  }

  /** A market order takes any price; a limit order none worse than its own. */
  predicate Within(o: BookOrder, price: real) {
    o.kind == Market || !Before(Opposite(o.side), o.price, price)
  }

  /** Scans the levels in order until one is out of reach or holds someone else's order. */
  function Best(levels: seq<Level>, o: BookOrder, from: nat := 0): (r: Option<(nat, nat)>)
    requires from <= |levels|
    ensures r.Some? ==> from <= r.value.0 < |levels| && r.value.1 < |levels[r.value.0].orders|
    decreases |levels| - from
  {
    if from == |levels| || !Within(o, levels[from].price) then None
    else
      var i := FirstOther(levels[from].orders, o.user);
      if i < |levels[from].orders| then Some((from, i)) else Best(levels, o, from + 1)
  }

  /** Position (m, j) comes before (l, i) in price then arrival order. */
  predicate Earlier(m: nat, j: nat, l: nat, i: nat) {
    m < l || (m == l && j < i)
  }

  /** Priority: the counterparty is the first order within the limit, in price then
      arrival order, that is not the user's own; there is none exactly when every
      order within the limit is the user's own. */
  lemma {:induction false} BestIsFirstInPriority(levels: seq<Level>, o: BookOrder, from: nat)
    requires Sorted(Opposite(o.side), levels) && from <= |levels|
    ensures match Best(levels, o, from)
      case Some((l, i)) =>
        && Within(o, levels[l].price) && !SameOwner(o.user, levels[l].orders[i].user)
        && forall m: nat, j: nat :: from <= m < |levels| && j < |levels[m].orders| && Earlier(m, j, l, i) ==>
             SameOwner(o.user, levels[m].orders[j].user)
      case None =>
        forall m, j :: from <= m < |levels| && 0 <= j < |levels[m].orders| && Within(o, levels[m].price) ==>
          SameOwner(o.user, levels[m].orders[j].user)
    decreases |levels| - from
  {
    if from < |levels| {
      if Within(o, levels[from].price) {
        BestIsFirstInPriority(levels, o, from + 1);
      } else {
        assert forall m :: from < m < |levels| ==> Before(Opposite(o.side), levels[from].price, levels[m].price);
      }
    }
  }

  /** The search looks at prices and owners only. */
  lemma {:induction false} BestSeesOwners(levels: seq<Level>, after: seq<Level>, o: BookOrder, p: BookOrder, from: nat)
    requires |after| == |levels| && from <= |levels|
    requires forall m :: 0 <= m < |levels| ==>
               after[m].price == levels[m].price && |after[m].orders| == |levels[m].orders|
    requires forall m, j :: 0 <= m < |levels| && 0 <= j < |levels[m].orders| ==>
               after[m].orders[j].user == levels[m].orders[j].user
    requires p.user == o.user && p.side == o.side && p.kind == o.kind && p.price == o.price
    ensures Best(after, p, from) == Best(levels, o, from)
    decreases |levels| - from
  {
    if from < |levels| {
      assert FirstOther(after[from].orders, p.user) == FirstOther(levels[from].orders, o.user);
      BestSeesOwners(levels, after, o, p, from + 1);
    }
  }

  // --------------------------------------------------------------------- one trade

  /** The order still wants to trade: a market buy spends its quote, any other order
      works off its amount. */
  predicate Wants(o: BookOrder) {
    if o.kind == Market && o.side == Buy then o.quote > 0.0 else o.amount > 0.0
  }

  function Min(a: real, b: real): real {
    if a <= b then a else b
  }

  /** How much the order can take at a price. The engine divides a market buyer's quote
      downwards, so the price of that quantity never exceeds the quote. */
  function Capacity(o: BookOrder, price: real): real {
    if o.kind == Market && o.side == Buy then
      if o.quote >= 0.0 && price > 0.0 then QuoFloor(o.quote, price) else 0.0
    else o.amount
  }

  /** The price of a quantity. */
  function Cost(price: real, quantity: real): real {
    price * quantity
  }

  /** The incoming order after a trade. */
  function Filled(o: BookOrder, price: real, q: real): BookOrder {
    if o.kind == Limit then o.(amount := o.amount - q, filled := o.filled + q)
    else if o.side == Buy then
      o.(quote := o.quote - Cost(price, q), filledQuote := o.filledQuote + Cost(price, q), filled := o.filled + q)
    else o.(amount := o.amount - q, filled := o.filled + q, filledQuote := o.filledQuote + Cost(price, q))
  }

  /** The resting side after a trade of `q` with order `i` of level `l`. */
  function Take(levels: seq<Level>, l: nat, i: nat, q: real): seq<Level>
    requires l < |levels| && i < |levels[l].orders|
  {
    var orders := levels[l].orders;
    var left := orders[i].(amount := orders[i].amount - q, filled := orders[i].filled + q);
    SetQueue(levels, l, if left.amount > 0.0 then orders[i := left] else Without(orders, i))
  }

  function TradeOf(o: BookOrder, resting: BookOrder, price: real, q: real): EngineTrade {
    if o.side == Buy then EngineTrade(o.symbol, price, q, o.id, resting.id)
    else EngineTrade(o.symbol, price, q, resting.id, o.id)
  }

  datatype Traded = Traded(book: Book, order: BookOrder, trade: EngineTrade)

  /** One turn of a match loop: the trade it makes, or none when the loop ends. */
  function TradeOnce(book: Book, o: BookOrder): (r: Option<Traded>)
    ensures r.Some? ==> Wants(o)
  {
    var levels := book.On(Opposite(o.side));
    var best := Best(levels, o);
    if !Wants(o) || best.None? then None
    else
      var (l, i) := best.value;
      var price, resting := levels[l].price, levels[l].orders[i];
      var q := Min(Capacity(o, price), resting.amount);
      if q <= 0.0 then None
      else Some(Traded(book.With(Opposite(o.side), Take(levels, l, i, q)), Filled(o, price, q), TradeOf(o, resting, price, q)))
  }

  /** The side an order trades against is in order. */
  predicate Facing(book: Book, o: BookOrder) {
    SideOk(Opposite(o.side), book.On(Opposite(o.side)))
  }

  lemma {:induction false} TakeKeepsSide(side: Side, levels: seq<Level>, l: nat, i: nat, q: real)
    requires SideOk(side, levels) && l < |levels| && i < |levels[l].orders|
    ensures SideOk(side, Take(levels, l, i, q))
    ensures Owners(Take(levels, l, i, q)) <= Owners(levels)
  {
    var orders := levels[l].orders;
    var left := orders[i].(amount := orders[i].amount - q, filled := orders[i].filled + q);
    var after := if left.amount > 0.0 then orders[i := left] else Without(orders, i);
    forall k | 0 <= k < |after|
      ensures OrderOk(side, levels[l].price, after[k])
      ensures exists j :: 0 <= j < |orders| && orders[j].user == after[k].user
    {
      var j := if left.amount > 0.0 || k < i then k else k + 1;
      assert OrderOk(side, levels[l].price, orders[j]);
      assert orders[j].user == after[k].user;
    }
    SetQueueOk(side, levels, l, after);
    SetQueueOwners(levels, l, after);
  }

  /** An order and a book later in the same sweep: the order's own side and its terms
      are unchanged, and the side it trades against is in order with no new owner. */
  predicate Follows(book: Book, o: BookOrder, after: Book, p: BookOrder) {
    && Facing(after, p) && after.On(o.side) == book.On(o.side)
    && Owners(after.On(Opposite(o.side))) <= Owners(book.On(Opposite(o.side)))
    && p == o.(amount := p.amount, quote := p.quote, filled := p.filled, filledQuote := p.filledQuote)
  }

  lemma {:induction false} TradeKeeps(book: Book, o: BookOrder)
    requires Facing(book, o) && TradeOnce(book, o).Some?
    ensures Follows(book, o, TradeOnce(book, o).value.book, TradeOnce(book, o).value.order)
  {
    hide Owners, SideOk;
    var levels := book.On(Opposite(o.side));
    var (l, i) := Best(levels, o).value;
    var q := Min(Capacity(o, levels[l].price), levels[l].orders[i].amount);
    TakeKeepsSide(Opposite(o.side), levels, l, i, q);
  }

  /** What a trade moves: a positive quantity, no more than either party has left, at
      the resting order's price and within the incoming order's limit. */
  lemma {:induction false} TradeIsFair(book: Book, o: BookOrder)
    requires Facing(book, o) && TradeOnce(book, o).Some?
    ensures var t, best := TradeOnce(book, o).value, Best(book.On(Opposite(o.side)), o);
      && best.Some?
      && var resting := book.On(Opposite(o.side))[best.value.0].orders[best.value.1];
         && t.trade.price == resting.price > 0.0 && Within(o, resting.price)
         && 0.0 < t.trade.quantity <= resting.amount
         && !SameOwner(o.user, resting.user)
         && t.trade == TradeOf(o, resting, resting.price, t.trade.quantity)
         && (if o.kind == Market && o.side == Buy then 0.0 <= t.order.quote == o.quote - Cost(resting.price, t.trade.quantity)
             else 0.0 <= t.order.amount == o.amount - t.trade.quantity)
  {
    hide Capacity, Cost, Take, Best, Sorted, Earlier;
    var levels := book.On(Opposite(o.side));
    BestIsFirstInPriority(levels, o, 0);
    var (l, i) := Best(levels, o).value;
    assert LevelOk(Opposite(o.side), levels[l]);
    var resting := levels[l].orders[i];
    assert OrderOk(Opposite(o.side), levels[l].price, resting);
    QuantityFits(o, resting.price, Min(Capacity(o, resting.price), resting.amount));
  }

  /** What an order takes within its capacity it can pay for. */
  lemma QuantityFits(o: BookOrder, price: real, q: real)
    requires Wants(o) && price > 0.0 && 0.0 < q <= Capacity(o, price)
    ensures if o.kind == Market && o.side == Buy then Cost(price, q) <= o.quote else q <= o.amount
  {
    hide QuoFloor;
    if o.kind == Market && o.side == Buy {
      CostWithin(q, Capacity(o, price), price);
    }
  }

  lemma CostWithin(q: real, most: real, price: real)
    requires 0.0 <= q <= most && price > 0.0
    ensures Cost(price, q) <= most * price
  {
    assert (most - q) * price == most * price - Cost(price, q);
    assert (most - q) * price >= 0.0;
  }

  // ------------------------------------------------------------------- termination

  /** How many orders rest on a side. */
  function Count(levels: seq<Level>): nat {
    if levels == [] then 0 else Count(levels[..|levels| - 1]) + |levels[|levels| - 1].orders|
  }

  lemma {:induction false} CountSetQueue(levels: seq<Level>, l: nat, orders: seq<BookOrder>)
    requires l < |levels|
    ensures Count(SetQueue(levels, l, orders)) == Count(levels) - |levels[l].orders| + |orders|
  {
    var n := |levels| - 1;
    var after := SetQueue(levels, l, orders);
    if l == n {
      if orders == [] {
        assert after == levels[..n];
      } else {
        assert after[..n] == levels[..n];
      }
    } else {
      CountSetQueue(levels[..n], l, orders);
      assert after[..|after| - 1] == SetQueue(levels[..n], l, orders);
      assert after[|after| - 1] == levels[n];
    }
  }

  /** Each trade of a sweep ends a resting order or ends the sweep, so a sweep of `n`
      resting orders makes at most `n + 1` trades. */
  function Rank(book: Book, o: BookOrder): nat {
    2 * Count(book.On(Opposite(o.side))) + if TradeOnce(book, o).Some? then 1 else 0
  }

  /** What is left of a market buyer's quote after a trade bounded by it buys nothing
      more at that price. */
  lemma SpentQuoteBuysNothing(quote: real, price: real)
    requires quote >= 0.0 && price > 0.0
    ensures var left := quote - Cost(price, QuoFloor(quote, price));
      left >= 0.0 && QuoFloor(left, price) == 0.0
  {
    var q := QuoFloor(quote, price);
    var left := quote - Cost(price, q);
    assert left < price / SCALE by {
      assert (q + 1.0 / SCALE) * price == q * price + price / SCALE;
    }
    var t := left / price;
    assert t >= 0.0;
    assert t * SCALE < 1.0 by {
      assert t * price == left;
      if t >= 1.0 / SCALE {
        Scaled(t, 1.0 / SCALE, t + 1.0, left, price);
      }
    }
    assert (t * SCALE).Floor == 0;
  }

  /** A trade that leaves something of the resting order leaves the sweep with nothing
      to do. */
  lemma {:induction false} PartialTradeEndsSweep(book: Book, o: BookOrder, l: nat, i: nat)
    requires Facing(book, o) && TradeOnce(book, o).Some?
    requires Best(book.On(Opposite(o.side)), o) == Some((l, i))
    requires TradeOnce(book, o).value.trade.quantity < book.On(Opposite(o.side))[l].orders[i].amount
    ensures TradeOnce(TradeOnce(book, o).value.book, TradeOnce(book, o).value.order).None?
  {
    hide QuoFloor, SideOk;
    var levels := book.On(Opposite(o.side));
    var t := TradeOnce(book, o).value;
    if o.kind == Market && o.side == Buy {
      var price := levels[l].price;
      SpentQuoteBuysNothing(o.quote, price);
      var after := t.book.On(Opposite(o.side));
      BestSeesOwners(levels, after, o, t.order, 0);
    }
  }

  lemma {:induction false} TradeLowersRank(book: Book, o: BookOrder)
    requires Facing(book, o) && TradeOnce(book, o).Some?
    ensures Rank(TradeOnce(book, o).value.book, TradeOnce(book, o).value.order) < Rank(book, o)
  {
    var levels := book.On(Opposite(o.side));
    var t := TradeOnce(book, o).value;
    var (l, i) := Best(levels, o).value;
    var orders := levels[l].orders;
    var q := t.trade.quantity;
    if q < orders[i].amount {
      PartialTradeEndsSweep(book, o, l, i);
      var left := orders[i].(amount := orders[i].amount - q, filled := orders[i].filled + q);
      CountSetQueue(levels, l, orders[i := left]);
    } else {
      CountSetQueue(levels, l, Without(orders, i));
    }
  }

  // ---------------------------------------------------------------- whole and sliced

  datatype Swept = Swept(book: Book, order: BookOrder, trades: seq<EngineTrade>, done: bool)

  /** The sweep taken to its end. */
  function Sweep(book: Book, o: BookOrder): Swept
    requires Facing(book, o)
    decreases Rank(book, o)
  {
    match TradeOnce(book, o)
    case None => Swept(book, o, [], true)
    case Some(t) =>
      TradeKeeps(book, o);
      TradeLowersRank(book, o);
      var rest := Sweep(t.book, t.order);
      rest.(trades := [t.trade] + rest.trades)
  }

  /** At most `n` trades of it. The budget is looked at only while the order still wants
      to trade, so an order used up on the last trade ends its sweep in that slice. */
  function Slice(book: Book, o: BookOrder, n: nat): Swept
    decreases n
  {
    if Wants(o) && n == 0 then Swept(book, o, [], false)
    else
      match TradeOnce(book, o)
      case None => Swept(book, o, [], true)
      case Some(t) =>
        var rest := Slice(t.book, t.order, n - 1);
        rest.(trades := [t.trade] + rest.trades)
  }

  lemma {:induction false} SliceKeeps(book: Book, o: BookOrder, n: nat)
    requires Facing(book, o)
    ensures Follows(book, o, Slice(book, o, n).book, Slice(book, o, n).order)
    decreases n
  {
    hide Owners, SideOk, TradeOnce;
    if TradeOnce(book, o).Some? && n > 0 {
      TradeKeeps(book, o);
      SliceKeeps(TradeOnce(book, o).value.book, TradeOnce(book, o).value.order, n - 1);
    }
  }

  /** A slice that is done has no trade left to make; one that is not has used its whole
      budget on an order that wants more. */
  lemma {:induction false} SliceEnds(book: Book, o: BookOrder, n: nat)
    requires Facing(book, o)
    ensures var s := Slice(book, o, n);
      && |s.trades| <= n
      && (if s.done then TradeOnce(s.book, s.order).None? && (Wants(s.order) ==> |s.trades| < n || n == 0)
          else |s.trades| == n && Wants(s.order))
      && Rank(s.book, s.order) + |s.trades| <= Rank(book, o)
    decreases n
  {
    hide Follows, Rank, TradeOnce, Facing;
    if TradeOnce(book, o).Some? && n > 0 {
      var t := TradeOnce(book, o).value;
      assert Facing(t.book, t.order) by {
        TradeFaces(book, o);
      }
      TradeLowersRank(book, o);
      SliceEnds(t.book, t.order, n - 1);
    }
  }

  lemma {:induction false} TradeFaces(book: Book, o: BookOrder)
    requires Facing(book, o) && TradeOnce(book, o).Some?
    ensures Facing(TradeOnce(book, o).value.book, TradeOnce(book, o).value.order)
  {
    TradeKeeps(book, o);
  }

  /** A slice is a prefix of the whole sweep, and the rest of the sweep is the sweep of
      what the slice leaves. */
  lemma {:induction false} SliceThenSweep(book: Book, o: BookOrder, n: nat)
    requires Facing(book, o)
    ensures var s := Slice(book, o, n);
      && Facing(s.book, s.order)
      && Sweep(book, o) == Sweep(s.book, s.order).(trades := s.trades + Sweep(s.book, s.order).trades)
      && (s.done ==> Sweep(book, o) == s)
    decreases n
  {
    hide SideOk, Owners, Rank, TradeOnce;
    SliceKeeps(book, o, n);
    if TradeOnce(book, o).Some? && n > 0 {
      var t := TradeOnce(book, o).value;
      TradeKeeps(book, o);
      SliceThenSweep(t.book, t.order, n - 1);
      var s, rest := Slice(t.book, t.order, n - 1), Sweep(t.book, t.order);
      assert [t.trade] + (s.trades + Sweep(s.book, s.order).trades) == [t.trade] + s.trades + Sweep(s.book, s.order).trades;
    }
  }

  datatype SlicedRun = SlicedRun(swept: Swept, slices: nat)

  /** Slices of budget `n`, one after another, until one is done. */
  function Sliced(book: Book, o: BookOrder, n: nat): SlicedRun
    requires Facing(book, o) && n >= 1
    decreases Rank(book, o)
  {
    var s := Slice(book, o, n);
    SliceKeeps(book, o, n);
    SliceEnds(book, o, n);
    if s.done then SlicedRun(s, 1)
    else
      var rest := Sliced(s.book, s.order, n);
      SlicedRun(rest.swept.(trades := s.trades + rest.swept.trades), rest.slices + 1)
  }

  function ExpectedSlices(trades: int, most: int): int
  {
    if most <= 0 || trades <= most then 1
    else trades / most + if trades % most != 0 then 1 else 0
  }

  lemma OneSliceMore(t: nat, n: nat)
    requires n >= 1
    ensures (t + n) / n == t / n + 1 && (t + n) % n == t % n
  {
    assert t + n == n * (t / n + 1) + t % n;
    DivUnique(t + n, n, t / n + 1, t % n);
  }

  lemma DivUnique(x: nat, n: nat, q: nat, r: nat)
    requires n >= 1 && x == n * q + r && r < n
    ensures x / n == q && x % n == r
  {
    var d := q - x / n;
    assert n * d == x % n - r by {
      assert x == n * (x / n) + x % n;
      assert n * d == n * q - n * (x / n);
    }
    Multiple(n, d);
  }

  lemma Multiple(n: nat, d: int)
    ensures d >= 1 ==> n * d >= n
    ensures d <= -1 ==> n * d <= 0 - n
  {
    if d >= 1 {
      assert n * (d - 1) >= 0;
    } else if d <= -1 {
      assert n * (-1 - d) >= 0;
    }
  }

  /** Slicing refines the one-shot match: same trades, same final order, same final
      book. An order that is used up takes exactly the expected number of slices; one
      that runs out of counterparties takes one more, an empty one, exactly when its
      trades are a positive multiple of the budget. */
  lemma {:induction false} SlicingRefinesSweep(book: Book, o: BookOrder, n: nat)
    requires Facing(book, o) && n >= 1
    ensures Sliced(book, o, n).swept == Sweep(book, o)
    ensures var run := Sliced(book, o, n);
      var trades := |run.swept.trades|;
      run.slices == ExpectedSlices(trades, n)
        + if Wants(run.swept.order) && trades > 0 && trades % n == 0 then 1 else 0
    decreases Rank(book, o)
  {
    hide SideOk, Owners, Rank, TradeOnce, Slice;
    var s := Slice(book, o, n);
    SliceKeeps(book, o, n);
    SliceEnds(book, o, n);
    SliceThenSweep(book, o, n);
    if s.done {
      SmallSlice(|s.trades|, n);
    } else {
      SlicingRefinesSweep(s.book, s.order, n);
      var rest := Sliced(s.book, s.order, n).swept;
      if rest.trades == [] {
        NoTradeNoChange(s.book, s.order);
      }
      OneSliceMore(|rest.trades|, n);
      SmallSlice(|rest.trades|, n);
    }
  }

  lemma SmallSlice(t: nat, n: nat)
    requires n >= 1
    ensures t < n ==> t / n == 0 && t % n == t
    ensures t == n ==> t / n == 1 && t % n == 0
    ensures t == 0 ==> t % n == 0
    ensures t > 0 ==> ExpectedSlices(t, n) == t / n + if t % n != 0 then 1 else 0
  {
    if t < n {
      DivUnique(t, n, 0, t);
    } else if t == n {
      DivUnique(t, n, 1, 0);
    }
  }

  lemma {:induction false} NoTradeNoChange(book: Book, o: BookOrder)
    requires Facing(book, o) && Sweep(book, o).trades == []
    ensures Sweep(book, o).order == o && Sweep(book, o).book == book
  {
  }
}
