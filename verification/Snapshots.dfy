/** The depth view of a book that the engine caches and serves. */
module Snapshots {
  import opened Prelude
  import opened OrderBooks

  const DEPTH: nat := 30

  datatype PriceLevelData = PriceLevelData(price: real, quantity: real)

  datatype Snapshot = Snapshot(symbol: string, asks: seq<PriceLevelData>, bids: seq<PriceLevelData>)

  /** What waits in a queue altogether. */
  function Total(orders: seq<BookOrder>): real {
    if orders == [] then 0.0 else Total(orders[..|orders| - 1]) + orders[|orders| - 1].amount
  }

  /** The best levels of a side, at most `depth` of them. */
  function Top(levels: seq<Level>, depth: nat): seq<PriceLevelData> {
    seq(if depth <= |levels| then depth else |levels|,
        i requires 0 <= i < |levels| => PriceLevelData(levels[i].price, Total(levels[i].orders)))
  }

  function View(book: Book, symbol: string, depth: nat): Snapshot {
    Snapshot(symbol, Top(book.sells, depth), Top(book.buys, depth))
  }

  function NormalizeDepth(depth: int): nat {
    if depth <= 0 then DEPTH else depth
  }

  function Shorten<T>(xs: seq<T>, n: nat): seq<T> {
    if n <= |xs| then xs[..n] else xs
  }

  function Truncate(s: Snapshot, depth: nat): Snapshot {
    Snapshot(s.symbol, Shorten(s.asks, depth), Shorten(s.bids, depth))
  }

  /** What a reader who asks for `depth` levels is given out of a cached view. */
  function Served(cached: Snapshot, depth: int): Snapshot {
    var d := NormalizeDepth(depth);
    Truncate(cached, if d > DEPTH then DEPTH else d)
  }

  /** Cutting the cached view down is the same as viewing the book at that depth. */
  lemma ServedIsView(book: Book, symbol: string, depth: int)
    ensures var d := NormalizeDepth(depth);
      Served(View(book, symbol, DEPTH), depth) == View(book, symbol, if d > DEPTH then DEPTH else d)
  {
    var d := NormalizeDepth(depth);
    var n := if d > DEPTH then DEPTH else d;
    assert Shorten(Top(book.sells, DEPTH), n) == Top(book.sells, n);
    assert Shorten(Top(book.buys, DEPTH), n) == Top(book.buys, n);
  }

  /** What a depth view of one side shows: the best prices that have a queue, best first,
      each with all that waits there, and nothing is left out before `depth` is reached. */
  ghost predicate Depicts(side: Side, levels: seq<Level>, depth: nat, data: seq<PriceLevelData>) {
    && |data| <= depth
    && (forall i, j :: 0 <= i < j < |data| ==> Before(side, data[i].price, data[j].price))
    && (forall i :: 0 <= i < |data| ==>
          Queue(levels, data[i].price) != [] && data[i].quantity == Total(Queue(levels, data[i].price)))
    && forall p :: Queue(levels, p) != [] ==>
         || (exists i :: 0 <= i < |data| && data[i].price == p)
         || (|data| == depth && forall i :: 0 <= i < |data| ==> Before(side, data[i].price, p))
  }

  lemma {:induction false} TopShows(side: Side, levels: seq<Level>, depth: nat)
    requires SideOk(side, levels)
    ensures Depicts(side, levels, depth, Top(levels, depth))
  {
    hide Queue, Total;
    var data := Top(levels, depth);
    forall i | 0 <= i < |data|
      ensures Queue(levels, data[i].price) == levels[i].orders && levels[i].orders != []
    {
      QueueIsAt(side, levels, i);
      assert LevelOk(side, levels[i]);
    }
    forall p | Queue(levels, p) != []
      ensures (exists i :: 0 <= i < |data| && data[i].price == p) ||
              (|data| == depth && forall i :: 0 <= i < |data| ==> Before(side, data[i].price, p))
    {
      var k := QueueIsSomewhere(levels, p);
      if k < |data| {
        assert data[k].price == p;
      }
    }
  }

  lemma QueueIsSomewhere(levels: seq<Level>, p: real) returns (k: nat)
    requires Queue(levels, p) != []
    ensures k < |levels| && levels[k].price == p
  {
    k := LevelAt(levels, p);
  }

  /** Asks are the sell side, cheapest first; bids the buy side, dearest first. */
  lemma ViewShows(book: Book, symbol: string, depth: nat)
    requires SideOk(Buy, book.buys) && SideOk(Sell, book.sells)
    ensures var v := View(book, symbol, depth);
      v.symbol == symbol && Depicts(Sell, book.sells, depth, v.asks) && Depicts(Buy, book.buys, depth, v.bids)
  {
    hide Depicts, SideOk, Top;
    TopShows(Sell, book.sells, depth);
    TopShows(Buy, book.buys, depth);
  }

  lemma {:induction false} QueueTotalIsPositive(side: Side, price: real, orders: seq<BookOrder>)
    requires QueueOk(side, price, orders)
    ensures Total(orders) >= 0.0 && (orders != [] ==> Total(orders) > 0.0)
  {
    if orders != [] {
      QueueTotalIsPositive(side, price, orders[..|orders| - 1]);
    }
  }

  method AddUp(orders: seq<BookOrder>) returns (qty: real)
    ensures qty == Total(orders)
  {
    qty := 0.0;
    for i := 0 to |orders|
      invariant qty == Total(orders[..i])
    {
      assert orders[..i + 1][..i] == orders[..i];
      qty := qty + orders[i].amount;
    }
    assert orders[..|orders|] == orders;
  }

  /** Walks a side, best price first, collecting levels that hold anything until there
      are `depth` of them. */
  method CollectLevels(side: Side, levels: seq<Level>, depth: nat) returns (data: seq<PriceLevelData>)
    requires SideOk(side, levels)
    ensures data == Top(levels, depth)
  {
    data := [];
    for i := 0 to |levels|
      invariant |data| == i <= depth
      invariant forall k :: 0 <= k < i ==> data[k] == PriceLevelData(levels[k].price, Total(levels[k].orders))
    {
      if |data| >= depth {
        return;
      }
      var qty := AddUp(levels[i].orders);
      assert LevelOk(side, levels[i]);
      QueueTotalIsPositive(side, levels[i].price, levels[i].orders);
      if qty > 0.0 {
        data := data + [PriceLevelData(levels[i].price, qty)];
      }
    }
  }

  method TakeSnapshot(book: Book, symbol: string, depth: int) returns (s: Snapshot)
    requires SideOk(Buy, book.buys) && SideOk(Sell, book.sells)
    ensures s == View(book, symbol, NormalizeDepth(depth))
    ensures s.symbol == symbol && Depicts(Sell, book.sells, NormalizeDepth(depth), s.asks)
    ensures Depicts(Buy, book.buys, NormalizeDepth(depth), s.bids)
  {
    hide Depicts, SideOk;
    var d := NormalizeDepth(depth);
    ViewShows(book, symbol, d);
    var asks := CollectLevels(Sell, book.sells, d);
    var bids := CollectLevels(Buy, book.buys, d);
    return Snapshot(symbol, asks, bids);
  }
}
