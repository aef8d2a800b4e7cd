/** The price-time order book. A side is a sequence of price levels in the order the
    engine scans it, best price first; a level is a queue of resting orders in arrival
    order. */
module OrderBooks {
  import opened Prelude

  /** An order as the engine carries it: `amount` and `quote` are what is left. */
  datatype BookOrder = BookOrder(
    id: nat, user: nat, symbol: string, side: Side, kind: OrderKind,
    price: real, amount: real, quote: real, filled: real, filledQuote: real)

  datatype Level = Level(price: real, orders: seq<BookOrder>)

  datatype Book = Book(buys: seq<Level>, sells: seq<Level>) {
    function On(side: Side): seq<Level> {
      if side == Buy then buys else sells
    }

    function With(side: Side, levels: seq<Level>): Book {
      if side == Buy then this.(buys := levels) else this.(sells := levels)
    }
  }

  const EMPTY := Book([], [])

  function Opposite(side: Side): Side {
    if side == Buy then Sell else Buy
  }

  /** `p` is scanned before `q` on this side. */
  predicate Before(side: Side, p: real, q: real) {
    if side == Buy then q < p else p < q
  }

  // -------------------------------------------------------------------- invariants

  predicate OrderOk(side: Side, price: real, o: BookOrder) {
    o.amount > 0.0 && o.price == price && o.side == side && o.kind == Limit
  }

  predicate QueueOk(side: Side, price: real, orders: seq<BookOrder>) {
    forall i :: 0 <= i < |orders| ==> OrderOk(side, price, orders[i])
  }

  predicate LevelOk(side: Side, level: Level) {
    level.price > 0.0 && level.orders != [] && QueueOk(side, level.price, level.orders)
  }

  predicate Sorted(side: Side, levels: seq<Level>) {
    forall i, j :: 0 <= i < j < |levels| ==> Before(side, levels[i].price, levels[j].price)
  }

  predicate SideOk(side: Side, levels: seq<Level>) {
    && Sorted(side, levels)
    && forall i :: 0 <= i < |levels| ==> LevelOk(side, levels[i])
  }

  /** Who rests on a side, and at which prices. */
  function Owners(levels: seq<Level>): set<(real, nat)> {
    set l, i | 0 <= l < |levels| && 0 <= i < |levels[l].orders| :: (levels[l].price, levels[l].orders[i].user)
  }

  /** Orders of one known user never trade with each other. */
  predicate SameOwner(u: nat, v: nat) {
    u == v && u != 0
  }

  predicate Uncrossed(book: Book) {
    forall b, s :: b in Owners(book.buys) && s in Owners(book.sells) && b.0 >= s.0 ==> SameOwner(b.1, s.1)
  }

  predicate BookOk(book: Book) {
    SideOk(Buy, book.buys) && SideOk(Sell, book.sells) && Uncrossed(book)
  }

  // ----------------------------------------------------------------------- queues

  /** The level at price `p`, or the end. */
  function LevelAt(levels: seq<Level>, p: real, from: nat := 0): (k: nat)
    requires from <= |levels|
    ensures from <= k <= |levels| && (k < |levels| ==> levels[k].price == p)
    ensures forall j :: from <= j < k ==> levels[j].price != p
    decreases |levels| - from
  {
    if from == |levels| || levels[from].price == p then from else LevelAt(levels, p, from + 1)
  }

  /** The orders waiting at price `p`, oldest first. */
  function Queue(levels: seq<Level>, p: real): seq<BookOrder> {
    var k := LevelAt(levels, p);
    if k < |levels| then levels[k].orders else []
  }

  function Without<T>(xs: seq<T>, i: nat): seq<T>
    requires i < |xs|
  {
    xs[..i] + xs[i + 1..]
  }

  /** The side with another queue at level `l`; an empty queue takes its level away. */
  function SetQueue(levels: seq<Level>, l: nat, orders: seq<BookOrder>): seq<Level>
    requires l < |levels|
  {
    if orders == [] then Without(levels, l) else levels[l := levels[l].(orders := orders)]
  }

  lemma {:induction false} QueueIsAt(side: Side, levels: seq<Level>, k: nat)
    requires Sorted(side, levels) && k < |levels|
    ensures Queue(levels, levels[k].price) == levels[k].orders
  {
    assert forall j :: 0 <= j < k ==> levels[j].price != levels[k].price;
  }

  lemma {:induction false} SetQueueOk(side: Side, levels: seq<Level>, l: nat, orders: seq<BookOrder>)
    requires SideOk(side, levels) && l < |levels| && QueueOk(side, levels[l].price, orders)
    ensures SideOk(side, SetQueue(levels, l, orders))
  {
    var after := SetQueue(levels, l, orders);
    if orders == [] {
      forall i | 0 <= i < |after|
        ensures after[i] == levels[if i < l then i else i + 1]
      {
      }
    } else {
      forall i | 0 <= i < |after|
        ensures after[i].price == levels[i].price && LevelOk(side, after[i])
      {
      }
    }
  }

  lemma {:induction false} SetQueueQueue(side: Side, levels: seq<Level>, l: nat, orders: seq<BookOrder>, p: real)
    requires Sorted(side, levels) && l < |levels|
    ensures Queue(SetQueue(levels, l, orders), p) == if p == levels[l].price then orders else Queue(levels, p)
  {
    if orders == [] {
      DropLevelQueue(side, levels, l, p);
    } else {
      ChangeLevelQueue(side, levels, l, orders, p);
    }
  }

  lemma {:induction false} DropLevelQueue(side: Side, levels: seq<Level>, l: nat, p: real)
    requires Sorted(side, levels) && l < |levels|
    ensures Queue(Without(levels, l), p) == if p == levels[l].price then [] else Queue(levels, p)
  {
    var after := Without(levels, l);
    var k, m := LevelAt(after, p), LevelAt(levels, p);
    if m < |levels| && m != l {
      var n := if m < l then m else m - 1;
      assert after[n] == levels[m];
      assert forall i :: 0 <= i < n ==> after[i] == levels[if i < l then i else i + 1];
    } else {
      assert forall i :: l < i < |levels| ==> Before(side, levels[l].price, levels[i].price);
      assert forall i :: 0 <= i < |after| ==> after[i] == levels[if i < l then i else i + 1];
    }
  }

  lemma {:induction false} ChangeLevelQueue(side: Side, levels: seq<Level>, l: nat, orders: seq<BookOrder>, p: real)
    requires Sorted(side, levels) && l < |levels|
    ensures var after := levels[l := levels[l].(orders := orders)];
      Queue(after, p) == if p == levels[l].price then orders else Queue(levels, p)
  {
    var after := levels[l := levels[l].(orders := orders)];
    var k, m := LevelAt(after, p), LevelAt(levels, p);
    assert forall i :: 0 <= i < |levels| ==> after[i].price == levels[i].price;
    assert k == m;
    assert forall i :: 0 <= i < l ==> Before(side, levels[i].price, levels[l].price);
  }

  /** A queue that lost orders, or parts of them, adds no owner. */
  lemma {:induction false} SetQueueOwners(levels: seq<Level>, l: nat, orders: seq<BookOrder>)
    requires l < |levels|
    requires forall i :: 0 <= i < |orders| ==>
               exists k :: 0 <= k < |levels[l].orders| && levels[l].orders[k].user == orders[i].user
    ensures Owners(SetQueue(levels, l, orders)) <= Owners(levels)
  {
    var after := SetQueue(levels, l, orders);
    forall o | o in Owners(after)
      ensures o in Owners(levels)
    {
      var m, i :| 0 <= m < |after| && 0 <= i < |after[m].orders| && o == (after[m].price, after[m].orders[i].user);
      if orders != [] && m == l {
        var k :| 0 <= k < |levels[l].orders| && levels[l].orders[k].user == orders[i].user;
        assert o == (levels[l].price, levels[l].orders[k].user);
      } else {
        var n := if orders == [] && m >= l then m + 1 else m;
        assert after[m] == levels[n];
        assert o == (levels[n].price, levels[n].orders[i].user);
      }
    }
  }

  // ----------------------------------------------------------------------- adding

  /** Where a level of price `p` belongs. */
  function Position(side: Side, levels: seq<Level>, p: real, from: nat := 0): (k: nat)
    requires from <= |levels|
    ensures from <= k <= |levels| && (k < |levels| ==> !Before(side, levels[k].price, p))
    ensures forall j :: from <= j < k ==> Before(side, levels[j].price, p)
    decreases |levels| - from
  {
    if from == |levels| || !Before(side, levels[from].price, p) then from else Position(side, levels, p, from + 1)
  }

  function Insert(levels: seq<Level>, o: BookOrder): seq<Level> {
    var k := Position(o.side, levels, o.price);
    if k < |levels| && levels[k].price == o.price then SetQueue(levels, k, levels[k].orders + [o])
    else levels[..k] + [Level(o.price, [o])] + levels[k..]
  }

  /** An added order goes to the back of the queue at its price, no other queue moves,
      and its owner is the one new owner. */
  lemma {:induction false} InsertIsPushBack(levels: seq<Level>, o: BookOrder, p: real)
    requires SideOk(o.side, levels) && o.amount > 0.0 && o.price > 0.0 && o.kind == Limit
    ensures SideOk(o.side, Insert(levels, o))
    ensures Queue(Insert(levels, o), p) == Queue(levels, p) + if p == o.price then [o] else []
    ensures Owners(Insert(levels, o)) <= Owners(levels) + {(o.price, o.user)}
  {
    var k := Position(o.side, levels, o.price);
    if k < |levels| && levels[k].price == o.price {
      InsertBehind(levels, o, k, p);
    } else {
      InsertLevel(levels, o, k, p);
    }
  }

  lemma {:induction false} InsertBehind(levels: seq<Level>, o: BookOrder, k: nat, p: real)
    requires SideOk(o.side, levels) && o.amount > 0.0 && o.kind == Limit
    requires k < |levels| && levels[k].price == o.price
    ensures var after := SetQueue(levels, k, levels[k].orders + [o]);
      && SideOk(o.side, after)
      && Queue(after, p) == Queue(levels, p) + (if p == o.price then [o] else [])
      && Owners(after) <= Owners(levels) + {(o.price, o.user)}
  {
    var after := SetQueue(levels, k, levels[k].orders + [o]);
    SetQueueOk(o.side, levels, k, levels[k].orders + [o]);
    SetQueueQueue(o.side, levels, k, levels[k].orders + [o], p);
    QueueIsAt(o.side, levels, k);
    forall x | x in Owners(after)
      ensures x in Owners(levels) + {(o.price, o.user)}
    {
      var m, i :| 0 <= m < |after| && 0 <= i < |after[m].orders| && x == (after[m].price, after[m].orders[i].user);
      if m != k || i < |levels[k].orders| {
        assert x == (levels[m].price, levels[m].orders[i].user);
      }
    }
  }

  /** A price that had no level gets one, in its place. */
  lemma {:induction false} InsertLevel(levels: seq<Level>, o: BookOrder, k: nat, p: real)
    requires SideOk(o.side, levels) && o.amount > 0.0 && o.price > 0.0 && o.kind == Limit
    requires k == Position(o.side, levels, o.price) && (k < |levels| ==> levels[k].price != o.price)
    ensures var after := levels[..k] + [Level(o.price, [o])] + levels[k..];
      && SideOk(o.side, after)
      && Queue(after, p) == Queue(levels, p) + (if p == o.price then [o] else [])
      && Owners(after) <= Owners(levels) + {(o.price, o.user)}
  {
    hide Owners, Queue, LevelOk;
    var after := levels[..k] + [Level(o.price, [o])] + levels[k..];
    forall j | k <= j < |levels|
      ensures Before(o.side, o.price, levels[j].price)
    {
      assert k < j ==> Before(o.side, levels[k].price, levels[j].price);
    }
    NewLevelOk(levels, after, k, o);
    NewLevelQueue(levels, after, k, o, p);
    NewLevelOwners(levels, after, k, o);
  }

  lemma {:induction false} NewLevelOk(levels: seq<Level>, after: seq<Level>, k: nat, o: BookOrder)
    requires SideOk(o.side, levels) && o.amount > 0.0 && o.price > 0.0 && o.kind == Limit
    requires k <= |levels| && after == levels[..k] + [Level(o.price, [o])] + levels[k..]
    requires forall j :: 0 <= j < k ==> Before(o.side, levels[j].price, o.price)
    requires forall j :: k <= j < |levels| ==> Before(o.side, o.price, levels[j].price)
    ensures SideOk(o.side, after)
  {
    hide LevelOk;
    forall i | 0 <= i < |after|
      ensures after[i] == if i < k then levels[i] else if i == k then Level(o.price, [o]) else levels[i - 1]
    {
    }
    assert LevelOk(o.side, Level(o.price, [o])) by {
      NewLevelIsOk(o);
    }
  }

  lemma NewLevelIsOk(o: BookOrder)
    requires o.amount > 0.0 && o.price > 0.0 && o.kind == Limit
    ensures LevelOk(o.side, Level(o.price, [o]))
  {
  }

  lemma {:induction false} NewLevelOwners(levels: seq<Level>, after: seq<Level>, k: nat, o: BookOrder)
    requires k <= |levels| && after == levels[..k] + [Level(o.price, [o])] + levels[k..]
    ensures Owners(after) <= Owners(levels) + {(o.price, o.user)}
  {
    forall x | x in Owners(after)
      ensures x in Owners(levels) + {(o.price, o.user)}
    {
      var m, i :| 0 <= m < |after| && 0 <= i < |after[m].orders| && x == (after[m].price, after[m].orders[i].user);
      if m != k {
        var n := if m < k then m else m - 1;
        assert x == (levels[n].price, levels[n].orders[i].user);
      }
    }
  }

  lemma {:induction false} NewLevelQueue(levels: seq<Level>, after: seq<Level>, k: nat, o: BookOrder, p: real)
    requires k <= |levels| && after == levels[..k] + [Level(o.price, [o])] + levels[k..]
    requires forall i :: 0 <= i < |levels| ==> levels[i].price != o.price
    ensures Queue(after, p) == Queue(levels, p) + if p == o.price then [o] else []
  {
    hide LevelAt;
    var m := LevelAt(levels, p);
    var n := if p == o.price then k else if m < k then m else m + 1;
    forall j | 0 <= j < |after|
      ensures after[j] == if j < k then levels[j] else if j == k then Level(o.price, [o]) else levels[j - 1]
    {
    }
    forall j | 0 <= j < n
      ensures after[j].price != p
    {
      var x := if j < k then j else j - 1;
      assert j == k || after[j] == levels[x];
    }
    FirstAt(after, p, n);
  }

  lemma {:induction false} FirstAt(levels: seq<Level>, p: real, n: nat)
    requires n <= |levels| && (n < |levels| ==> levels[n].price == p) && forall j :: 0 <= j < n ==> levels[j].price != p
    ensures LevelAt(levels, p) == n
  {
    var k := LevelAt(levels, p);
  }

  // --------------------------------------------------------------------- removing

  function IndexOf(orders: seq<BookOrder>, id: nat, from: nat := 0): (k: nat)
    requires from <= |orders|
    ensures from <= k <= |orders| && (k < |orders| ==> orders[k].id == id)
    ensures forall j :: from <= j < k ==> orders[j].id != id
    decreases |orders| - from
  {
    if from == |orders| || orders[from].id == id then from else IndexOf(orders, id, from + 1)
  }

  /** The side without the first order of this id at this price, if there is one. */
  function Remove(levels: seq<Level>, price: real, id: nat): Option<seq<Level>> {
    var l := LevelAt(levels, price);
    if l == |levels| then None
    else
      var i := IndexOf(levels[l].orders, id);
      if i == |levels[l].orders| then None
      else Some(SetQueue(levels, l, Without(levels[l].orders, i)))
  }

  /** Removing takes one order out of the queue at its price, keeps the others in line
      and every other queue as it was, and fails exactly when no such order waits. */
  lemma {:induction false} RemoveTakesOne(side: Side, levels: seq<Level>, price: real, id: nat, p: real)
    requires SideOk(side, levels)
    ensures Remove(levels, price, id).None? <==> forall o :: o in Queue(levels, price) ==> o.id != id
    ensures Remove(levels, price, id).Some? ==>
      var after, waiting := Remove(levels, price, id).value, Queue(levels, price);
      && SideOk(side, after) && Owners(after) <= Owners(levels)
      && var i := IndexOf(waiting, id);
         && i < |waiting|
         && Queue(after, p) == if p == price then Without(waiting, i) else Queue(levels, p)
  {
    var l := LevelAt(levels, price);
    if l < |levels| {
      QueueIsAt(side, levels, l);
      var orders := levels[l].orders;
      var i := IndexOf(orders, id);
      if i < |orders| {
        var rest := Without(orders, i);
        assert orders[i] in orders;
        forall k | 0 <= k < |rest|
          ensures rest[k] == orders[if k < i then k else k + 1]
        {
        }
        SetQueueOk(side, levels, l, rest);
        SetQueueQueue(side, levels, l, rest, p);
        SetQueueOwners(levels, l, rest);
      }
    }
  }

  // ------------------------------------------------------------------- in place

  /** The book as the engine updates it. */
  class OrderBook {
    var buys: seq<Level>
    var sells: seq<Level>

    function Model(): Book
      reads this
    {
      Book(buys, sells)
    }

    constructor ()
      ensures Model() == EMPTY
    {
      buys, sells := [], [];
    }

    /** Looks a price up in one of the trees. */
    static method GetLevel(levels: seq<Level>, price: real) returns (k: nat)
      ensures k == LevelAt(levels, price)
    {
      k := 0;
      while k < |levels| && levels[k].price != price
        invariant k <= |levels| && LevelAt(levels, price, k) == LevelAt(levels, price)
      {
        k := k + 1;
      }
    }

    method AddOrder(o: BookOrder)
      requires SideOk(o.side, Model().On(o.side))
      modifies this
      ensures Model() == old(Model()).With(o.side, Insert(old(Model()).On(o.side), o))
    {
      var levels := Model().On(o.side);
      var k := GetLevel(levels, o.price);
      var after;
      if k < |levels| {
        LevelIsPosition(o.side, levels, k);
        after := SetQueue(levels, k, levels[k].orders + [o]);
      } else {
        k := 0;
        while k < |levels| && Before(o.side, levels[k].price, o.price)
          invariant k <= |levels| && Position(o.side, levels, o.price, k) == Position(o.side, levels, o.price)
          invariant Model() == old(Model())
        {
          k := k + 1;
        }
        after := levels[..k] + [Level(o.price, [o])] + levels[k..];
      }
      if o.side == Buy { buys := after; } else { sells := after; }
    }

    method RemoveOrder(side: Side, price: real, id: nat) returns (removed: bool)
      modifies this
      ensures var left := Remove(old(Model()).On(side), price, id);
        && removed == left.Some?
        && Model() == if removed then old(Model()).With(side, left.value) else old(Model())
    {
      var levels := Model().On(side);
      var l := GetLevel(levels, price);
      if l < |levels| {
        var orders := levels[l].orders;
        for i := 0 to |orders|
          invariant IndexOf(orders, id, i) == IndexOf(orders, id)
          invariant buys == old(buys) && sells == old(sells)
        {
          if orders[i].id == id {
            var after := SetQueue(levels, l, Without(orders, i));
            if side == Buy { buys := after; } else { sells := after; }
            return true;
          }
        }
      }
      return false;
    }
  }

  lemma {:induction false} LevelIsPosition(side: Side, levels: seq<Level>, k: nat)
    requires Sorted(side, levels) && k < |levels|
    ensures Position(side, levels, levels[k].price) == k
  {
    assert forall j :: 0 <= j < k ==> Before(side, levels[j].price, levels[k].price);
  }
}
