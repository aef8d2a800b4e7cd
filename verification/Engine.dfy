/** The matching engine: four match loops that emit into a bounded channel under a
    reservation, and the turn loop that interleaves cancels, slices, admission, parking
    and shutdown. Other goroutines act between any two channel operations: the consumer
    removes events, producers submit orders and cancels until the engine is stopped. */
module MatchingEngines {
  import opened Prelude
  import opened Fees
  import opened OrderBooks
  import opened Matching
  import opened BookRuns
  import opened EngineLogs
  import opened Snapshots

  // ----------------------------------------------------------------- configuration

  /** The two limits of a turn, zero being refused because it means "no limit" to the
      match loops. */
  predicate ValidQuantum(maxMatches: int, maxCancels: int) {
    maxMatches >= 1 && maxCancels >= 1
  }

  predicate ValidCapacity(capacity: int, maxMatches: int, maxCancels: int) {
    capacity >= 2 && maxCancels <= capacity - 2 && maxMatches <= capacity - 1 - maxCancels
  }

  /** The check, written with subtractions so that nothing overflows, asks for exactly
      what a slice needs of an empty channel. */
  lemma EmptyChannelPermitsSlice(capacity: int, maxMatches: int, maxCancels: int)
    requires ValidQuantum(maxMatches, maxCancels)
    ensures ValidCapacity(capacity, maxMatches, maxCancels) <==> RoomForSlice(capacity, maxMatches, maxCancels)
  {
  }

  // --------------------------------------------------------------- best counterparty

  method FirstNonSelfOrderIndex(level: Level, incoming: BookOrder) returns (k: nat)
    ensures k == FirstOther(level.orders, incoming.user)
  {
    k := 0;
    while k < |level.orders| && SameOwner(incoming.user, level.orders[k].user)
      invariant k <= |level.orders| && FirstOther(level.orders, incoming.user, k) == FirstOther(level.orders, incoming.user)
    {
      k := k + 1;
    }
  }

  method BestMatchableSellOrder(book: Book, incoming: BookOrder) returns (r: Option<(nat, nat)>)
    requires incoming.side == Buy && incoming.kind == Limit
    ensures r == Best(book.sells, incoming)
  {
    for k := 0 to |book.sells|
      invariant Best(book.sells, incoming, k) == Best(book.sells, incoming)
    {
      if incoming.price < book.sells[k].price {
        return None;
      }
      var i := FirstNonSelfOrderIndex(book.sells[k], incoming);
      if i < |book.sells[k].orders| {
        return Some((k, i));
      }
    }
    return None;
  }

  method BestMarketSellOrder(book: Book, incoming: BookOrder) returns (r: Option<(nat, nat)>)
    requires incoming.side == Buy && incoming.kind == Market
    ensures r == Best(book.sells, incoming)
  {
    for k := 0 to |book.sells|
      invariant Best(book.sells, incoming, k) == Best(book.sells, incoming)
    {
      var i := FirstNonSelfOrderIndex(book.sells[k], incoming);
      if i < |book.sells[k].orders| {
        return Some((k, i));
      }
    }
    return None;
  }

  method BestMatchableBuyOrder(book: Book, incoming: BookOrder) returns (r: Option<(nat, nat)>)
    requires incoming.side == Sell && incoming.kind == Limit
    ensures r == Best(book.buys, incoming)
  {
    for k := 0 to |book.buys|
      invariant Best(book.buys, incoming, k) == Best(book.buys, incoming)
    {
      if book.buys[k].price < incoming.price {
        return None;
      }
      var i := FirstNonSelfOrderIndex(book.buys[k], incoming);
      if i < |book.buys[k].orders| {
        return Some((k, i));
      }
    }
    return None;
  }

  method BestMarketBuyOrder(book: Book, incoming: BookOrder) returns (r: Option<(nat, nat)>)
    requires incoming.side == Sell && incoming.kind == Market
    ensures r == Best(book.buys, incoming)
  {
    for k := 0 to |book.buys|
      invariant Best(book.buys, incoming, k) == Best(book.buys, incoming)
    {
      var i := FirstNonSelfOrderIndex(book.buys[k], incoming);
      if i < |book.buys[k].orders| {
        return Some((k, i));
      }
    }
    return None;
  }

  // ------------------------------------------------------------------ a loop so far

  /** What a match loop has to do: all of the sweep for budget zero, else a slice. */
  function Goal(b: Book, o: BookOrder, budget: nat, made: nat): Swept
    requires Facing(b, o) && (budget > 0 ==> made <= budget)
  {
    if budget == 0 then Sweep(b, o) else Slice(b, o, budget - made)
  }

  /** After the trades `ts`, with the book at `b` and the order at `o`, what is left to do
      completes `goal`. */
  ghost predicate OnCourse(goal: Swept, b: Book, o: BookOrder, budget: nat, ts: seq<EngineTrade>) {
    && Facing(b, o) && (budget > 0 ==> |ts| <= budget)
    && var rest := Goal(b, o, budget, |ts|);
       goal == rest.(trades := ts + rest.trades)
  }

  lemma Starts(b: Book, o: BookOrder, budget: nat)
    requires Facing(b, o)
    ensures OnCourse(Goal(b, o, budget, 0), b, o, budget, [])
  {
    var rest := Goal(b, o, budget, 0);
    assert [] + rest.trades == rest.trades;
  }

  lemma GoesOn(goal: Swept, b: Book, o: BookOrder, budget: nat, ts: seq<EngineTrade>, t: Traded)
    requires OnCourse(goal, b, o, budget, ts) && TradeOnce(b, o) == Some(t) && (budget > 0 ==> |ts| < budget)
    ensures OnCourse(goal, t.book, t.order, budget, ts + [t.trade])
  {
    hide TradeOnce, Follows;
    TradeFaces(b, o);
    var rest := Goal(t.book, t.order, budget, |ts| + 1);
    assert ts + ([t.trade] + rest.trades) == ts + [t.trade] + rest.trades;
  }

  lemma Stops(goal: Swept, b: Book, o: BookOrder, budget: nat, ts: seq<EngineTrade>)
    requires OnCourse(goal, b, o, budget, ts) && TradeOnce(b, o).None?
    requires Wants(o) && budget > 0 ==> |ts| < budget
    ensures goal == Swept(b, o, ts, true)
  {
    hide TradeOnce;
    assert ts + [] == ts;
  }

  lemma Yields(goal: Swept, b: Book, o: BookOrder, budget: nat, ts: seq<EngineTrade>)
    requires OnCourse(goal, b, o, budget, ts) && Wants(o) && budget > 0 && |ts| == budget
    ensures goal == Swept(b, o, ts, false)
  {
    assert ts + [] == ts;
  }

  lemma RestingPrice(b: Book, o: BookOrder, l: nat)
    requires Facing(b, o) && l < |b.On(Opposite(o.side))|
    ensures b.On(Opposite(o.side))[l].price > 0.0
  {
    assert LevelOk(Opposite(o.side), b.On(Opposite(o.side))[l]);
  }

  lemma SweepOutcome(b: Book, o: BookOrder)
    requires BookOk(b) && Submittable(o)
    ensures Facing(b, o)
    ensures var s := Sweep(b, o);
      && s.done && BookOk(s.book) && BookOk(Finish(s.book, s.order)) && Ended(s.book, s.order, Finish(s.book, s.order))
      && s.order.kind == o.kind && s.order.symbol == o.symbol && Submittable(s.order)
  {
    hide SideOk, Uncrossed, Owners, TradeOnce, Finish, Slice, Sweep, Rank, Ended;
    Faces(b, o);
    var n := Rank(b, o) + 1;
    SliceOutcome(b, o, n);
    SliceEnds(b, o, n);
    SliceThenSweep(b, o, n);
  }

  lemma Sides(b: Book)
    requires BookOk(b)
    ensures SideOk(Buy, b.buys) && SideOk(Sell, b.sells)
  {
  }

  lemma Faces(b: Book, o: BookOrder)
    requires BookOk(b)
    ensures Facing(b, o)
  {
  }

  /** The channel that carries snapshots to their consumer. */
  const SNAPSHOT_CAPACITY := 256

  lemma EmptyIsOk()
    ensures BookOk(EMPTY)
  {
    assert Owners([]) == {};
  }

  /** What a slice leaves, for the engine's own bookkeeping. */
  lemma {:induction false} SliceOutcome(b: Book, o: BookOrder, n: nat)
    requires BookOk(b) && Submittable(o)
    ensures var s := Slice(b, o, n);
      && BookOk(s.book) && (s.done ==> BookOk(Finish(s.book, s.order)) && Ended(s.book, s.order, Finish(s.book, s.order)))
      && s.order.symbol == o.symbol && s.order.kind == o.kind && Submittable(s.order)
      && |s.trades| <= n && (s.trades == [] ==> s.book == b)
  {
    hide SideOk, Uncrossed, Owners, TradeOnce, Finish, Ended;
    var s := Slice(b, o, n);
    SliceKeeps(b, o, n);
    SliceEnds(b, o, n);
    SliceKeepsBook(b, o, n);
    if s.done {
      FinishKeepsBook(s.book, s.order);
    }
  }

  // ------------------------------------------------------------------------ engine

  class MatchingEngine {
    const capacity: nat
    const maxMatches: nat
    const maxCancels: nat

    const defaultBook: OrderBook
    var books: map<string, OrderBook>
    var tradeSeq: nat

    /** Everything sent on a channel so far, and how much of it was received. */
    var orderCh: seq<BookOrder>
    var cancelCh: seq<CancelCommand>
    var orderNext: nat
    var cancelNext: nat
    var exec: seq<ExecutionEvent>
    var stopRequested: bool

    var reservationActive: bool
    var reservationRemaining: int
    var panicked: bool

    var sweep: Option<BookOrder>
    var shuttingDown: bool
    var cancelsSinceProgress: nat
    var pendingCancel: Option<CancelCommand>
    var pendingOrder: Option<BookOrder>
    var tickerDue: bool

    var cache: map<string, Snapshot>
    var dirty: set<string>
    var snapshotCh: seq<Snapshot>

    /** Everything ever put on the execution channel. */
    ghost var emitted: seq<ExecutionEvent>

    /** Everything the scheduler has done. */
    ghost var marks: seq<Mark>

    constructor (capacity: nat, maxMatches: nat, maxCancels: nat)
      requires ValidQuantum(maxMatches, maxCancels) && ValidCapacity(capacity, maxMatches, maxCancels)
      ensures Valid() && marks == [] && emitted == []
    {
      this.capacity, this.maxMatches, this.maxCancels := capacity, maxMatches, maxCancels;
      defaultBook := new OrderBook();
      books := map[];
      tradeSeq := 0;
      orderCh, cancelCh, exec, stopRequested := [], [], [], false;
      reservationActive, reservationRemaining, panicked := false, 0, false;
      sweep, shuttingDown, cancelsSinceProgress := None, false, 0;
      pendingCancel, pendingOrder, tickerDue := None, None, false;
      cache, dirty, snapshotCh := map[], {}, [];
      emitted, marks := [], [];
      orderNext, cancelNext := 0, 0;
      new;
      forall s: string ensures Traces(Deeds(marks, s, maxMatches), s, BookAt(s), sweep, emitted, Admitted(marks)) {
        TracesStart(s);
      }
    }

    // ------------------------------------------------------------------ invariant

    /** The book of a symbol; one nobody asked for yet is empty. */
    function BookAt(symbol: string): Book
      reads this`books, books.Values
    {
      if symbol in books then books[symbol].Model() else EMPTY
    }

    ghost function Repr(): set<OrderBook>
      reads this`books
    {
      books.Values + {defaultBook}
    }

    /** Symbols do not share a book, and the default book is clean until it is given to
        the first symbol. */
    predicate Separate()
      reads this`books, books.Values, defaultBook
    {
      && (forall s, t :: s in books && t in books && s != t ==> books[s] != books[t])
      && (books == map[] ==> defaultBook.Model() == EMPTY)
    }

    predicate BooksOk()
      reads this`books, books.Values, defaultBook
    {
      && Separate()
      && forall s :: s in books ==> BookOk(books[s].Model())
    }

    predicate EmissionOk()
      reads this`panicked, this`reservationActive, this`reservationRemaining, this`exec
    {
      && ValidQuantum(maxMatches, maxCancels) && ValidCapacity(capacity, maxMatches, maxCancels)
      && !panicked && !reservationActive && reservationRemaining == 0 && |exec| <= capacity
    }

    ghost predicate WorkOk()
      reads this`orderCh, this`cancelCh, this`orderNext, this`cancelNext
      reads this`pendingOrder, this`sweep, this`books, this`shuttingDown, this`stopRequested
    {
      && AllOfferable() && orderNext <= |orderCh| && cancelNext <= |cancelCh|
      && (pendingOrder.Some? ==> Offerable(pendingOrder.value))
      && (sweep.Some? ==> Submittable(sweep.value) && sweep.value.symbol in books)
      && (shuttingDown ==> stopRequested)
    }

    ghost predicate QuotaOk()
      reads this`cancelsSinceProgress, this`marks
    {
      Counted(marks, cancelsSinceProgress, maxCancels)
    }

    function LoadSnapshot(symbol: string): Snapshot
      reads this`cache
    {
      if symbol in cache then cache[symbol] else Snapshot(symbol, [], [])
    }

    /** A symbol that is not dirty is cached as its book stands. */
    ghost predicate CacheOk()
      reads this`cache, this`dirty, this`snapshotCh, this`books, books.Values
    {
      && dirty <= books.Keys && |snapshotCh| <= SNAPSHOT_CAPACITY
      && forall s: string :: s !in dirty ==> LoadSnapshot(s) == View(BookAt(s), s, DEPTH)
    }

    /** First come, first served: the orders admitted and then the one in hand are the ones
        received, in that order, and likewise the cancels answered. */
    ghost predicate IntakeOk(hand: Hand)
      reads this`marks, this`orderCh, this`cancelCh, this`orderNext, this`cancelNext
    {
      && orderNext <= |orderCh| && orderCh[..orderNext] == Admitted(marks) + Latched(hand.order)
      && cancelNext <= |cancelCh| && cancelCh[..cancelNext] == Replied(marks) + Latched(hand.cancel)
    }

    /** What the scheduler has done to the book of a symbol. */
    ghost function HistoryOf(symbol: string): seq<Action>
      reads this`marks
    {
      Deeds(marks, symbol, maxMatches)
    }

    /** The state these marks lead to. Events are numbered without a gap; and as long as no
        order id was submitted twice, every book is at the end of a run of its own, namely
        what the marks say was done to it, the events emitted for it are those of that run,
        and every cancel was answered as the book stood. */
    ghost predicate TracedBy(ms: seq<Mark>)
      reads this`books, books.Values, this`sweep, this`emitted, this`tradeSeq
    {
      && Consecutive(emitted, tradeSeq)
      && (DistinctIds(Admitted(ms)) ==>
            && Truthful(ms, maxMatches)
            && forall s: string :: Traces(Deeds(ms, s, maxMatches), s, BookAt(s), sweep, emitted, Admitted(ms)))
    }

    ghost predicate Traced()
      reads this`books, books.Values, this`sweep, this`emitted, this`tradeSeq, this`marks
    {
      TracedBy(marks)
    }

    /** What every operation keeps. */
    ghost predicate Core()
      reads this`books, books.Values, defaultBook, this`panicked, this`reservationActive, this`reservationRemaining, this`exec
      reads this`orderCh, this`cancelCh, this`orderNext, this`cancelNext, this`pendingOrder, this`sweep
      reads this`shuttingDown, this`stopRequested, this`cancelsSinceProgress, this`marks, this`cache, this`dirty, this`snapshotCh
    {
      BooksOk() && EmissionOk() && WorkOk() && QuotaOk() && CacheOk()
    }

    /** What every step of the scheduler keeps. */
    ghost predicate Valid()
      reads this, books.Values, defaultBook
    {
      Core() && IntakeOk(Hand(pendingOrder, pendingCancel)) && Traced()
    }

    function Free(): int
      reads this`exec
    {
      capacity - |exec|
    }

    predicate HasSliceCapacity()
      reads this`exec
    {
      RoomForSlice(Free(), maxMatches, maxCancels)
    }

    predicate SliceBlockedNow()
      reads this`exec, this`sweep
    {
      sweep.Some? && !HasSliceCapacity()
    }

    /** Three quarters of the channel are taken. */
    predicate EmitBackpressured()
      reads this`exec
    {
      |exec| >= capacity * 3 / 4
    }

    // ---------------------------------------------------------- other goroutines

    predicate AllOfferable()
      reads this`orderCh
    {
      forall o :: o in orderCh ==> Offerable(o)
    }

    /** What other goroutines may do to the intake meanwhile: they only send, and not at
        all once the engine has been stopped. */
    twostate predicate Elsewhere()
      reads this`orderCh, this`cancelCh, this`stopRequested
    {
      && old(orderCh) <= orderCh && old(cancelCh) <= cancelCh
      && (old(AllOfferable()) ==> AllOfferable())
      && (old(stopRequested) ==> stopRequested && orderCh == old(orderCh) && cancelCh == old(cancelCh))
    }

    /** The consumer may take any number of events, producers may submit while the engine
        is not stopped, and the engine may be stopped. */
    method Interleave()
      modifies `exec, `orderCh, `cancelCh, `stopRequested
      ensures |exec| <= |old(exec)| && exec == old(exec)[|old(exec)| - |exec|..] && Elsewhere()
    {
      var taken: nat :| taken <= |exec|;
      exec := exec[taken..];
      if !stopRequested {
        var orders: seq<BookOrder> := *;
        var cancels: seq<CancelCommand> := *;
        if forall i :: 0 <= i < |orders| ==> Offerable(orders[i]) {
          orderCh := orderCh + orders;
        }
        cancelCh := cancelCh + cancels;
        stopRequested := *;
      }
    }

    // ------------------------------------------------------------------- emission

    method BeginReservation(budget: int)
      modifies `reservationActive, `reservationRemaining
      ensures reservationActive && reservationRemaining == budget
    {
      reservationActive, reservationRemaining := true, budget;
    }

    method EndReservation()
      modifies `reservationActive, `reservationRemaining
      ensures !reservationActive && reservationRemaining == 0
    {
      reservationActive, reservationRemaining := false, 0;
    }

    /** Room for everything still reserved: what keeps a reserved send from panicking. */
    predicate Reserved()
      reads this`exec, this`reservationActive, this`reservationRemaining
    {
      reservationActive ==> |exec| + reservationRemaining <= capacity
    }

    /** Puts an event on the channel. Inside a reservation it does not wait: it panics
        when the budget is used up or the channel is full. Outside, it waits until the
        consumer has made room. */
    method SendExecution(event: ExecutionEvent)
      requires !panicked && |exec| <= capacity && capacity >= 1
      modifies `exec, `orderCh, `cancelCh, `stopRequested, `reservationRemaining, `panicked, `emitted
      ensures Elsewhere()
      ensures old(reservationActive) && (old(reservationRemaining) <= 0) ==> panicked
      ensures (old(reservationActive) ==> old(reservationRemaining) > 0 && |old(exec)| < capacity) ==> !panicked
      ensures !panicked ==>
        && emitted == old(emitted) + [event] && |exec| <= |old(exec)| + 1 && |exec| <= capacity
        && (reservationActive ==> reservationRemaining == old(reservationRemaining) - 1)
        && (!reservationActive ==> reservationRemaining == old(reservationRemaining))
    {
      Interleave();
      if reservationActive {
        if reservationRemaining <= 0 {
          panicked := true;
          return;
        }
        if |exec| >= capacity {
          panicked := true;
          return;
        }
        exec := exec + [event];
        reservationRemaining := reservationRemaining - 1;
      } else {
        if |exec| == capacity {
          exec := exec[1..];
        }
        exec := exec + [event];
      }
      emitted := emitted + [event];
    }

    method EmitTrade(trade: EngineTrade)
      requires !panicked && |exec| <= capacity && capacity >= 1
      requires Reserved() && (reservationActive ==> reservationRemaining > 0)
      modifies `exec, `orderCh, `cancelCh, `stopRequested, `reservationRemaining, `panicked, `emitted, `tradeSeq
      ensures !panicked && Reserved() && tradeSeq == old(tradeSeq) + 1 && Elsewhere()
      ensures emitted == old(emitted) + [TradeEvent(old(tradeSeq) + 1, trade)]
      ensures |exec| <= |old(exec)| + 1 && |exec| <= capacity
      ensures reservationRemaining == old(reservationRemaining) - if reservationActive then 1 else 0
    {
      tradeSeq := tradeSeq + 1;
      SendExecution(TradeEvent(tradeSeq, trade));
    }

    // ---------------------------------------------------------------- match loops

    /** Takes `q` from a resting order, and the order and its level out of the book when
        nothing is left of them. */
    method TakeFrom(book: OrderBook, side: Side, l: nat, i: nat, q: real)
      requires l < |book.Model().On(side)| && i < |book.Model().On(side)[l].orders|
      modifies book
      ensures book.Model() == old(book.Model()).With(side, Take(old(book.Model()).On(side), l, i, q))
    {
      var levels := book.Model().On(side);
      var resting := levels[l].orders[i];
      var left := resting.(amount := resting.amount - q, filled := resting.filled + q);
      var orders := levels[l].orders[i := left];
      if !(left.amount > 0.0) {
        assert Without(orders, i) == Without(levels[l].orders, i);
        orders := Without(orders, i);
      }
      if |orders| == 0 {
        levels := Without(levels, l);
      } else {
        levels := levels[l := levels[l].(orders := orders)];
      }
      if side == Buy { book.buys := levels; } else { book.sells := levels; }
    }

    /** A loop may start: its side of the book is in order and, inside a reservation, the
        budget covers every trade it can make. */
    predicate CanMatch(book: OrderBook, o: BookOrder, budget: nat)
      reads this, book
    {
      && !panicked && |exec| <= capacity && capacity >= 1 && Facing(book.Model(), o)
      && Reserved() && (reservationActive ==> 0 < budget <= reservationRemaining)
    }

    /** A loop is done: book and order are where the goal says, and the trades were
        emitted in order, numbered without a gap. */
    twostate predicate Matched(book: OrderBook, goal: Swept, order: BookOrder, trades: nat, done: bool)
      reads this, book
    {
      && goal == Swept(book.Model(), order, goal.trades, done) && trades == |goal.trades|
      && Emitted(goal.trades)
    }

    twostate predicate Emitted(ts: seq<EngineTrade>)
      reads this
    {
      && !panicked && Reserved() && |exec| <= capacity && |exec| <= |old(exec)| + |ts| && Elsewhere()
      && emitted == old(emitted) + Numbered(ts, old(tradeSeq)) && tradeSeq == old(tradeSeq) + |ts|
      && reservationRemaining == old(reservationRemaining) - if reservationActive then |ts| else 0
    }

    method MatchBuy(book: OrderBook, o: BookOrder, budget: nat) returns (order: BookOrder, trades: nat, done: bool)
      requires o.side == Buy && o.kind == Limit && CanMatch(book, o, budget)
      modifies `exec, `orderCh, `cancelCh, `stopRequested, `reservationRemaining, `panicked, `emitted, `tradeSeq, book
      ensures Matched(book, Goal(old(book.Model()), o, budget, 0), order, trades, done)
    {
      hide SideOk, Best, Take, Goal, AllOfferable;
      ghost var goal := Goal(book.Model(), o, budget, 0);
      ghost var ts: seq<EngineTrade> := [];
      order, trades := o, 0;
      Starts(book.Model(), o, budget);
      while order.amount > 0.0
        invariant order.side == Buy && order.kind == Limit && order.symbol == o.symbol
        invariant |ts| == trades && OnCourse(goal, book.Model(), order, budget, ts)
        invariant Emitted(ts)
        decreases Rank(book.Model(), order)
      {
        if budget > 0 && trades >= budget {
          Yields(goal, book.Model(), order, budget, ts);
          return order, trades, false;
        }
        var best := BestMatchableSellOrder(book.Model(), order);
        if best.None? {
          Stops(goal, book.Model(), order, budget, ts);
          return order, trades, true;
        }
        var (l, i) := best.value;
        var price, resting := book.sells[l].price, book.sells[l].orders[i];
        var tradeQty := Min(order.amount, resting.amount);
        if !(tradeQty > 0.0) {
          Stops(goal, book.Model(), order, budget, ts);
          return order, trades, true;
        }
        ghost var t := TradeOnce(book.Model(), order).value;
        GoesOn(goal, book.Model(), order, budget, ts, t);
        TradeLowersRank(book.Model(), order);
        order := order.(amount := order.amount - tradeQty, filled := order.filled + tradeQty);
        TakeFrom(book, Sell, l, i, tradeQty);
        EmitTrade(EngineTrade(order.symbol, price, tradeQty, order.id, resting.id));
        NumberedNext(ts, t.trade, old(tradeSeq));
        ts := ts + [t.trade];
        trades := trades + 1;
      }
      Stops(goal, book.Model(), order, budget, ts);
      return order, trades, true;
    }

    method MatchSell(book: OrderBook, o: BookOrder, budget: nat) returns (order: BookOrder, trades: nat, done: bool)
      requires o.side == Sell && o.kind == Limit && CanMatch(book, o, budget)
      modifies `exec, `orderCh, `cancelCh, `stopRequested, `reservationRemaining, `panicked, `emitted, `tradeSeq, book
      ensures Matched(book, Goal(old(book.Model()), o, budget, 0), order, trades, done)
    {
      hide SideOk, Best, Take, Goal, AllOfferable;
      ghost var goal := Goal(book.Model(), o, budget, 0);
      ghost var ts: seq<EngineTrade> := [];
      order, trades := o, 0;
      Starts(book.Model(), o, budget);
      while order.amount > 0.0
        invariant order.side == Sell && order.kind == Limit && order.symbol == o.symbol
        invariant |ts| == trades && OnCourse(goal, book.Model(), order, budget, ts)
        invariant Emitted(ts)
        decreases Rank(book.Model(), order)
      {
        if budget > 0 && trades >= budget {
          Yields(goal, book.Model(), order, budget, ts);
          return order, trades, false;
        }
        var best := BestMatchableBuyOrder(book.Model(), order);
        if best.None? {
          Stops(goal, book.Model(), order, budget, ts);
          return order, trades, true;
        }
        var (l, i) := best.value;
        var price, resting := book.buys[l].price, book.buys[l].orders[i];
        var tradeQty := Min(order.amount, resting.amount);
        if !(tradeQty > 0.0) {
          Stops(goal, book.Model(), order, budget, ts);
          return order, trades, true;
        }
        ghost var t := TradeOnce(book.Model(), order).value;
        GoesOn(goal, book.Model(), order, budget, ts, t);
        TradeLowersRank(book.Model(), order);
        order := order.(amount := order.amount - tradeQty, filled := order.filled + tradeQty);
        TakeFrom(book, Buy, l, i, tradeQty);
        EmitTrade(EngineTrade(order.symbol, price, tradeQty, resting.id, order.id));
        NumberedNext(ts, t.trade, old(tradeSeq));
        ts := ts + [t.trade];
        trades := trades + 1;
      }
      Stops(goal, book.Model(), order, budget, ts);
      return order, trades, true;
    }

    method MatchMarketBuy(book: OrderBook, o: BookOrder, budget: nat) returns (order: BookOrder, trades: nat, done: bool)
      requires o.side == Buy && o.kind == Market && CanMatch(book, o, budget)
      modifies `exec, `orderCh, `cancelCh, `stopRequested, `reservationRemaining, `panicked, `emitted, `tradeSeq, book
      ensures Matched(book, Goal(old(book.Model()), o, budget, 0), order, trades, done)
    {
      hide QuoFloor, SideOk, Best, Take, Goal, AllOfferable;
      ghost var goal := Goal(book.Model(), o, budget, 0);
      ghost var ts: seq<EngineTrade> := [];
      order, trades := o, 0;
      Starts(book.Model(), o, budget);
      while order.quote > 0.0
        invariant order.side == Buy && order.kind == Market && order.symbol == o.symbol
        invariant |ts| == trades && OnCourse(goal, book.Model(), order, budget, ts)
        invariant Emitted(ts)
        decreases Rank(book.Model(), order)
      {
        if budget > 0 && trades >= budget {
          Yields(goal, book.Model(), order, budget, ts);
          return order, trades, false;
        }
        var best := BestMarketSellOrder(book.Model(), order);
        if best.None? {
          Stops(goal, book.Model(), order, budget, ts);
          return order, trades, true;
        }
        var (l, i) := best.value;
        var price, resting := book.sells[l].price, book.sells[l].orders[i];
        RestingPrice(book.Model(), order, l);
        var maxQtyByQuote := QuoFloor(order.quote, price);
        var tradeQty := Min(maxQtyByQuote, resting.amount);
        if !(tradeQty > 0.0) {
          Stops(goal, book.Model(), order, budget, ts);
          return order, trades, true;
        }
        ghost var t := TradeOnce(book.Model(), order).value;
        GoesOn(goal, book.Model(), order, budget, ts, t);
        TradeLowersRank(book.Model(), order);
        var executionQuote := Cost(price, tradeQty);
        order := order.(quote := order.quote - executionQuote, filledQuote := order.filledQuote + executionQuote,
                        filled := order.filled + tradeQty);
        TakeFrom(book, Sell, l, i, tradeQty);
        EmitTrade(EngineTrade(order.symbol, price, tradeQty, order.id, resting.id));
        NumberedNext(ts, t.trade, old(tradeSeq));
        ts := ts + [t.trade];
        trades := trades + 1;
      }
      Stops(goal, book.Model(), order, budget, ts);
      return order, trades, true;
    }

    method MatchMarketSell(book: OrderBook, o: BookOrder, budget: nat) returns (order: BookOrder, trades: nat, done: bool)
      requires o.side == Sell && o.kind == Market && CanMatch(book, o, budget)
      modifies `exec, `orderCh, `cancelCh, `stopRequested, `reservationRemaining, `panicked, `emitted, `tradeSeq, book
      ensures Matched(book, Goal(old(book.Model()), o, budget, 0), order, trades, done)
    {
      hide SideOk, Best, Take, Goal, AllOfferable;
      ghost var goal := Goal(book.Model(), o, budget, 0);
      ghost var ts: seq<EngineTrade> := [];
      order, trades := o, 0;
      Starts(book.Model(), o, budget);
      while order.amount > 0.0
        invariant order.side == Sell && order.kind == Market && order.symbol == o.symbol
        invariant |ts| == trades && OnCourse(goal, book.Model(), order, budget, ts)
        invariant Emitted(ts)
        decreases Rank(book.Model(), order)
      {
        if budget > 0 && trades >= budget {
          Yields(goal, book.Model(), order, budget, ts);
          return order, trades, false;
        }
        var best := BestMarketBuyOrder(book.Model(), order);
        if best.None? {
          Stops(goal, book.Model(), order, budget, ts);
          return order, trades, true;
        }
        var (l, i) := best.value;
        var price, resting := book.buys[l].price, book.buys[l].orders[i];
        var tradeQty := Min(order.amount, resting.amount);
        if !(tradeQty > 0.0) {
          Stops(goal, book.Model(), order, budget, ts);
          return order, trades, true;
        }
        ghost var t := TradeOnce(book.Model(), order).value;
        GoesOn(goal, book.Model(), order, budget, ts, t);
        TradeLowersRank(book.Model(), order);
        var executionQuote := Cost(price, tradeQty);
        order := order.(amount := order.amount - tradeQty, filled := order.filled + tradeQty,
                        filledQuote := order.filledQuote + executionQuote);
        TakeFrom(book, Buy, l, i, tradeQty);
        EmitTrade(EngineTrade(order.symbol, price, tradeQty, resting.id, order.id));
        NumberedNext(ts, t.trade, old(tradeSeq));
        ts := ts + [t.trade];
        trades := trades + 1;
      }
      Stops(goal, book.Model(), order, budget, ts);
      return order, trades, true;
    }

    method MatchSlice(book: OrderBook, o: BookOrder, budget: nat) returns (order: BookOrder, trades: nat, done: bool)
      requires CanMatch(book, o, budget)
      modifies `exec, `orderCh, `cancelCh, `stopRequested, `reservationRemaining, `panicked, `emitted, `tradeSeq, book
      ensures Matched(book, Goal(old(book.Model()), o, budget, 0), order, trades, done)
    {
      match (o.side, o.kind)
      case (Buy, Market) => order, trades, done := MatchMarketBuy(book, o, budget);
      case (Buy, Limit) => order, trades, done := MatchBuy(book, o, budget);
      case (Sell, Market) => order, trades, done := MatchMarketSell(book, o, budget);
      case (Sell, Limit) => order, trades, done := MatchSell(book, o, budget);
    }

    // ------------------------------------------------------------- books and cache

    /** Hands out a symbol's book. The first symbol ever gets the default book; asking
        changes no book's contents. */
    method GetOrderBook(symbol: string) returns (book: OrderBook)
      requires symbol != "" && BooksOk()
      modifies `books
      ensures BooksOk() && symbol in books && books[symbol] == book && fresh(Repr() - old(Repr())) && book in Repr()
      ensures forall s :: s in old(books) ==> s in books && books[s] == old(books[s])
      ensures books.Keys == old(books.Keys) + {symbol} && book.Model() == old(BookAt(symbol))
      ensures forall s: string :: BookAt(s) == old(BookAt(s))
    {
      hide BookOk;
      if symbol in books {
        return books[symbol];
      }
      if books == map[] {
        book := defaultBook;
      } else {
        book := new OrderBook();
      }
      books := books[symbol := book];
      EmptyIsOk();
    }

    method MarkDirty(symbol: string)
      modifies `dirty
      ensures dirty == old(dirty) + {symbol}
    {
      dirty := dirty + {symbol};
    }

    /** Caches the view of a dirty symbol, and sends it if the channel is not full. */
    method FlushOne(s: string) returns (sent: bool)
      requires BooksOk() && CacheOk() && s in dirty
      modifies `cache, `dirty, `snapshotCh
      ensures CacheOk() && dirty == old(dirty) - {s}
      ensures sent ==> snapshotCh != [] && snapshotCh[|snapshotCh| - 1] == View(BookAt(s), s, DEPTH)
      ensures |old(snapshotCh)| < SNAPSHOT_CAPACITY ==> sent
      ensures |snapshotCh| <= |old(snapshotCh)| + 1
    {
      hide Separate, BookOk, View, SideOk;
      Sides(books[s].Model());
      var snapshot := TakeSnapshot(books[s].Model(), s, DEPTH);
      cache := cache[s := snapshot];
      dirty := dirty - {s};
      var taken: nat :| taken <= |snapshotCh|;
      snapshotCh := snapshotCh[taken..];
      sent := |snapshotCh| < SNAPSHOT_CAPACITY;
      if sent {
        snapshotCh := snapshotCh + [snapshot];
      }
    }

    /** Each of these snapshots shows the book of a different symbol as it stands. */
    ghost predicate Shows(sent: seq<Snapshot>, symbols: set<string>)
      reads this`books, books.Values
    {
      && (forall i :: 0 <= i < |sent| ==> sent[i].symbol in symbols && sent[i] == View(BookAt(sent[i].symbol), sent[i].symbol, DEPTH))
      && (forall i, j :: 0 <= i < j < |sent| ==> sent[i].symbol != sent[j].symbol)
    }

    lemma ShowsOneMore(sent: seq<Snapshot>, symbols: set<string>, s: string)
      requires Shows(sent, symbols) && s !in symbols
      ensures Shows(sent, symbols + {s}) && Shows(sent + [View(BookAt(s), s, DEPTH)], symbols + {s})
    {
      hide Top, BookAt;
    }

    /** Caches the view of every dirty symbol and offers it to the consumer, once each and
        without waiting: a view that finds the channel full is dropped, which does not
        happen while there is room for all of them. */
    method FlushSnapshots() returns (ghost sent: seq<Snapshot>)
      requires Core()
      modifies `cache, `dirty, `snapshotCh
      ensures Core() && dirty == {} && Shows(sent, old(dirty))
      ensures |old(snapshotCh)| + |old(dirty)| <= SNAPSHOT_CAPACITY ==> |sent| == |old(dirty)|
    {
      hide BooksOk, EmissionOk, WorkOk, QuotaOk, View, CacheOk, Shows;
      sent := [];
      ghost var flushed: set<string> := {};
      assert Shows([], {}) by { NothingShown(); }
      while dirty != {}
        invariant Core() && flushed !! dirty && flushed + dirty == old(dirty) && Shows(sent, flushed)
        invariant |old(snapshotCh)| + |old(dirty)| <= SNAPSHOT_CAPACITY ==>
          |sent| + |dirty| == |old(dirty)| && |snapshotCh| <= |old(snapshotCh)| + |sent|
        decreases dirty
      {
        var s :| s in dirty;
        var accepted := FlushOne(s);
        ShowsOneMore(sent, flushed, s);
        flushed := flushed + {s};
        if accepted {
          sent := sent + [View(BookAt(s), s, DEPTH)];
        }
      }
      assert flushed == old(dirty);
    }

    lemma NothingShown()
      ensures Shows([], {})
    {
    }

    /** Answers a reader from the cache alone. */
    method RequestOrderBookSnapshot(symbol: string, depth: int) returns (s: Snapshot)
      requires CacheOk()
      ensures s == Served(LoadSnapshot(symbol), depth)
      ensures symbol !in dirty ==>
        var d := NormalizeDepth(depth);
        s == View(BookAt(symbol), symbol, if d > DEPTH then DEPTH else d)
      ensures symbol !in dirty && SideOk(Sell, BookAt(symbol).sells) && SideOk(Buy, BookAt(symbol).buys) ==>
        var d := if 1 <= depth <= 30 then depth else 30;
        s.symbol == symbol && Depicts(Sell, BookAt(symbol).sells, d, s.asks) && Depicts(Buy, BookAt(symbol).buys, d, s.bids)
    {
      hide SideOk, Depicts;
      ServedIsView(BookAt(symbol), symbol, depth);
      if SideOk(Sell, BookAt(symbol).sells) && SideOk(Buy, BookAt(symbol).buys) {
        ViewShows(BookAt(symbol), symbol, if 1 <= depth <= 30 then depth else 30);
      }
      return Served(LoadSnapshot(symbol), depth);
    }

    /** Changing one symbol's book disturbs no other. */
    twostate lemma OneBookChanged(symbol: string)
      requires old(BooksOk())
      requires books == old(books) && symbol in books
      requires forall b: OrderBook :: b in books.Values && b != books[symbol] ==> b.Model() == old(b.Model())
      requires BookOk(books[symbol].Model())
      ensures BooksOk()
      ensures forall s: string :: s != symbol ==> BookAt(s) == old(BookAt(s))
    {
      hide BookOk;
      assert forall s :: s in books && s != symbol ==> books[s] in books.Values && books[s].Model() == old(books[s].Model());
    }

    /** The cache stands when the one symbol whose book may differ is dirty. */
    twostate lemma CacheStays(symbol: string)
      requires old(CacheOk()) && cache == old(cache) && snapshotCh == old(snapshotCh) && old(books.Keys) <= books.Keys
      requires forall s: string :: s != symbol ==> BookAt(s) == old(BookAt(s))
      requires if BookAt(symbol) == old(BookAt(symbol)) then dirty == old(dirty) || (symbol in books && dirty == old(dirty) + {symbol})
               else symbol in books && dirty == old(dirty) + {symbol}
      ensures CacheOk()
    {
      hide View;
    }

    /** The work in hand stands while other goroutines act and books are handed out. */
    twostate lemma WorkStays()
      requires old(WorkOk()) && Elsewhere() && old(books.Keys) <= books.Keys
      requires pendingOrder == old(pendingOrder) && shuttingDown == old(shuttingDown)
      requires orderNext == old(orderNext) && cancelNext == old(cancelNext)
      requires sweep.Some? ==> Submittable(sweep.value) && sweep.value.symbol in books
      ensures WorkOk()
    {
      hide Submittable, Offerable, AllOfferable;
    }

    lemma SweepIsSubmittable()
      requires WorkOk()
      ensures sweep.Some? ==> Submittable(sweep.value) && sweep.value.symbol in books
    {
    }

    // --------------------------------------------------------------------- slices

    /** Ends a sweep: a market order reports what it did, what is left of a limit order
        rests on the book. */
    method FinishOrder(book: OrderBook, order: BookOrder)
      requires !panicked && |exec| <= capacity && capacity >= 1 && BookOk(book.Model())
      requires reservationActive ==> reservationRemaining > 0 && |exec| < capacity
      modifies `exec, `orderCh, `cancelCh, `stopRequested, `reservationRemaining, `panicked, `emitted, `dirty, book
      ensures !panicked && |exec| <= capacity && |exec| <= |old(exec)| + 1 && Elsewhere()
      ensures book.Model() == Finish(old(book.Model()), order)
      ensures Submittable(order) ==> Ended(old(book.Model()), order, book.Model())
      ensures emitted == old(emitted) + if order.kind == Market then [DoneEvent(order)] else []
      ensures order.kind == Market ==>
        emitted == old(emitted) + [MarketDone(order.id, order.symbol, order.side, order.filled, order.filledQuote, order.amount, order.quote)]
      ensures dirty == old(dirty) + if book.Model() == old(book.Model()) then {} else {order.symbol}
    {
      hide SideOk, Uncrossed, Ended, AllOfferable;
      if Submittable(order) {
        FinishEnds(book.Model(), order);
      }
      if order.kind == Market {
        SendExecution(DoneEvent(order));
        return;
      }
      if order.amount > 0.0 {
        book.AddOrder(order);
        MarkDirty(order.symbol);
      }
    }

    /** The body of a slice, inside its reservation of one event per trade and one for a
        market order's report. */
    method EmitSlice(book: OrderBook, o: BookOrder) returns (order: BookOrder, done: bool)
      requires EmissionOk() && HasSliceCapacity() && BookOk(book.Model()) && Submittable(o)
      modifies `exec, `orderCh, `cancelCh, `stopRequested, `reservationActive, `reservationRemaining, `panicked,
               `emitted, `tradeSeq, `dirty, book
      ensures EmissionOk() && Free() >= maxCancels && Elsewhere()
      ensures var s := Slice(old(book.Model()), o, maxMatches);
        && order == s.order && done == s.done
        && book.Model() == (if s.done then Finish(s.book, s.order) else s.book)
        && emitted == old(emitted) + Numbered(s.trades, old(tradeSeq))
                      + (if s.done && o.kind == Market then [DoneEvent(s.order)] else [])
        && tradeSeq == old(tradeSeq) + |s.trades|
      ensures dirty == old(dirty) + {o.symbol} || (dirty == old(dirty) && book.Model() == old(book.Model()))
    {
      hide BookOk, SideOk, Slice, Finish, Facing, AllOfferable, Numbered, Ended;
      SliceOutcome(book.Model(), o, maxMatches);
      Faces(book.Model(), o);
      BeginReservation(maxMatches + 1);
      var trades;
      order, trades, done := MatchSlice(book, o, maxMatches);
      if trades >= 1 {
        MarkDirty(o.symbol);
      }
      if !done {
        EndReservation();
        return;
      }
      FinishOrder(book, order);
      EndReservation();
    }

    method SliceBook()
      requires BooksOk() && EmissionOk() && HasSliceCapacity()
      requires sweep.Some? && Submittable(sweep.value) && sweep.value.symbol in books
      modifies `exec, `orderCh, `cancelCh, `stopRequested, `reservationActive, `reservationRemaining, `panicked,
               `emitted, `tradeSeq, `dirty, `sweep, books[sweep.value.symbol]
      ensures BooksOk() && EmissionOk() && Elsewhere() && Free() >= maxCancels
      ensures var o := old(sweep.value);
        var s := Slice(old(BookAt(o.symbol)), o, maxMatches);
        && sweep == (if s.done then None else Some(s.order))
        && BookAt(o.symbol) == (if s.done then Finish(s.book, s.order) else s.book)
        && emitted == old(emitted) + Numbered(s.trades, old(tradeSeq))
                      + (if s.done && o.kind == Market then [DoneEvent(s.order)] else [])
        && tradeSeq == old(tradeSeq) + |s.trades|
      ensures var o := old(sweep.value);
        var s := Slice(old(BookAt(o.symbol)), o, maxMatches);
        s.done ==> Ended(s.book, s.order, BookAt(o.symbol))
      ensures forall s: string :: s != old(sweep.value.symbol) ==> BookAt(s) == old(BookAt(s))
      ensures sweep.Some? ==> Submittable(sweep.value) && sweep.value.symbol == old(sweep.value.symbol)
      ensures var symbol := old(sweep.value.symbol);
        dirty == old(dirty) + {symbol} || (dirty == old(dirty) && BookAt(symbol) == old(BookAt(symbol)))
    {
      hide BookOk, Slice, Finish, Separate, EmissionOk, AllOfferable, Numbered, Submittable, Elsewhere, DoneEvent, Ended;
      var o := sweep.value;
      var book := books[o.symbol];
      SliceOutcome(book.Model(), o, maxMatches);
      var order, done := EmitSlice(book, o);
      sweep := if done then None else Some(order);
      OneBookChanged(o.symbol);
    }

    /** One slice of the active sweep: exactly the trades of the next slice of its match,
        then the end of the order if the match is done. Whatever the consumer does, no
        send of the slice panics, and room for a full quota of cancels is left. */
    method RunSlice()
      requires Core() && sweep.Some? && HasSliceCapacity()
      modifies `exec, `orderCh, `cancelCh, `stopRequested, `reservationActive, `reservationRemaining, `panicked,
               `emitted, `tradeSeq, `dirty, `sweep, books[sweep.value.symbol]
      ensures Core() && Elsewhere() && Free() >= maxCancels
      ensures var o := old(sweep.value);
        var s := Slice(old(BookAt(o.symbol)), o, maxMatches);
        && sweep == (if s.done then None else Some(s.order))
        && BookAt(o.symbol) == (if s.done then Finish(s.book, s.order) else s.book)
        && emitted == old(emitted) + Numbered(s.trades, old(tradeSeq))
                      + (if s.done && o.kind == Market then [DoneEvent(s.order)] else [])
        && tradeSeq == old(tradeSeq) + |s.trades|
      ensures var o := old(sweep.value);
        var s := Slice(old(BookAt(o.symbol)), o, maxMatches);
        s.done ==> Ended(s.book, s.order, BookAt(o.symbol))
      ensures forall s: string :: s != old(sweep.value.symbol) ==> BookAt(s) == old(BookAt(s))
    {
      hide BooksOk, Slice, Finish, QuotaOk, CacheOk, EmissionOk, WorkOk, AllOfferable, Numbered, Submittable, Elsewhere, BookAt, DoneEvent, Ended;
      SweepIsSubmittable();
      ghost var symbol := sweep.value.symbol;
      SliceBook();
      CacheStays(symbol);
      WorkStays();
    }

    method EmitSweep(book: OrderBook, o: BookOrder)
      requires EmissionOk() && BookOk(book.Model()) && Submittable(o)
      modifies `exec, `orderCh, `cancelCh, `stopRequested, `reservationRemaining, `panicked, `emitted, `tradeSeq, `dirty, book
      ensures !panicked && Facing(old(book.Model()), o)
      ensures var s := Sweep(old(book.Model()), o);
        && book.Model() == Finish(s.book, s.order)
        && emitted == old(emitted) + Numbered(s.trades, old(tradeSeq)) + if o.kind == Market then [DoneEvent(s.order)] else []
    {
      hide BookOk, SideOk, Slice, Finish, Facing, Follows, AllOfferable, Numbered, Sweep, Ended;
      SweepOutcome(book.Model(), o);
      var order, trades, done := MatchSlice(book, o, 0);
      FinishOrder(book, order);
    }

    method SweepBook(o: BookOrder)
      requires BooksOk() && EmissionOk() && Submittable(o) && o.symbol in books
      modifies `exec, `orderCh, `cancelCh, `stopRequested, `reservationRemaining, `panicked, `emitted, `tradeSeq, `dirty, books[o.symbol]
      ensures BooksOk() && !panicked && Facing(old(BookAt(o.symbol)), o)
      ensures var s := Sweep(old(BookAt(o.symbol)), o);
        && BookAt(o.symbol) == Finish(s.book, s.order) && Ended(s.book, s.order, BookAt(o.symbol))
        && emitted == old(emitted) + Numbered(s.trades, old(tradeSeq)) + if o.kind == Market then [DoneEvent(s.order)] else []
    {
      hide BookOk, Finish, Facing, Numbered, Sweep, EmissionOk, Separate, DoneEvent, Ended;
      SweepOutcome(books[o.symbol].Model(), o);
      EmitSweep(books[o.symbol], o);
      OneBookChanged(o.symbol);
    }

    /** Matches an order to its end in one call, outside the scheduler: each send waits
        for room. */
    method Match(o: BookOrder)
      requires BooksOk() && EmissionOk() && Submittable(o)
      modifies `exec, `orderCh, `cancelCh, `stopRequested, `reservationRemaining, `panicked, `emitted, `tradeSeq, `dirty, `books, Repr()
      ensures BooksOk() && !panicked
      ensures if !Admissible(o) then emitted == old(emitted) && books == old(books)
        else
          && Facing(old(BookAt(o.symbol)), o)
          && var s := Sweep(old(BookAt(o.symbol)), o);
             && BookAt(o.symbol) == Finish(s.book, s.order) && Ended(s.book, s.order, BookAt(o.symbol))
             && emitted == old(emitted) + Numbered(s.trades, old(tradeSeq)) + if o.kind == Market then [DoneEvent(s.order)] else []
    {
      assert !panicked;
      hide BooksOk, Finish, Facing, Numbered, Sweep, EmissionOk, DoneEvent, BookAt, Ended;
      if !Admissible(o) {
        return;
      }
      var _ := GetOrderBook(o.symbol);
      SweepBook(o);
    }

    // -------------------------------------------------------------------- cancels

    static predicate Malformed(cmd: CancelCommand) {
      cmd.order == 0 || cmd.symbol == "" || cmd.price < 0.0
    }

    /** The side a cancel leaves, if the order it names rests where it says. */
    ghost function Left(cmd: CancelCommand): Option<seq<Level>>
      reads this`books, books.Values
    {
      if Malformed(cmd) then None else Remove(BookAt(cmd.symbol).On(cmd.side), cmd.price, cmd.order)
    }

    method HandleCancel(cmd: CancelCommand) returns (reply: CancelReply)
      requires BooksOk()
      modifies `books, Repr()
      ensures fresh(Repr() - old(Repr()))
      ensures BooksOk() && old(books.Keys) <= books.Keys && (reply == Removed ==> cmd.symbol in books)
      ensures reply == if Malformed(cmd) then InvalidCommand else if old(Left(cmd)).None? then OrderNotFound else Removed
      ensures reply == Verdict(old(BookAt(cmd.symbol)), cmd)
      ensures forall s: string :: BookAt(s) == if reply == Removed && s == cmd.symbol
                                               then old(BookAt(s)).With(cmd.side, old(Left(cmd)).value) else old(BookAt(s))
    {
      if Malformed(cmd) {
        return InvalidCommand;
      }
      VerdictOnRest(BookAt(cmd.symbol), cmd);
      var book := GetOrderBook(cmd.symbol);
      if Remove(book.Model().On(cmd.side), cmd.price, cmd.order).Some? {
        RemoveKeepsBook(book.Model(), cmd.side, cmd.price, cmd.order);
      }
      hide BookOk, Remove, BooksOk, Verdict;
      label got:
      var removed := book.RemoveOrder(cmd.side, cmd.price, cmd.order);
      OneBookChanged@got(cmd.symbol);
      reply := if removed then Removed else OrderNotFound;
    }

    method EmitOrderCancelled(cmd: CancelCommand)
      requires EmissionOk() && Free() >= 1
      modifies `exec, `orderCh, `cancelCh, `stopRequested, `reservationActive, `reservationRemaining, `panicked, `emitted, `tradeSeq
      ensures EmissionOk() && Elsewhere() && |exec| <= |old(exec)| + 1
      ensures emitted == old(emitted) + [OrderCancelled(old(tradeSeq) + 1, cmd.commandId, cmd.order, cmd.symbol, cmd.side)]
      ensures tradeSeq == old(tradeSeq) + 1
    {
      BeginReservation(1);
      tradeSeq := tradeSeq + 1;
      SendExecution(OrderCancelled(tradeSeq, cmd.commandId, cmd.order, cmd.symbol, cmd.side));
      EndReservation();
    }

    method RemoveAndEmit(cmd: CancelCommand) returns (reply: CancelReply)
      requires BooksOk() && EmissionOk() && Free() >= 1
      modifies `books, `exec, `orderCh, `cancelCh, `stopRequested, `reservationActive, `reservationRemaining, `panicked,
               `emitted, `tradeSeq, `dirty, Repr()
      ensures BooksOk() && EmissionOk() && Elsewhere() && |exec| <= |old(exec)| + 1 && fresh(Repr() - old(Repr()))
      ensures old(books.Keys) <= books.Keys && (reply == Removed ==> cmd.symbol in books)
      ensures reply == if Malformed(cmd) then InvalidCommand else if old(Left(cmd)).None? then OrderNotFound else Removed
      ensures reply == Verdict(old(BookAt(cmd.symbol)), cmd)
      ensures forall s: string :: BookAt(s) == if reply == Removed && s == cmd.symbol
                                               then old(BookAt(s)).With(cmd.side, old(Left(cmd)).value) else old(BookAt(s))
      ensures emitted == old(emitted) + if reply == Removed
                                        then [OrderCancelled(old(tradeSeq) + 1, cmd.commandId, cmd.order, cmd.symbol, cmd.side)] else []
      ensures tradeSeq == old(tradeSeq) + if reply == Removed then 1 else 0
      ensures dirty == if reply == Removed then old(dirty) + {cmd.symbol} else old(dirty)
    {
      hide BooksOk, EmissionOk, Remove, AllOfferable, BookAt, Left, Repr, Verdict;
      reply := HandleCancel(cmd);
      if reply == Removed {
        MarkDirty(cmd.symbol);
        EmitOrderCancelled(cmd);
      }
    }

    /** Takes an order off its book, and only then says so: first on the channel, inside a
        reservation of one event, then to the caller. */
    method ProcessCancel(cmd: CancelCommand) returns (reply: CancelReply)
      requires Core() && Free() >= 1
      modifies `books, `exec, `orderCh, `cancelCh, `stopRequested, `reservationActive, `reservationRemaining, `panicked,
               `emitted, `tradeSeq, `dirty, Repr()
      ensures Core() && Elsewhere() && |exec| <= |old(exec)| + 1 && fresh(Repr() - old(Repr()))
      ensures reply == if Malformed(cmd) then InvalidCommand else if old(Left(cmd)).None? then OrderNotFound else Removed
      ensures reply == Verdict(old(BookAt(cmd.symbol)), cmd)
      ensures forall s: string :: BookAt(s) == if reply == Removed && s == cmd.symbol
                                               then old(BookAt(s)).With(cmd.side, old(Left(cmd)).value) else old(BookAt(s))
      ensures emitted == old(emitted) + if reply == Removed
                                        then [OrderCancelled(old(tradeSeq) + 1, cmd.commandId, cmd.order, cmd.symbol, cmd.side)] else []
      ensures tradeSeq == old(tradeSeq) + if reply == Removed then 1 else 0
    {
      hide BooksOk, QuotaOk, CacheOk, EmissionOk, WorkOk, Submittable, BookAt, Left, Repr, Elsewhere, Verdict;
      SweepIsSubmittable();
      reply := RemoveAndEmit(cmd);
      CacheStays(cmd.symbol);
      WorkStays();
    }

    // -------------------------------------------------------------- intake and traces

    /** The intake stands while others only send. */
    twostate lemma IntakeStays(hand: Hand)
      requires old(IntakeOk(hand)) && Elsewhere()
      requires marks == old(marks) && orderNext == old(orderNext) && cancelNext == old(cancelNext)
      ensures IntakeOk(hand)
    {
      hide AllOfferable, Admitted, Replied;
      assert orderCh[..orderNext] == old(orderCh[..orderNext]);
      assert cancelCh[..cancelNext] == old(cancelCh[..cancelNext]);
    }

    /** What was in hand before a mark was made. */
    static function Before(m: Mark, hand: Hand): Hand {
      match m
      case Admission(o) => hand.(order := Some(o))
      case Answer(c, _) => hand.(cancel := Some(c))
      case Progress(_) => hand
    }

    /** A mark settles what was in hand. */
    twostate lemma IntakeMarked(hand: Hand)
      requires |marks| == |old(marks)| + 1 && old(marks) <= marks
      requires var m := marks[|old(marks)|];
        old(IntakeOk(Before(m, hand))) && (m.Admission? ==> hand.order.None?) && (m.Answer? ==> hand.cancel.None?)
      requires orderCh == old(orderCh) && cancelCh == old(cancelCh)
      requires orderNext == old(orderNext) && cancelNext == old(cancelNext)
      ensures IntakeOk(hand)
    {
      hide Admitted, Replied;
      var m := marks[|old(marks)|];
      assert marks == old(marks) + [m];
      IntakeNext(old(marks), m);
    }

    /** Receives the oldest cancel not received yet. */
    method ReceiveCancel() returns (cmd: CancelCommand)
      requires Core() && IntakeOk(Hand(pendingOrder, None)) && cancelNext < |cancelCh|
      modifies `cancelNext
      ensures Core() && IntakeOk(Hand(pendingOrder, Some(cmd))) && cmd == cancelCh[old(cancelNext)] && cancelNext == old(cancelNext) + 1
    {
      hide BooksOk, EmissionOk, QuotaOk, CacheOk, AllOfferable, Admitted, Replied;
      cmd := cancelCh[cancelNext];
      assert cancelCh[..cancelNext + 1] == cancelCh[..cancelNext] + [cmd];
      assert Replied(marks) + Latched(None) == Replied(marks);
      cancelNext := cancelNext + 1;
    }

    /** Receives the oldest order not received yet. */
    method ReceiveOrder() returns (order: BookOrder)
      requires Core() && IntakeOk(Hand(None, pendingCancel)) && orderNext < |orderCh|
      modifies `orderNext
      ensures Core() && IntakeOk(Hand(Some(order), pendingCancel)) && order == orderCh[old(orderNext)] && orderNext == old(orderNext) + 1
      ensures Offerable(order)
    {
      hide BooksOk, EmissionOk, QuotaOk, CacheOk, Offerable, Admitted, Replied;
      order := orderCh[orderNext];
      assert order in orderCh;
      assert orderCh[..orderNext + 1] == orderCh[..orderNext] + [order];
      assert Admitted(marks) + Latched(None) == Admitted(marks);
      orderNext := orderNext + 1;
    }

    /** With nothing in hand and both channels empty, every order ever submitted has been
        admitted and every cancel ever requested has been answered, in order. */
    lemma NothingLost()
      requires Valid() && pendingOrder.None? && pendingCancel.None? && Idle()
      ensures Admitted(marks) == orderCh && Replied(marks) == cancelCh
    {
      assert Admitted(marks) + [] == Admitted(marks) && Replied(marks) + [] == Replied(marks);
    }

    function QueuedCancels(): nat
      reads this`cancelCh, this`cancelNext
    {
      if cancelNext < |cancelCh| then |cancelCh| - cancelNext else 0
    }

    predicate Idle()
      reads this`orderCh, this`cancelCh, this`orderNext, this`cancelNext
    {
      orderNext == |orderCh| && cancelNext == |cancelCh|
    }

    twostate lemma TracedAfterRemoval(cmd: CancelCommand)
      requires old(Traced()) && sweep == old(sweep) && marks == old(marks)
      requires !Malformed(cmd) && old(Left(cmd)).Some? && Verdict(old(BookAt(cmd.symbol)), cmd) == Removed
      requires BookAt(cmd.symbol) == old(BookAt(cmd.symbol)).With(cmd.side, old(Left(cmd)).value)
      requires forall s: string :: s != cmd.symbol ==> BookAt(s) == old(BookAt(s))
      requires emitted == old(emitted) + [OrderCancelled(old(tradeSeq) + 1, cmd.commandId, cmd.order, cmd.symbol, cmd.side)]
      requires tradeSeq == old(tradeSeq) + 1
      ensures TracedBy(marks + [Answer(cmd, Removed)])
    {
      hide Traces, BookAt, Remove, Admitted, DistinctIds, Deeds, Verdict, Truthful, BookBy, Consecutive;
      ghost var event := OrderCancelled(old(tradeSeq) + 1, cmd.commandId, cmd.order, cmd.symbol, cmd.side);
      var ms, m := marks, Answer(cmd, Removed);
      ConsecutiveNext(old(emitted), old(tradeSeq), event);
      IntakeNext(ms, m);
      if DistinctIds(Admitted(ms)) {
        TracedBook(ms, cmd.symbol, maxMatches, old(BookAt(cmd.symbol)), sweep, old(emitted), Admitted(ms));
        TruthfulNext(ms, m, maxMatches);
        forall s: string ensures Traces(Deeds(ms + [m], s, maxMatches), s, BookAt(s), sweep, emitted, Admitted(ms)) {
          var was, deeds := old(BookAt(s)), Deeds(ms, s, maxMatches);
          DeedsNext(ms, m, s, maxMatches);
          assert Traces(deeds, s, was, sweep, old(emitted), Admitted(ms));
          if s == cmd.symbol {
            TracesCancel(deeds, s, was, sweep, old(emitted), cmd.side, cmd.price, cmd.order, event, Admitted(ms));
          } else {
            TracesElsewhere(deeds, s, was, sweep, sweep, old(emitted), [], 0, Some(event), Admitted(ms), Admitted(ms));
            assert old(emitted) + Numbered([], 0) + [event] == emitted && deeds + [] == deeds;
          }
        }
      }
    }

    /** A mark that means nothing to any book. */
    twostate lemma TracedAfterNothing(m: Mark)
      requires old(Traced()) && sweep == old(sweep) && marks == old(marks) && emitted == old(emitted) && tradeSeq == old(tradeSeq)
      requires forall s: string :: BookAt(s) == old(BookAt(s))
      requires m == Progress(None) || (m.Answer? && m.reply != Removed)
      requires m.Answer? && m.reply != Backpressured ==> m.reply == Verdict(old(BookAt(m.cmd.symbol)), m.cmd)
      ensures TracedBy(marks + [m])
    {
      hide Traces, BookAt, Admitted, DistinctIds, Deeds, Verdict, Truthful, BookBy, Consecutive;
      var ms := marks;
      IntakeNext(ms, m);
      if DistinctIds(Admitted(ms)) {
        if m.Answer? {
          TracedBook(ms, m.cmd.symbol, maxMatches, old(BookAt(m.cmd.symbol)), sweep, old(emitted), Admitted(ms));
        }
        TruthfulNext(ms, m, maxMatches);
        forall s: string ensures Traces(Deeds(ms + [m], s, maxMatches), s, BookAt(s), sweep, emitted, Admitted(ms)) {
          var deeds := Deeds(ms, s, maxMatches);
          DeedsNext(ms, m, s, maxMatches);
          assert deeds + [] == deeds;
          assert Traces(deeds, s, old(BookAt(s)), sweep, old(emitted), Admitted(ms));
        }
      }
    }

    twostate lemma TracedAfterSlice(o: BookOrder)
      requires old(Traced()) && old(sweep) == Some(o) && marks == old(marks)
      requires var s := Slice(old(BookAt(o.symbol)), o, maxMatches);
        && sweep == (if s.done then None else Some(s.order))
        && BookAt(o.symbol) == (if s.done then Finish(s.book, s.order) else s.book)
        && emitted == old(emitted) + Numbered(s.trades, old(tradeSeq))
                      + (if s.done && o.kind == Market then [DoneEvent(s.order)] else [])
        && tradeSeq == old(tradeSeq) + |s.trades|
      requires forall s: string :: s != o.symbol ==> BookAt(s) == old(BookAt(s))
      ensures TracedBy(marks + [Progress(Some(o.symbol))])
    {
      hide Traces, BookAt, Slice, Finish, Admitted, DistinctIds, Numbered, DoneEvent, Deeds, Truthful, Consecutive;
      var ms, m := marks, Progress(Some(o.symbol));
      var r := Slice(old(BookAt(o.symbol)), o, maxMatches);
      var report := if r.done && o.kind == Market then Some(DoneEvent(r.order)) else None;
      ReportIsNoTrade(r.order);
      SliceSymbols(old(BookAt(o.symbol)), o, maxMatches);
      ConsecutiveSlice(old(emitted), r.trades, old(tradeSeq), report);
      IntakeNext(ms, m);
      if DistinctIds(Admitted(ms)) {
        TruthfulNext(ms, m, maxMatches);
        forall s: string ensures Traces(Deeds(ms + [m], s, maxMatches), s, BookAt(s), sweep, emitted, Admitted(ms)) {
          var was, deeds := old(BookAt(s)), Deeds(ms, s, maxMatches);
          DeedsNext(ms, m, s, maxMatches);
          assert deeds + [] == deeds;
          assert Traces(deeds, s, was, Some(o), old(emitted), Admitted(ms));
          if s == o.symbol {
            TracesSlice(deeds, s, was, o, maxMatches, old(emitted), old(tradeSeq), report, Admitted(ms));
          } else {
            TracesElsewhere(deeds, s, was, Some(o), sweep, old(emitted), r.trades, old(tradeSeq), report, Admitted(ms), Admitted(ms));
          }
        }
      }
    }

    lemma ReportIsNoTrade(o: BookOrder)
      ensures DoneEvent(o).MarketDone? && DoneEvent(o).symbol == o.symbol
    {
    }

    twostate lemma TracedAfterAdmit(o: BookOrder)
      requires old(Traced()) && old(sweep).None? && emitted == old(emitted) && tradeSeq == old(tradeSeq) && Offerable(o)
      requires marks == old(marks) + [Admission(o)] && sweep == (if Admissible(o) then Some(o) else None)
      requires forall s: string :: BookAt(s) == old(BookAt(s))
      ensures Traced()
    {
      hide Traces, BookAt, Admitted, Offerable, Admissible, Deeds, Truthful, Consecutive;
      var before, after := Admitted(old(marks)), Admitted(marks);
      IntakeNext(old(marks), Admission(o));
      if DistinctIds(after) {
        assert DistinctIds(before) by {
          assert forall i :: 0 <= i < |before| ==> before[i] == after[i];
        }
        TruthfulNext(old(marks), Admission(o), maxMatches);
        forall s: string ensures Traces(Deeds(marks, s, maxMatches), s, BookAt(s), sweep, emitted, after) {
          var was, deeds := old(BookAt(s)), Deeds(old(marks), s, maxMatches);
          DeedsNext(old(marks), Admission(o), s, maxMatches);
          assert Traces(deeds, s, was, None, old(emitted), before);
          if s == o.symbol {
            forall i | 0 <= i < |before| ensures before[i].id != o.id {
              assert after[i].id != after[|before|].id;
            }
            TracesAdmit(deeds, s, was, o, old(emitted), before);
          } else {
            TracesElsewhere(deeds, s, was, None, sweep, old(emitted), [], 0, None, before, after);
            assert old(emitted) + Numbered([], 0) + [] == emitted && deeds + [] == deeds;
          }
        }
      }
    }

    // ------------------------------------------------------------------ scheduling

    /** Other goroutines run. */
    method Others()
      requires Valid()
      modifies `exec, `orderCh, `cancelCh, `stopRequested
      ensures Valid() && Elsewhere() && |exec| <= |old(exec)|
    {
      hide BooksOk, WorkOk, QuotaOk, CacheOk, AllOfferable, IntakeOk, Traced;
      SweepIsSubmittable();
      Interleave();
      WorkStays();
      IntakeStays(Hand(pendingOrder, pendingCancel));
    }

    /** The latched cancel first, then the channel, without waiting. */
    method TakeCancel() returns (cmd: Option<CancelCommand>)
      requires Valid()
      modifies `exec, `orderCh, `cancelCh, `stopRequested, `pendingCancel, `cancelNext
      ensures Core() && Traced() && IntakeOk(Hand(pendingOrder, cmd)) && pendingCancel.None? && |exec| <= |old(exec)|
      ensures old(pendingCancel).Some? ==> cmd == old(pendingCancel)
      ensures |old(cancelCh)| <= |cancelCh| && cancelNext == old(cancelNext) + if old(pendingCancel).None? && cmd.Some? then 1 else 0
      ensures cmd.None? ==> cancelNext >= |cancelCh|
    {
      hide BooksOk, WorkOk, QuotaOk, CacheOk, EmissionOk, IntakeOk, Traced;
      if pendingCancel.Some? {
        cmd := pendingCancel;
        pendingCancel := None;
        return;
      }
      Others();
      if cancelNext >= |cancelCh| {
        return None;
      }
      hide Core;
      var oldest := ReceiveCancel();
      return Some(oldest);
    }

    /** Writes down an answer or a progress. */
    method Note(ghost m: Mark, count: nat)
      requires Core() && TracedBy(marks + [m]) && IntakeOk(Before(m, Hand(pendingOrder, pendingCancel)))
      requires !m.Admission? && (m.Answer? ==> pendingCancel.None?)
      requires (m.Answer? && m.reply != Backpressured ==> cancelsSinceProgress < maxCancels) && count == Next(cancelsSinceProgress, m)
      modifies `marks, `cancelsSinceProgress
      ensures Valid() && marks == old(marks) + [m] && cancelsSinceProgress == count
      ensures ProgressCount(marks) == ProgressCount(old(marks)) + if m.Progress? then 1 else 0
      ensures Admitted(marks) == Admitted(old(marks))
    {
      hide BooksOk, WorkOk, CacheOk, EmissionOk, Counted, ProgressCount, BookAt, Admitted, Replied, IntakeOk, TracedBy;
      CountNext(marks, cancelsSinceProgress, m, maxCancels);
      IntakeNext(marks, m);
      marks := marks + [m];
      cancelsSinceProgress := count;
      IntakeMarked(Hand(pendingOrder, pendingCancel));
    }

    /** Processes a cancel taken in hand, as one more step of its book's run. */
    method ProcessTraced(cmd: CancelCommand) returns (reply: CancelReply)
      requires Core() && Traced() && IntakeOk(Hand(pendingOrder, Some(cmd))) && Free() >= 1
      modifies `books, `exec, `orderCh, `cancelCh, `stopRequested, `reservationActive, `reservationRemaining, `panicked,
               `emitted, `tradeSeq, `dirty, Repr()
      ensures Core() && TracedBy(marks + [Answer(cmd, reply)]) && IntakeOk(Hand(pendingOrder, Some(cmd))) && fresh(Repr() - old(Repr()))
      ensures |old(cancelCh)| <= |cancelCh|
      ensures |exec| <= |old(exec)| + 1 && reply == Verdict(old(BookAt(cmd.symbol)), cmd) != Backpressured
    {
      hide Core, BookAt, Left, IntakeOk, TracedBy, AllOfferable, Repr, Verdict;
      reply := ProcessCancel(cmd);
      hide Elsewhere;
      IntakeStays(Hand(pendingOrder, Some(cmd)));
      if reply == Removed {
        TracedAfterRemoval(cmd);
      } else {
        TracedAfterNothing(Answer(cmd, reply));
      }
    }

    /** Answers a cancel taken in hand. Processing it takes one place on the channel at
        most, refusing it none. */
    method AnswerCancel(cmd: CancelCommand, reject: bool)
      requires Core() && Traced() && IntakeOk(Hand(pendingOrder, Some(cmd))) && pendingCancel.None?
      requires !reject ==> Free() >= 1 && cancelsSinceProgress < maxCancels
      modifies `books, `exec, `orderCh, `cancelCh, `stopRequested, `reservationActive, `reservationRemaining, `panicked,
               `emitted, `tradeSeq, `dirty, `cancelsSinceProgress, `marks, Repr()
      ensures Valid() && fresh(Repr() - old(Repr()))
      ensures |marks| == |old(marks)| + 1 && old(marks) <= marks
      ensures |old(cancelCh)| <= |cancelCh|
      ensures marks[|old(marks)|] == Answer(cmd, if reject then Backpressured else Verdict(old(BookAt(cmd.symbol)), cmd))
      ensures ProgressCount(marks) == ProgressCount(old(marks)) && Admitted(marks) == Admitted(old(marks))
      ensures cancelsSinceProgress == old(cancelsSinceProgress) + if reject then 0 else 1
      ensures |exec| <= |old(exec)| + if reject then 0 else 1
    {
      hide Core, ProgressCount, Admitted, IntakeOk, TracedBy, BookAt, Verdict;
      if reject {
        TracedAfterNothing(Answer(cmd, Backpressured));
        Note(Answer(cmd, Backpressured), cancelsSinceProgress);
      } else {
        var reply := ProcessTraced(cmd);
        Note(Answer(cmd, reply), cancelsSinceProgress + 1);
      }
    }

    lemma Bounds()
      requires Core()
      ensures |exec| <= capacity && cancelsSinceProgress <= maxCancels
    {
    }

    method TakeAndAnswer(reject: bool) returns (again: bool)
      requires Valid() && (!reject ==> Free() >= 1 && cancelsSinceProgress < maxCancels)
      modifies this, Repr()
      ensures Valid() && fresh(Repr() - old(Repr())) && Admitted(marks) == Admitted(old(marks))
      ensures sweep == old(sweep) && pendingOrder == old(pendingOrder) && tickerDue == old(tickerDue) && shuttingDown == old(shuttingDown)
      ensures orderNext == old(orderNext)
      ensures again ==>
        && |marks| == |old(marks)| + 1 && old(marks) <= marks && marks[|old(marks)|].Answer?
        && ProgressCount(marks) == ProgressCount(old(marks))
        && (old(pendingCancel).Some? ==> marks[|old(marks)|].cmd == old(pendingCancel).value)
      ensures !again ==> marks == old(marks) && old(pendingCancel).None? && cancelNext >= |cancelCh|
      ensures |old(cancelCh)| <= |cancelCh| && cancelNext == old(cancelNext) + if again && old(pendingCancel).None? then 1 else 0
      ensures pendingCancel.None? && cancelsSinceProgress == old(cancelsSinceProgress) + if again && !reject then 1 else 0
      ensures |exec| <= |old(exec)| + if again && !reject then 1 else 0
    {
      hide Core, ProgressCount, IntakeOk, Traced, Admitted, BookAt, Verdict;
      var cmd := TakeCancel();
      again := cmd.Some?;
      if again {
        AnswerCancel(cmd.value, reject);
      }
    }

    /** Whether the next cancel is processed, refused or left alone is decided by the
        engine's state before the command is taken. */
    method CancelStep(rejectBudget: nat) returns (left: nat, again: bool)
      requires Valid() && (pendingCancel.Some? ==> rejectBudget >= 1)
      modifies this, Repr()
      ensures Valid() && fresh(Repr() - old(Repr())) && Admitted(marks) == Admitted(old(marks))
      ensures sweep == old(sweep) && pendingOrder == old(pendingOrder) && tickerDue == old(tickerDue) && shuttingDown == old(shuttingDown)
      ensures orderNext == old(orderNext)
      ensures again ==>
        && |marks| == |old(marks)| + 1 && old(marks) <= marks && marks[|old(marks)|].Answer?
        && ProgressCount(marks) == ProgressCount(old(marks)) && pendingCancel.None?
        && (old(pendingCancel).Some? ==> marks[|old(marks)|].cmd == old(pendingCancel).value)
        && maxCancels - cancelsSinceProgress + left < maxCancels - old(cancelsSinceProgress) + rejectBudget
      ensures !again ==>
        && left == rejectBudget && marks == old(marks) && pendingCancel == old(pendingCancel)
        && (pendingCancel.Some? ==> cancelsSinceProgress == maxCancels && !SliceBlockedNow())
        && (cancelNext >= |cancelCh| || cancelsSinceProgress == maxCancels || rejectBudget == 0)
      ensures |old(cancelCh)| <= |cancelCh| && cancelNext == old(cancelNext) + if again && old(pendingCancel).None? then 1 else 0
      ensures again ==> left >= rejectBudget - 1
      ensures old(cancelsSinceProgress) <= cancelsSinceProgress <= old(cancelsSinceProgress) + |marks| - |old(marks)|
      ensures |exec| <= |old(exec)| + cancelsSinceProgress - old(cancelsSinceProgress)
    {
      hide Core, ProgressCount, AllOfferable, IntakeOk, Traced, Admitted;
      left, again := rejectBudget, false;
      Others();
      Bounds();
      var blocked := SliceBlockedNow();
      var quotaLeft := cancelsSinceProgress < maxCancels;
      var free := Free();
      var reject: bool;
      if quotaLeft && free >= 1 {
        reject := false;
      } else if free == 0 || (blocked && !quotaLeft) {
        reject := true;
      } else {
        return;
      }
      if reject && rejectBudget == 0 {
        return;
      }
      again := TakeAndAnswer(reject);
      left := if again && reject then rejectBudget - 1 else rejectBudget;
    }

    /** Processes cancels up to the quota, and refuses those it can neither process now nor
        leave to be processed after this turn's progress. A latched cancel is answered
        first, or left in place only when this turn is sure to make progress. No cancel
        that was on the channel is left there unless the quota is used up. The channel of
        events fills by no more than the cancels processed. */
    method CancelPhase()
      requires Valid()
      modifies this, Repr()
      ensures Valid() && fresh(Repr() - old(Repr()))
      ensures sweep == old(sweep) && pendingOrder == old(pendingOrder) && tickerDue == old(tickerDue) && shuttingDown == old(shuttingDown)
      ensures orderNext == old(orderNext)
      ensures OnlyAnswers(old(marks), marks) && ProgressCount(marks) == ProgressCount(old(marks)) && Admitted(marks) == Admitted(old(marks))
      ensures pendingCancel.Some? ==> pendingCancel == old(pendingCancel) && marks == old(marks)
                                      && cancelsSinceProgress == maxCancels && !SliceBlockedNow()
      ensures old(pendingCancel).Some? && pendingCancel.None? ==> Answered(old(marks), marks, old(pendingCancel).value)
      ensures old(cancelsSinceProgress) <= cancelsSinceProgress <= old(cancelsSinceProgress) + |marks| - |old(marks)|
      ensures Free() >= old(Free()) - (cancelsSinceProgress - old(cancelsSinceProgress))
      ensures cancelNext >= |old(cancelCh)| || cancelsSinceProgress == maxCancels
    {
      hide BooksOk, WorkOk, CacheOk, EmissionOk, Streak, WithinQuota, ProgressCount, SliceBlockedNow, IntakeOk, Traced, Admitted;
      var rejectBudget: nat := QueuedCancels() + if pendingCancel.Some? then 1 else 0;
      var again := true;
      while again
        invariant Valid() && fresh(Repr() - old(Repr()))
        invariant sweep == old(sweep) && pendingOrder == old(pendingOrder) && tickerDue == old(tickerDue) && shuttingDown == old(shuttingDown)
        invariant orderNext == old(orderNext)
        invariant OnlyAnswers(old(marks), marks) && ProgressCount(marks) == ProgressCount(old(marks)) && Admitted(marks) == Admitted(old(marks))
        invariant pendingCancel.Some? ==> pendingCancel == old(pendingCancel) && marks == old(marks) && rejectBudget >= 1
        invariant pendingCancel.Some? && !again ==> cancelsSinceProgress == maxCancels && !SliceBlockedNow()
        invariant old(pendingCancel).Some? && pendingCancel.None? ==> Answered(old(marks), marks, old(pendingCancel).value)
        invariant old(cancelsSinceProgress) <= cancelsSinceProgress <= old(cancelsSinceProgress) + |marks| - |old(marks)|
        invariant |exec| <= |old(exec)| + cancelsSinceProgress - old(cancelsSinceProgress)
        invariant |old(cancelCh)| <= |cancelCh| && |old(cancelCh)| - cancelNext + (if pendingCancel.Some? then 1 else 0) <= rejectBudget
        invariant !again ==> cancelNext >= |old(cancelCh)| || cancelsSinceProgress == maxCancels
        decreases again, maxCancels - cancelsSinceProgress + rejectBudget
      {
        rejectBudget, again := CancelStep(rejectBudget);
      }
    }

    method LatchStop()
      requires Valid() && stopRequested
      modifies `shuttingDown
      ensures Valid() && shuttingDown
    {
      hide BooksOk, EmissionOk, CacheOk, QuotaOk, AllOfferable, IntakeOk, Traced;
      shuttingDown := true;
    }

    method StartSweep(order: BookOrder)
      requires Core() && sweep.None? && Offerable(order) && Admissible(order)
      modifies `books, `sweep
      ensures Core() && fresh(Repr() - old(Repr())) && sweep == Some(order)
      ensures forall s: string :: BookAt(s) == old(BookAt(s))
    {
      hide BooksOk, EmissionOk, WorkOk, CacheOk, QuotaOk, AllOfferable, BookAt;
      var _ := GetOrderBook(order.symbol);
      sweep := Some(order);
      CacheStays(order.symbol);
      WorkStays();
    }

    lemma AdmissibleMeans(o: BookOrder)
      ensures Admissible(o) <==> o.amount > 0.0 || (o.kind == Market && o.side == Buy)
    {
    }

    /** Gives an order its sweep. None is active, so no order overtakes another; an order
        with nothing to do is dropped. */
    method Admit(order: BookOrder)
      requires Core() && Traced() && IntakeOk(Hand(Some(order), pendingCancel)) && pendingOrder.None?
      requires sweep.None? && Offerable(order)
      modifies `books, `sweep, `marks
      ensures Valid() && fresh(Repr() - old(Repr()))
      ensures marks == old(marks) + [Admission(order)] && ProgressCount(marks) == ProgressCount(old(marks))
      ensures Admitted(marks) == Admitted(old(marks)) + [order]
      ensures sweep == if order.amount > 0.0 || (order.kind == Market && order.side == Buy) then Some(order) else None
      ensures forall s: string :: BookAt(s) == old(BookAt(s))
    {
      hide BooksOk, EmissionOk, WorkOk, CacheOk, Counted, ProgressCount, BookAt, IntakeOk, Traced, Admitted, Offerable, Admissible;
      AdmissibleMeans(order);
      if Admissible(order) {
        StartSweep(order);
      }
      CountNext(marks, cancelsSinceProgress, Admission(order), maxCancels);
      IntakeNext(marks, Admission(order));
      marks := marks + [Admission(order)];
      IntakeMarked(Hand(None, pendingCancel));
      TracedAfterAdmit(order);
    }

    /** A latched order goes first and is not held back by a full channel; the others come
        in the order they were sent. */
    method NextOrder() returns (order: Option<BookOrder>)
      requires Valid()
      modifies `pendingOrder, `orderCh, `cancelCh, `exec, `stopRequested, `orderNext
      ensures Core() && Traced() && IntakeOk(Hand(order, pendingCancel)) && pendingOrder.None?
      ensures order.Some? ==> Offerable(order.value)
      ensures old(pendingOrder).Some? ==> order == old(pendingOrder)
      ensures old(pendingOrder).None? && order.Some? ==>
        old(orderNext) < |orderCh| && order.value == orderCh[old(orderNext)] && orderNext == old(orderNext) + 1
      ensures old(pendingOrder).None? ==>
        (order.Some? <==> old(orderNext) < |orderCh| && (shuttingDown || |exec| < capacity * 3 / 4))
    {
      hide BooksOk, EmissionOk, CacheOk, QuotaOk, AllOfferable, Offerable, IntakeOk, Traced;
      order := None;
      if pendingOrder.Some? {
        order := pendingOrder;
        pendingOrder := None;
        return;
      }
      Others();
      if !shuttingDown && EmitBackpressured() {
        return;
      }
      if orderNext < |orderCh| {
        var oldest := ReceiveOrder();
        order := Some(oldest);
      }
    }

    /** Progress, whether or not there is an order to admit. A latched order is admitted
        before any other; without one it is the oldest on the channel or none. */
    method AdmitPhase()
      requires Valid() && sweep.None?
      modifies `books, `sweep, `marks, `pendingOrder, `orderCh, `cancelCh, `exec, `stopRequested, `cancelsSinceProgress, `orderNext
      ensures Valid() && fresh(Repr() - old(Repr())) && cancelsSinceProgress == 0 && pendingOrder.None?
      ensures old(marks) <= marks && ProgressCount(marks) == ProgressCount(old(marks)) + 1
      ensures old(pendingOrder).Some? ==> Admitted(marks) == Admitted(old(marks)) + [old(pendingOrder).value]
      ensures old(pendingOrder).None? ==>
        || Admitted(marks) == Admitted(old(marks))
        || (old(orderNext) < |orderCh| && Admitted(marks) == Admitted(old(marks)) + [orderCh[old(orderNext)]])
      ensures old(pendingOrder).None? && old(orderNext) < |orderCh| ==>
        Admitted(marks) == Admitted(old(marks)) + if shuttingDown || |exec| < capacity * 3 / 4 then [orderCh[old(orderNext)]] else []
    {
      hide Core, ProgressCount, BookAt, Offerable, IntakeOk, TracedBy, Admitted, Verdict;
      var order := NextOrder();
      if order.Some? {
        Admit(order.value);
      }
      label admitted:
      TracedAfterNothing@admitted(Progress(None));
      Note(Progress(None), 0);
    }

    /** Waits for room without taking orders, which would overtake the parked sweep. A
        capacity signal promises nothing, so it is like no signal at all. */
    method ParkSelect()
      requires Valid() && pendingCancel.None?
      modifies `orderCh, `cancelCh, `exec, `stopRequested, `pendingCancel, `tickerDue, `shuttingDown, `cancelNext
      ensures Valid() && (old(shuttingDown) ==> shuttingDown) && cancelNext >= old(cancelNext)
    {
      hide Core, IntakeOk, Traced;
      Others();
      if * {
        if cancelNext < |cancelCh| {
          LatchCancel();
        }
      } else if * {
        FireTicker();
      } else if stopRequested {
        LatchStop();
      }
    }

    method LatchCancel()
      requires Valid() && pendingCancel.None? && cancelNext < |cancelCh|
      modifies `pendingCancel, `cancelNext
      ensures Valid() && pendingCancel.Some? && cancelNext == old(cancelNext) + 1
    {
      hide BooksOk, EmissionOk, CacheOk, QuotaOk, WorkOk, IntakeOk, Traced;
      var cmd := ReceiveCancel();
      pendingCancel := Some(cmd);
    }

    method LatchOrder()
      requires Valid() && pendingOrder.None? && orderNext < |orderCh|
      modifies `pendingOrder, `orderNext
      ensures Valid() && pendingOrder.Some?
    {
      hide BooksOk, EmissionOk, CacheOk, QuotaOk, AllOfferable, Offerable, IntakeOk, Traced;
      var order := ReceiveOrder();
      pendingOrder := Some(order);
    }

    method FireTicker()
      requires Valid()
      modifies `tickerDue
      ensures Valid() && tickerDue
    {
      hide BooksOk, EmissionOk, CacheOk, QuotaOk, WorkOk, IntakeOk, Traced;
      tickerDue := true;
    }

    /** One leftover cancel or order while draining. */
    method LatchOneNonBlocking() returns (latched: bool)
      requires Valid() && shuttingDown && pendingCancel.None? && pendingOrder.None?
      modifies `orderCh, `cancelCh, `exec, `stopRequested, `pendingCancel, `pendingOrder, `orderNext, `cancelNext
      ensures Valid() && cancelNext >= old(cancelNext)
      ensures !latched ==> pendingCancel.None? && pendingOrder.None? && Idle()
    {
      hide BooksOk, EmissionOk, CacheOk, QuotaOk, AllOfferable, IntakeOk, Traced;
      Others();
      if cancelNext < |cancelCh| {
        LatchCancel();
        return true;
      }
      Others();
      if orderNext < |orderCh| {
        LatchOrder();
        return true;
      }
      return false;
    }

    /** Waits for work and latches it without doing it; orders are not taken while the
        channel is nearly full. */
    method LatchWork()
      requires Valid() && pendingCancel.None? && pendingOrder.None?
      modifies `orderCh, `cancelCh, `exec, `stopRequested, `pendingCancel, `pendingOrder, `tickerDue, `shuttingDown, `orderNext, `cancelNext
      ensures Valid() && cancelNext >= old(cancelNext)
    {
      hide Core, IntakeOk, Traced;
      var held := EmitBackpressured();
      Others();
      if * {
        if cancelNext < |cancelCh| {
          LatchCancel();
        }
      } else if * {
        if !held && orderNext < |orderCh| {
          LatchOrder();
        }
      } else if * {
        FireTicker();
      } else if stopRequested {
        LatchStop();
      }
    }

    /** A slice as one more step of its book's run. */
    method SliceTraced()
      requires Valid() && sweep.Some? && HasSliceCapacity()
      modifies `exec, `orderCh, `cancelCh, `stopRequested, `reservationActive, `reservationRemaining, `panicked,
               `emitted, `tradeSeq, `dirty, `sweep, Repr()
      ensures Core() && IntakeOk(Hand(pendingOrder, pendingCancel)) && Elsewhere() && Free() >= maxCancels
      ensures TracedBy(marks + [Progress(Some(old(sweep).value.symbol))])
    {
      hide BooksOk, EmissionOk, CacheOk, QuotaOk, WorkOk, BookAt, Slice, Finish, Numbered, HasSliceCapacity, IntakeOk, TracedBy, AllOfferable, Ended;
      SweepIsSubmittable();
      ghost var o := sweep.value;
      RunSlice();
      IntakeStays(Hand(pendingOrder, pendingCancel));
      hide Elsewhere;
      TracedAfterSlice(o);
    }

    /** A slice is progress. */
    method SlicePhase()
      requires Valid() && sweep.Some? && HasSliceCapacity()
      modifies `exec, `orderCh, `cancelCh, `stopRequested, `reservationActive, `reservationRemaining, `panicked,
               `emitted, `tradeSeq, `dirty, `sweep, `marks, `cancelsSinceProgress, Repr()
      ensures Valid() && Elsewhere() && cancelsSinceProgress == 0 && Free() >= maxCancels
      ensures marks == old(marks) + [Progress(Some(old(sweep).value.symbol))] && ProgressCount(marks) == ProgressCount(old(marks)) + 1
      ensures Admitted(marks) == Admitted(old(marks))
    {
      hide Core, ProgressCount, HasSliceCapacity, IntakeOk, TracedBy, Admitted, AllOfferable;
      ghost var symbol := sweep.value.symbol;
      SliceTraced();
      Note(Progress(Some(symbol)), 0);
    }

    /** The ticker has fired, now or while something else was waited for. */
    method TickerPhase()
      requires Valid()
      modifies `cache, `dirty, `snapshotCh, `tickerDue
      ensures Valid() && !tickerDue && (old(tickerDue) ==> dirty == {})
    {
      hide BooksOk, EmissionOk, CacheOk, WorkOk, QuotaOk, IntakeOk, Traced;
      if tickerDue {
        tickerDue := false;
        var _ := FlushSnapshots();
      } else if * {
        var _ := FlushSnapshots();
      }
    }

    /** Runs the slice that is due if there is room, and looks whether to stop. `free` is
        the room found. */
    method SliceAndStop() returns (ghost free: int)
      requires Valid()
      modifies `exec, `orderCh, `cancelCh, `stopRequested, `reservationActive, `reservationRemaining, `panicked,
               `emitted, `tradeSeq, `dirty, `sweep, `marks, `cancelsSinceProgress, `shuttingDown, Repr()
      ensures Valid() && (old(sweep).None? ==> sweep.None?) && free >= old(Free()) && Admitted(marks) == Admitted(old(marks))
      ensures old(orderCh) <= orderCh
      ensures if old(sweep).Some? && RoomForSlice(free, maxMatches, maxCancels) then
          marks == old(marks) + [Progress(Some(old(sweep).value.symbol))] && cancelsSinceProgress == 0 && ProgressCount(marks) == ProgressCount(old(marks)) + 1
        else marks == old(marks) && cancelsSinceProgress == old(cancelsSinceProgress) && sweep == old(sweep) && emitted == old(emitted)
    {
      hide Valid, ProgressCount, AllOfferable, Admitted;
      Others();
      free := Free();
      if sweep.Some? && HasSliceCapacity() {
        SlicePhase();
      }
      Others();
      if !shuttingDown && stopRequested {
        LatchStop();
      }
    }

    lemma CountIsKept()
      requires Valid()
      ensures Counted(marks, cancelsSinceProgress, maxCancels) && cancelsSinceProgress <= maxCancels
    {
    }

    lemma SameMarksSameCount(count: nat)
      requires Valid() && Counted(marks, count, maxCancels)
      ensures count == cancelsSinceProgress
    {
    }

    static lemma AnswersThenProgress(before: seq<Mark>, mid: seq<Mark>, after: seq<Mark>)
      requires OnlyAnswers(before, mid) && (after == mid || exists ran :: after == mid + [Progress(ran)])
      ensures NoAdmission(before, after)
    {
    }

    static lemma StaysAnswered(before: seq<Mark>, mid: seq<Mark>, after: seq<Mark>)
      requires OnlyAnswers(before, mid) && mid <= after
      ensures before <= after
      ensures forall cmd: CancelCommand :: Answered(before, mid, cmd) ==> Answered(before, after, cmd)
    {
    }

    /** The part of a turn that makes progress: a slice of the sweep that was active when
        the turn began, or else admission. */
    method ProgressPhase(hadActive: bool) returns (ghost free: int)
      requires Valid() && hadActive == sweep.Some?
      modifies `exec, `orderCh, `cancelCh, `stopRequested, `reservationActive, `reservationRemaining, `panicked, `pendingOrder,
               `emitted, `tradeSeq, `dirty, `sweep, `marks, `cancelsSinceProgress, `shuttingDown, `books, `orderNext, Repr()
      ensures Valid() && fresh(Repr() - old(Repr())) && old(marks) <= marks && free >= old(Free())
      ensures if hadActive && !RoomForSlice(free, maxMatches, maxCancels) then marks == old(marks) && sweep == old(sweep)
        else ProgressCount(marks) == ProgressCount(old(marks)) + 1 && cancelsSinceProgress == 0
      ensures hadActive ==> pendingOrder == old(pendingOrder)
                            && (marks == old(marks) || marks == old(marks) + [Progress(Some(old(sweep).value.symbol))])
      ensures hadActive && RoomForSlice(free, maxMatches, maxCancels) ==> EndsWithSlice(marks)
      ensures !hadActive ==> pendingOrder.None?
      ensures !hadActive && old(pendingOrder).Some? ==> Admitted(marks) == Admitted(old(marks)) + [old(pendingOrder).value]
      ensures !hadActive && old(pendingOrder).None? && old(orderNext) < |orderCh| ==>
        Admitted(marks) == Admitted(old(marks)) + if shuttingDown || |exec| < capacity * 3 / 4 then [orderCh[old(orderNext)]] else []
    {
      hide Valid, ProgressCount, RoomForSlice, Admitted;
      free := SliceAndStop();
      if !hadActive {
        AdmitPhase();
      }
    }

    lemma MoreRoom(less: int, more: int)
      requires less <= more
      ensures RoomForSlice(less, maxMatches, maxCancels) ==> RoomForSlice(more, maxMatches, maxCancels)
    {
    }

    /** What comes before the progress of a turn: cancels, and the ticker. A latched cancel is
        answered, or left only when the quota was used up and there is room for a slice. */
    method AnswerPhase()
      requires Valid()
      modifies this, Repr()
      ensures Valid() && fresh(Repr() - old(Repr())) && !tickerDue
      ensures sweep == old(sweep) && pendingOrder == old(pendingOrder) && orderNext == old(orderNext)
      ensures OnlyAnswers(old(marks), marks) && ProgressCount(marks) == ProgressCount(old(marks)) && Admitted(marks) == Admitted(old(marks))
      ensures old(pendingCancel).None? ==> pendingCancel.None?
      ensures old(pendingCancel).Some? && pendingCancel.None? ==> Answered(old(marks), marks, old(pendingCancel).value)
      ensures pendingCancel.Some? ==>
        && pendingCancel == old(pendingCancel) && old(cancelsSinceProgress) == maxCancels
        && (sweep.Some? ==> RoomForSlice(Free(), maxMatches, maxCancels))
      ensures Free() >= old(Free()) - (maxCancels - old(cancelsSinceProgress)) && Free() >= old(Free()) - (|marks| - |old(marks)|)
      ensures cancelNext >= |old(cancelCh)| || |marks| - |old(marks)| >= maxCancels - old(cancelsSinceProgress)
    {
      hide Valid, Counted, ProgressCount, OnlyAnswers, Answered, Admitted, RoomForSlice;
      CountIsKept();
      CancelPhase();
      CountIsKept();
      if pendingCancel.Some? {
        SameMarksSameCount(old(cancelsSinceProgress));
      }
      TickerPhase();
    }

    /** The working part of a turn. `free` is the room found on the channel when a slice was
        due: what was free when the turn began, less at most one place for each cancel
        processed before. */
    method TurnWork() returns (ghost free: int)
      requires Valid()
      modifies this, Repr()
      ensures Valid() && fresh(Repr() - old(Repr())) && old(marks) <= marks && !tickerDue
      ensures free >= old(Free()) - (maxCancels - old(cancelsSinceProgress)) && free >= old(Free()) - (|marks| - |old(marks)|)
      ensures cancelNext >= |old(cancelCh)| || |marks| - |old(marks)| >= maxCancels - old(cancelsSinceProgress)
      ensures var starved := old(sweep).Some? && !RoomForSlice(free, maxMatches, maxCancels);
        && ProgressCount(marks) == ProgressCount(old(marks)) + (if starved then 0 else 1)
        && (starved ==> sweep == old(sweep)) && (old(sweep).Some? && !starved ==> EndsWithSlice(marks))
      ensures old(sweep).None? && old(pendingOrder).None? && old(orderNext) < |orderCh| ==>
        Admitted(marks) == Admitted(old(marks)) + if shuttingDown || |exec| < capacity * 3 / 4 then [orderCh[old(orderNext)]] else []
      ensures old(sweep).Some? ==> NoAdmission(old(marks), marks) && pendingOrder == old(pendingOrder)
      ensures old(sweep).None? ==> pendingOrder.None?
      ensures old(sweep).None? && old(pendingOrder).Some? ==> Admitted(marks) == Admitted(old(marks)) + [old(pendingOrder).value]
      ensures old(pendingCancel).None? ==> pendingCancel.None?
      ensures old(pendingCancel).Some? ==>
        || (pendingCancel.None? && Answered(old(marks), marks, old(pendingCancel).value))
        || (pendingCancel == old(pendingCancel) && old(cancelsSinceProgress) == maxCancels && cancelsSinceProgress == 0)
    {
      hide Valid, ProgressCount, OnlyAnswers, NoAdmission, Answered, Admitted, EndsWithSlice, RoomForSlice;
      var hadActive := sweep.Some?;
      AnswerPhase();
      ghost var mid, room := marks, Free();
      free := ProgressPhase(hadActive);
      MoreRoom(room, free);
      if hadActive {
        AnswersThenProgress(old(marks), mid, marks);
      }
      StaysAnswered(old(marks), mid, marks);
    }

    /** What comes after the work: wait for room, go on with what is in hand, finish, or
        wait for more. Output is closed only when nothing is left anywhere. */
    method TurnEnd() returns (closed: bool)
      requires Valid() && !tickerDue
      modifies `orderCh, `cancelCh, `exec, `stopRequested, `pendingCancel, `pendingOrder, `tickerDue, `shuttingDown, `cache, `dirty, `snapshotCh,
               `orderNext, `cancelNext
      ensures Valid() && (old(pendingCancel).Some? ==> pendingCancel == old(pendingCancel)) && cancelNext >= old(cancelNext)
      ensures sweep.Some? ==> pendingOrder == old(pendingOrder)
      ensures closed ==> AllDone()
    {
      hide Valid;
      if SliceBlockedNow() && pendingCancel.None? {
        ParkSelect();
        return false;
      }
      if sweep.Some? || pendingCancel.Some? || pendingOrder.Some? || tickerDue {
        return false;
      }
      if shuttingDown {
        var latched := LatchOneNonBlocking();
        if latched {
          return false;
        }
        LastFlush();
        return true;
      }
      LatchWork();
      return false;
    }

    method LastFlush()
      requires Valid()
      modifies `cache, `dirty, `snapshotCh
      ensures Valid() && dirty == {}
    {
      hide BooksOk, EmissionOk, CacheOk, WorkOk, QuotaOk, IntakeOk, Traced;
      var _ := FlushSnapshots();
    }

    /** Nothing is left to do: no sweep, nothing latched, both channels received to the end
        and every snapshot published. */
    ghost predicate AllDone()
      reads this
    {
      && sweep.None? && pendingCancel.None? && pendingOrder.None? && Idle() && dirty == {}
    }

    /** The working part as a turn of the log. */
    method FairWork() returns (ghost turn: Turn)
      requires Valid()
      modifies this, Repr()
      ensures Valid() && fresh(Repr() - old(Repr())) && !tickerDue
      ensures turn == Turn(old(marks), marks, old(sweep).Some?, old(Free()), old(cancelsSinceProgress), turn.free, old(pendingCancel))
      ensures FairTurn(turn, maxMatches, maxCancels) && Waits(turn, pendingCancel, cancelsSinceProgress)
      ensures cancelNext >= |old(cancelCh)| || |marks| - |old(marks)| >= maxCancels - old(cancelsSinceProgress)
      ensures old(sweep).Some? && RoomForSlice(old(Free()) - (maxCancels - old(cancelsSinceProgress)), maxMatches, maxCancels) ==>
        ProgressCount(marks) == ProgressCount(old(marks)) + 1
      ensures old(sweep).None? && old(pendingOrder).Some? ==> Admitted(marks) == Admitted(old(marks)) + [old(pendingOrder).value]
      ensures old(sweep).None? && old(pendingOrder).None? && old(orderNext) < |orderCh| ==>
        Admitted(marks) == Admitted(old(marks)) + if shuttingDown || |exec| < capacity * 3 / 4 then [orderCh[old(orderNext)]] else []
    {
      QuotaIsPositive();
      hide Valid, ProgressCount, NoAdmission, Answered, Admitted;
      ghost var free := TurnWork();
      turn := Turn(old(marks), marks, old(sweep).Some?, old(Free()), old(cancelsSinceProgress), free, old(pendingCancel));
    }

    /** One turn. `free` is the room found on the channel when a slice was due.
        - the turn makes exactly one progress, unless the sweep active at its start found
          no room for a slice; it finds room whenever enough was free at the start, a place
          for each cancel still in the quota set aside;
        - no order is admitted in a turn that starts with a sweep, and a latched order is
          admitted in a turn that starts without;
        - a latched cancel is answered in this turn, or stays latched with the quota
          reset, and a turn that starts with the quota reset answers it;
        - all cancels on the channel at its start are received, or the quota is used up;
        - output is closed only when nothing is left to do. */
    method RunTurn() returns (closed: bool, ghost turn: Turn)
      requires Valid()
      modifies this, Repr()
      ensures Valid() && fresh(Repr() - old(Repr()))
      ensures turn == Turn(old(marks), marks, old(sweep).Some?, old(Free()), old(cancelsSinceProgress), turn.free, old(pendingCancel))
      ensures FairTurn(turn, maxMatches, maxCancels)
      ensures old(sweep).Some? && RoomForSlice(old(Free()) - (maxCancels - old(cancelsSinceProgress)), maxMatches, maxCancels) ==>
        ProgressCount(marks) == ProgressCount(old(marks)) + 1
      ensures old(sweep).None? && old(pendingOrder).Some? ==> Admitted(marks) == Admitted(old(marks)) + [old(pendingOrder).value]
      ensures Waits(turn, pendingCancel, cancelsSinceProgress)
      ensures cancelNext >= |old(cancelCh)| || |marks| - |old(marks)| >= maxCancels - old(cancelsSinceProgress)
      ensures closed ==> AllDone() && Admitted(marks) == orderCh && Replied(marks) == cancelCh
    {
      hide Valid, ProgressCount, FairTurn, RoomForSlice, Answered, Admitted, Replied;
      turn := FairWork();
      closed := TurnEnd();
      if closed {
        NothingLost();
      }
    }

    lemma QuotaIsPositive()
      requires Valid()
      ensures maxCancels >= 1
    {
    }

    /** Two turns answer any latched cancel. */
    method TwoTurns() returns (ghost middle: seq<Mark>)
      requires Valid() && pendingCancel.Some?
      modifies this, Repr()
      ensures Valid() && fresh(Repr() - old(Repr()))
      ensures var cmd := old(pendingCancel).value;
        Answered(old(marks), middle, cmd) || Answered(middle, marks, cmd)
    {
      hide Valid, ProgressCount, NoAdmission, Answered, RoomForSlice, Admitted, Replied;
      var closed, _ := RunTurn();
      middle := marks;
      if !closed {
        var _, _ := RunTurn();
      }
    }

    /** Any number of turns: the loop of a started engine. Every turn is fair, as the log
        of the run says: progress is missed exactly in the turns whose sweep found no
        room, and a latched cancel waits for the next turn at most. */
    method RunTurns(turns: nat) returns (closed: bool, ghost log: seq<Turn>)
      requires Valid()
      modifies this, Repr()
      ensures Valid() && fresh(Repr() - old(Repr()))
      ensures FairRun(log, old(marks), marks, maxMatches, maxCancels) && |log| <= turns && (closed || |log| == turns)
      ensures ProgressCount(marks) == ProgressCount(old(marks)) + |log| - StarvedTurns(log, maxMatches, maxCancels)
      ensures closed ==> AllDone() && Admitted(marks) == orderCh && Replied(marks) == cancelCh
    {
      NoTurns(marks, maxMatches, maxCancels);
      hide Valid, ProgressCount, FairTurn, FairRun, StarvedTurns, Starved, Waits, RoomForSlice, Admitted, Replied;
      closed, log := false, [];
      for i := 0 to turns
        invariant Valid() && fresh(Repr() - old(Repr())) && !closed && |log| == i
        invariant FairRun(log, old(marks), marks, maxMatches, maxCancels)
        invariant ProgressCount(marks) == ProgressCount(old(marks)) + |log| - StarvedTurns(log, maxMatches, maxCancels)
        invariant log != [] ==> Waits(log[|log| - 1], pendingCancel, cancelsSinceProgress)
      {
        ghost var turn;
        closed, turn := RunTurn();
        FairRunNext(log, turn, old(marks), maxMatches, maxCancels);
        log := log + [turn];
        if closed {
          return;
        }
      }
    }
  }
}
