/** What every run of one symbol's book keeps: orders admitted one at a time, matched in
    slices of any size, with cancels of any resting order between the slices. */
module BookRuns {
  import opened Prelude
  import opened OrderBooks
  import opened Matching

  /** Orders the engine gives a sweep; any other is dropped on admission. */
  predicate Admissible(o: BookOrder) {
    (o.side == Buy && o.kind == Market) || o.amount > 0.0
  }

  /** The book once an order's sweep is done: what is left of a limit order rests. */
  function Finish(book: Book, o: BookOrder): Book {
    if o.kind == Limit && o.amount > 0.0 then book.With(o.side, Insert(book.On(o.side), o)) else book
  }

  /** What the end of a sweep leaves: the rest of a limit order waits behind all others at
      its price, every other queue is as it was, and anything else leaves no trace. */
  ghost predicate Ended(book: Book, o: BookOrder, after: Book) {
    if o.kind == Limit && o.amount > 0.0 then
      && after.On(Opposite(o.side)) == book.On(Opposite(o.side))
      && forall p :: Queue(after.On(o.side), p) == Queue(book.On(o.side), p) + if p == o.price then [o] else []
    else after == book
  }

  lemma {:induction false} FinishEnds(book: Book, o: BookOrder)
    requires BookOk(book) && (o.kind == Limit ==> o.price > 0.0)
    ensures Ended(book, o, Finish(book, o))
  {
    hide Queue, SideOk, Uncrossed, Insert;
    if o.kind == Limit && o.amount > 0.0 {
      var mine := book.On(o.side);
      assert SideOk(o.side, mine);
      forall p ensures Queue(Insert(mine, o), p) == Queue(mine, p) + if p == o.price then [o] else [] {
        InsertIsPushBack(mine, o, p);
      }
    }
  }

  // ---------------------------------------------------------------- uncrossed books

  /** Fewer owners on either side cannot cross a book. */
  lemma StaysUncrossed(book: Book, after: Book)
    requires Uncrossed(book)
    requires Owners(after.buys) <= Owners(book.buys) && Owners(after.sells) <= Owners(book.sells)
    ensures Uncrossed(after)
  {
  }

  lemma {:induction false} SliceKeepsBook(book: Book, o: BookOrder, n: nat)
    requires BookOk(book)
    ensures BookOk(Slice(book, o, n).book)
  {
    hide Owners, SideOk, Uncrossed;
    SliceKeeps(book, o, n);
    StaysUncrossed(book, Slice(book, o, n).book);
  }

  /** When no trade is possible, an order that still wants one meets only its own
      user's orders, so it can rest without crossing anyone else. */
  lemma {:induction false} FinishKeepsBook(book: Book, o: BookOrder)
    requires BookOk(book) && TradeOnce(book, o).None? && (o.kind == Limit ==> o.price > 0.0)
    ensures BookOk(Finish(book, o)) && Ended(book, o, Finish(book, o))
  {
    FinishEnds(book, o);
    hide Queue, Ended;
    if o.kind == Limit && o.amount > 0.0 {
      var mine, theirs := book.On(o.side), book.On(Opposite(o.side));
      MeetsOnlyOwn(book, o);
      InsertIsPushBack(mine, o, o.price);
      assert forall x :: x in Owners(Insert(mine, o)) ==> x in Owners(mine) || x == (o.price, o.user);
      assert SideOk(o.side, Insert(mine, o));
      if o.side == Buy {
        assert Finish(book, o) == Book(Insert(mine, o), theirs);
      } else {
        assert Finish(book, o) == Book(theirs, Insert(mine, o));
      }
    }
  }

  lemma {:induction false} MeetsOnlyOwn(book: Book, o: BookOrder)
    requires Facing(book, o) && TradeOnce(book, o).None? && o.kind == Limit && o.amount > 0.0
    ensures forall x :: x in Owners(book.On(Opposite(o.side))) && Within(o, x.0) ==> SameOwner(o.user, x.1)
  {
    var theirs := book.On(Opposite(o.side));
    BestIsFirstInPriority(theirs, o, 0);
    assert forall l, i :: 0 <= l < |theirs| && 0 <= i < |theirs[l].orders| ==>
             LevelOk(Opposite(o.side), theirs[l]) && OrderOk(Opposite(o.side), theirs[l].price, theirs[l].orders[i]);
  }

  lemma {:induction false} RemoveKeepsBook(book: Book, side: Side, price: real, id: nat)
    requires BookOk(book) && Remove(book.On(side), price, id).Some?
    ensures BookOk(book.With(side, Remove(book.On(side), price, id).value))
  {
    hide Owners, SideOk, Uncrossed, Remove, Queue;
    RemoveTakesOne(side, book.On(side), price, id, price);
    StaysUncrossed(book, book.With(side, Remove(book.On(side), price, id).value));
  }

  // ------------------------------------------------------------- what a sweep moves

  function QuantityOf(t: EngineTrade): real { t.quantity }

  function CostOf(t: EngineTrade): real { Cost(t.price, t.quantity) }

  /** What is left and what is filled of an order, against what it was admitted with and
      the trades it has made since: nothing is lost, nothing is overdrawn. */
  ghost predicate Accounted(start: BookOrder, o: BookOrder, trades: seq<EngineTrade>) {
    && o == start.(amount := o.amount, quote := o.quote, filled := o.filled, filledQuote := o.filledQuote)
    && o.filled == start.filled + Sum(QuantityOf, trades)
    && (if o.kind == Market && o.side == Buy then
          && 0.0 <= o.quote && o.quote + o.filledQuote == start.quote + start.filledQuote && o.amount == start.amount
        else
          && 0.0 <= o.amount && o.amount + o.filled == start.amount + start.filled && o.quote == start.quote)
    && o.filledQuote == start.filledQuote + if o.kind == Market then Sum(CostOf, trades) else 0.0
  }

  lemma {:induction false} TradeAccounts(start: BookOrder, book: Book, o: BookOrder, trades: seq<EngineTrade>)
    requires Facing(book, o) && Accounted(start, o, trades) && TradeOnce(book, o).Some?
    ensures Accounted(start, TradeOnce(book, o).value.order, trades + [TradeOnce(book, o).value.trade])
  {
    hide Owners, SideOk, Best, Capacity, Take, Within;
    var t := TradeOnce(book, o).value;
    TradeIsFair(book, o);
    SumLast(QuantityOf, trades, t.trade);
    SumLast(CostOf, trades, t.trade);
  }

  lemma {:induction false} SumLast<T>(f: T -> real, xs: seq<T>, x: T)
    ensures Sum(f, xs + [x]) == Sum(f, xs) + f(x)
  {
    assert (xs + [x])[..|xs|] == xs;
  }

  lemma {:induction false} SliceAccounts(start: BookOrder, book: Book, o: BookOrder, trades: seq<EngineTrade>, n: nat)
    requires Facing(book, o) && Accounted(start, o, trades)
    ensures Accounted(start, Slice(book, o, n).order, trades + Slice(book, o, n).trades)
    decreases n
  {
    hide Accounted, TradeOnce, Facing, Follows;
    if TradeOnce(book, o).Some? && n > 0 {
      var t := TradeOnce(book, o).value;
      TradeAccounts(start, book, o, trades);
      TradeFaces(book, o);
      SliceAccounts(start, t.book, t.order, trades + [t.trade], n - 1);
      assert trades + [t.trade] + Slice(t.book, t.order, n - 1).trades == trades + ([t.trade] + Slice(t.book, t.order, n - 1).trades);
    } else {
      assert trades + [] == trades;
    }
  }

  // ------------------------------------------------------------------------- runs

  /** The order being swept, as it was admitted, as it is, and the trades it made. */
  datatype Active = Active(start: BookOrder, order: BookOrder, trades: seq<EngineTrade>)

  datatype Desk = Desk(book: Book, active: Option<Active>)

  datatype Action =
    | Admit(order: BookOrder)
    | RunSlice(budget: nat)
    | Cancel(side: Side, price: real, id: nat)

  /** Submitted orders carry a positive price if they are limit orders and no negative
      budget; nothing is admitted during a sweep. */
  predicate Enabled(d: Desk, a: Action) {
    a.Admit? ==> d.active.None? && (a.order.kind == Limit ==> a.order.price > 0.0) && a.order.quote >= 0.0
  }

  function Act(d: Desk, a: Action): Desk {
    match a
    case Admit(o) =>
      if Admissible(o) then d.(active := Some(Active(o, o, []))) else d
    case RunSlice(n) =>
      if d.active.None? then d
      else
        var sweep := d.active.value;
        var s := Slice(d.book, sweep.order, n);
        if s.done then Desk(Finish(s.book, s.order), None)
        else Desk(s.book, Some(sweep.(order := s.order, trades := sweep.trades + s.trades)))
    case Cancel(side, price, id) =>
      match Remove(d.book.On(side), price, id)
      case None => d
      case Some(levels) => d.(book := d.book.With(side, levels))
  }

  function Run(d: Desk, actions: seq<Action>): Desk {
    if actions == [] then d else Act(Run(d, actions[..|actions| - 1]), actions[|actions| - 1])
  }

  ghost predicate IsRun(d: Desk, actions: seq<Action>) {
    forall i :: 0 <= i < |actions| ==> Enabled(Run(d, actions[..i]), actions[i])
  }

  ghost predicate Inv(d: Desk) {
    && BookOk(d.book)
    && (d.active.Some? ==>
          && Accounted(d.active.value.start, d.active.value.order, d.active.value.trades)
          && (d.active.value.order.kind == Limit ==> d.active.value.order.price > 0.0))
  }

  lemma {:induction false} ActKeepsInv(d: Desk, a: Action)
    requires Inv(d) && Enabled(d, a)
    ensures Inv(Act(d, a))
  {
    hide BookOk, Accounted, Slice, Remove, Finish, TradeOnce;
    match a
    case Admit(o) =>
      if Admissible(o) {
        AdmittedIsAccounted(o);
      }
    case RunSlice(n) =>
      if d.active.Some? {
        SliceStep(d.book, d.active.value, n);
      }
    case Cancel(side, price, id) =>
      if Remove(d.book.On(side), price, id).Some? {
        RemoveKeepsBook(d.book, side, price, id);
      }
  }

  lemma AdmittedIsAccounted(o: BookOrder)
    requires Admissible(o) && o.quote >= 0.0
    ensures Accounted(o, o, [])
  {
  }

  lemma {:induction false} SliceStep(book: Book, sweep: Active, n: nat)
    requires BookOk(book) && Accounted(sweep.start, sweep.order, sweep.trades)
    requires sweep.order.kind == Limit ==> sweep.order.price > 0.0
    ensures var s := Slice(book, sweep.order, n);
      && BookOk(s.book) && (s.done ==> BookOk(Finish(s.book, s.order)))
      && Accounted(sweep.start, s.order, sweep.trades + s.trades)
      && (s.order.kind == Limit ==> s.order.price > 0.0)
  {
    hide Accounted, Slice, Finish, TradeOnce, SideOk, Uncrossed, Owners;
    var s := Slice(book, sweep.order, n);
    SliceKeeps(book, sweep.order, n);
    SliceEnds(book, sweep.order, n);
    SliceKeepsBook(book, sweep.order, n);
    SliceAccounts(sweep.start, book, sweep.order, sweep.trades, n);
    if s.done {
      FinishKeepsBook(s.book, s.order);
    }
  }

  /** Over any sequence of orders, slices and cancels from an empty book: the book's
      levels are non-empty, sorted and unique, every resting amount is positive, two
      resting orders whose prices cross belong to one known user, and the order being
      swept has moved exactly what its trades say. */
  lemma {:induction false} BooksStayUncrossed(actions: seq<Action>)
    requires IsRun(Desk(EMPTY, None), actions)
    ensures Inv(Run(Desk(EMPTY, None), actions))
  {
    if actions == [] {
      assert Owners([]) == {};
    } else {
      var before := actions[..|actions| - 1];
      forall i | 0 <= i < |before|
        ensures before[..i] == actions[..i]
      {
      }
      BooksStayUncrossed(before);
      ActKeepsInv(Run(Desk(EMPTY, None), before), actions[|actions| - 1]);
    }
  }
}
