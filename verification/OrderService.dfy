/** The order service on its tables: every call is one transaction, whose changes are kept
    only if all of it succeeds. */
module OrderServices {
  import opened Prelude
  import opened Ledger
  import opened Fees
  import opened Settlement
  import opened Orders
  import opened Reservation
  import opened Progress

  /** The books are sound and none of the user's other orders on the asset overspent. */
  ghost predicate Solvent(x: Exchange, id: nat) {
    && Inv(x) && Sound(x.store.ledger) && HasOrder(x.store.orders, id)
    && NoOtherOverspend(x.store, x.store.orders[id - 1].user, HoldAsset(x.store.orders[id - 1]), id)
  }

  lemma CancelFacts(x: Exchange, id: nat)
    requires Inv(x) && HasOrder(x.store.orders, id)
    ensures var r := CancelOrder(x.store, id);
      && (r.Ok? ==> Inv(x.(store := r.value)) && Cancels(x.store, r.value, id))
      && (Solvent(x, id) ==> r.Ok?)
  {
    hide Inv, Sound, NoOtherOverspend, CancelOrder, Cancels;
    if CancelOrder(x.store, id).Ok? {
      CancelKeepsInv(x, id);
      CancellationMoves(x, id);
    } else if Solvent(x, id) {
      CancellationSucceeds(x, id);
    }
  }

  lemma RejectFacts(x: Exchange, id: nat)
    requires Inv(x) && HasOrder(x.store.orders, id) && Parsed(x.store.orders[id - 1])
    ensures var r := RejectOrder(x.store, id);
      && (r.Ok? ==> Inv(x.(store := r.value)) && GivenBack(x.store, r.value, id, Rejected))
      && (Solvent(x, id) ==> r.Ok?)
  {
    hide Inv, Sound, NoOtherOverspend, RejectOrder, GivenBack;
    if RejectOrder(x.store, id).Ok? {
      RejectKeepsInv(x, id);
      RejectionMoves(x, id);
    } else if Solvent(x, id) {
      RejectionSucceeds(x, id);
    }
  }

  /** What a release from one open order is known to do. */
  lemma ReleaseFacts(x: Exchange, id: nat, amount: real, reason: ReleaseReason, status: Status)
    requires Inv(x) && HasOrder(x.store.orders, id) && IsOpen(x.store.orders[id - 1])
    ensures var o, r := x.store.orders[id - 1], ReleaseAndClose(x.store, id, amount, reason, status);
      && (r.Ok? ==> Released(x.store, r.value, id, amount, status))
      && (Sound(x.store.ledger) ==>
           (r.Ok? <==> amount > 0.0 && Balance(x.store.ledger, Locked(o.user, HoldAsset(o))) >= amount))
  {
    hide Inv, Sound, Record, Released;
    if ReleaseAndClose(x.store, id, amount, reason, status).Ok? {
      ReleaseMoves(x, id, amount, reason, status);
    }
    if Sound(x.store.ledger) && amount > 0.0 {
      ShapeOf(x, id);
      ReleaseKeyIsNew(x, id, reason);
      ReleaseRecords(x.store.ledger, id, x.store.orders[id - 1], amount, reason);
    }
  }

  /** What the completion of one order is known to do. */
  lemma CompletionFacts(x: Exchange, c: Completion)
    requires Inv(x)
    ensures HasOrder(x.store.orders, c.order) && CompleteMarket(x.store, c).Ok? ==>
      var o, st' := x.store.orders[c.order - 1], CompleteMarket(x.store, c).value;
      && (o.status != Rejected ==> Inv(x.(store := st')))
      && (IsOpen(o) && o.kind == Market ==> GivenBack(x.store, st', c.order, CompletedStatus(o, c)))
    ensures Solvent(x, c.order) ==>
      var o := x.store.orders[c.order - 1];
      IsOpen(o) && o.kind == Market ==>
      (CompleteMarket(x.store, c).Ok? <==>
       c.filled <= o.filled && c.filledQuote <= o.filledQuote && (o.side == Buy ==> WithFee(o.filledQuote) <= o.quote))
  {
    hide Inv, Sound, GivenBack, NoOtherOverspend, CompleteMarket;
    if HasOrder(x.store.orders, c.order) {
      var o := x.store.orders[c.order - 1];
      if CompleteMarket(x.store, c).Ok? && o.status != Rejected {
        CompleteKeepsInv(x, c);
      }
      if IsOpen(o) && o.kind == Market {
        if CompleteMarket(x.store, c).Ok? {
          CompletionMoves(x, c);
        }
        if Solvent(x, c.order) {
          CompletionSucceeds(x, c);
        }
      }
    }
  }

  class OrderService {
    var orders: seq<Order>
    var trades: seq<Trade>
    var ledger: LedgerState
    ghost var rest: Exchange

    /** The exchange; what the order service does not touch stays as it was. */
    ghost function World(): Exchange
      reads this
    {
      rest.(store := rest.store.(orders := orders, trades := trades, ledger := ledger))
    }

    ghost function State(): Store
      reads this
    {
      World().store
    }

    constructor (exchange: Exchange)
      ensures World() == exchange
    {
      orders, trades, ledger := exchange.store.orders, exchange.store.trades, exchange.store.ledger;
      rest := exchange;
    }

    ghost predicate Did(before: Store, spec: Result<Store>, r: Result<()>)
      reads this
    {
      match spec
      case Ok(st) => r == Ok(()) && State() == st
      case Err(e) => r == Err(e) && State() == before
    }

    method FindOrder(id: nat) returns (o: Option<Order>)
      ensures o == if HasOrder(orders, id) then Some(orders[id - 1]) else None
    {
      return if 1 <= id <= |orders| then Some(orders[id - 1]) else None;
    }

    /** Gives back part of a hold and closes the order, or does neither. From an open order
        exactly the amount moves, and it moves exactly when so much is locked. */
    method ReleaseAndUpdate(id: nat, amount: real, reason: ReleaseReason, status: Status) returns (r: Result<()>)
      requires HasOrder(orders, id)
      modifies `orders, `ledger
      ensures Did(old(State()), ReleaseAndClose(old(State()), id, amount, reason, status), r)
      ensures old(Inv(World()) && IsOpen(orders[id - 1])) && r.Ok? ==> Released(old(State()), State(), id, amount, status)
      ensures old(Inv(World()) && Sound(ledger) && IsOpen(orders[id - 1])) ==>
        (r.Ok? <==> amount > 0.0 && old(Balance(ledger, Locked(orders[id - 1].user, HoldAsset(orders[id - 1])))) >= amount)
    {
      if Inv(World()) && IsOpen(orders[id - 1]) {
        ReleaseFacts(World(), id, amount, reason, status);
      }
      hide Inv, Sound, ReleaseAndClose, Released;
      r := ReleaseRow(id, amount, reason, status);
    }

    method ReleaseRow(id: nat, amount: real, reason: ReleaseReason, status: Status) returns (r: Result<()>)
      requires HasOrder(orders, id)
      modifies `orders, `ledger
      ensures Did(old(State()), ReleaseAndClose(old(State()), id, amount, reason, status), r)
    {
      hide Record;
      if amount <= 0.0 {
        return Err(Invalid);
      }
      var done := Record(ledger, ReleaseJournal(id, orders[id - 1], amount, reason));
      if done.Err? {
        return Err(done.error);
      }
      ledger := done.value.ledger;
      orders := orders[id - 1 := orders[id - 1].(status := status)];
      return Ok(());
    }

    /** The engine took the order off the book. An open order that still has quantity is
        closed and everything it reserved is available again, anything else is left alone;
        locked stays exactly what is reserved, and only another order of the same user that
        overspent can make it fail. */
    method ProcessOrderCancellation(id: nat) returns (r: Result<()>)
      modifies `orders, `ledger
      ensures Did(old(State()), CancelOrder(old(State()), id), r)
      ensures r.Err? ==> World() == old(World())
      ensures old(Inv(World()) && HasOrder(orders, id)) && r.Ok? ==> Inv(World()) && Cancels(old(State()), State(), id)
      ensures old(Solvent(World(), id)) ==> r.Ok?
    {
      if Inv(World()) && HasOrder(orders, id) {
        CancelFacts(World(), id);
      }
      assert Solvent(World(), id) ==> Inv(World()) && HasOrder(orders, id);
      hide Inv, CancelOrder, Cancels, Solvent;
      r := CancelRow(id);
    }

    method CancelRow(id: nat) returns (r: Result<()>)
      modifies `orders, `ledger
      ensures Did(old(State()), CancelOrder(old(State()), id), r)
    {
      hide ReleaseAndClose;
      var found := FindOrder(id);
      if found.None? {
        return Err(NotFound);
      }
      var o := found.value;
      if !IsOpen(o) || o.amount - o.filled <= 0.0 {
        return Ok(());
      }
      var remaining := o.amount - o.filled;
      var amount := if o.side == Buy then WithFee(Notional(o.price, remaining)) else remaining;
      r := ReleaseRow(id, amount, ReasonCancel, Cancelled);
    }

    /** Adds up the fees of the trades an order bought in. */
    method SumBuyerFees(id: nat) returns (total: real)
      ensures total == BuyerFees(trades, id)
    {
      total := 0.0;
      for i := 0 to |trades|
        invariant total == BuyerFees(trades[..i], id)
      {
        assert trades[..i + 1][..i] == trades[..i];
        if trades[i].buyOrder == id {
          total := total + trades[i].buyerFee;
        }
      }
      assert trades[..|trades|] == trades;
    }

    ghost predicate OpenMarket(id: nat)
      reads this
    {
      HasOrder(orders, id) && IsOpen(orders[id - 1]) && orders[id - 1].kind == Market
    }

    /** A market order that is done. */
    ghost predicate ClosedMarket(id: nat)
      reads this
    {
      HasOrder(orders, id) && orders[id - 1].kind == Market && orders[id - 1].status in {Filled, Cancelled}
    }

    method CompleteBuy(c: Completion) returns (r: Result<()>)
      requires HasOrder(orders, c.order)
      modifies `orders, `ledger
      ensures Did(old(State()), CompleteMarketBuy(old(State()), c), r)
    {
      hide Record;
      var o := orders[c.order - 1];
      var fees := SumBuyerFees(c.order);
      var spent := o.filledQuote + fees;
      if spent > o.quote {
        return Err(Conflict);
      }
      var status := if c.remainingQuote > 0.0 then Cancelled else Filled;
      if o.quote - spent > 0.0 {
        r := ReleaseRow(c.order, o.quote - spent, ReasonMarketRemain, status);
        return;
      }
      orders := orders[c.order - 1 := o.(status := status)];
      return Ok(());
    }

    method CompleteSell(id: nat) returns (r: Result<()>)
      requires HasOrder(orders, id)
      modifies `orders, `ledger
      ensures Did(old(State()), CompleteMarketSell(old(State()), id), r)
    {
      hide Record;
      var o := orders[id - 1];
      if o.amount - o.filled < 0.0 {
        return Err(Conflict);
      }
      var status := if o.filled == o.amount then Filled else Cancelled;
      if o.amount - o.filled > 0.0 {
        r := ReleaseRow(id, o.amount - o.filled, ReasonMarketRemain, status);
        return;
      }
      orders := orders[id - 1 := o.(status := status)];
      return Ok(());
    }

    /** The engine is done with a market order. An open one is closed and everything it
        still reserved is available again; it fails exactly when the fills have not all
        arrived or a buy has spent more, fees included, than its budget. Locked stays
        exactly what is reserved unless the order had been rejected. A closed one stays as
        it is, so a report that comes again is harmless. */
    method CompleteMarketOrder(c: Completion) returns (r: Result<()>)
      modifies `orders, `ledger
      ensures Did(old(State()), CompleteMarket(old(State()), c), r)
      ensures r.Err? ==> World() == old(World())
      ensures old(Inv(World()) && OpenMarket(c.order)) && r.Ok? ==>
        GivenBack(old(State()), State(), c.order, CompletedStatus(old(orders[c.order - 1]), c))
      ensures old(Inv(World()) && HasOrder(orders, c.order) && orders[c.order - 1].status != Rejected) && r.Ok? ==> Inv(World())
      ensures old(Solvent(World(), c.order) && OpenMarket(c.order)) ==>
        var o := old(orders[c.order - 1]);
        r.Ok? <==>
        c.filled <= o.filled && c.filledQuote <= o.filledQuote && (o.side == Buy ==> WithFee(o.filledQuote) <= o.quote)
      ensures old(ClosedMarket(c.order)) ==> r == Ok(()) && World() == old(World())
      ensures r.Ok? ==> ClosedMarket(c.order)
      ensures !old(HasOrder(orders, c.order)) ==> r == Err(NotFound)
      ensures old(HasOrder(orders, c.order)) && old(orders[c.order - 1]).kind == Limit ==> r == Err(Invalid)
    {
      hide ClosedMarket;
      if Inv(World()) {
        CompletionFacts(World(), c);
      }
      assert Solvent(World(), c.order) ==> Inv(World());
      hide Inv, CompleteMarket, GivenBack, Solvent;
      r := CompleteRow(c);
    }

    method CompleteRow(c: Completion) returns (r: Result<()>)
      modifies `orders, `ledger
      ensures Did(old(State()), CompleteMarket(old(State()), c), r)
      ensures old(ClosedMarket(c.order)) ==> r == Ok(()) && World() == old(World())
      ensures r.Ok? ==> ClosedMarket(c.order)
      ensures !old(HasOrder(orders, c.order)) ==> r == Err(NotFound)
      ensures old(HasOrder(orders, c.order)) && old(orders[c.order - 1]).kind == Limit ==> r == Err(Invalid)
    {
      hide CompleteMarketBuy, CompleteMarketSell;
      if CompleteMarket(State(), c).Ok? {
        CompletionIsFinal(State(), c, c);
      }
      var found := FindOrder(c.order);
      if found.None? {
        return Err(NotFound);
      }
      var o := found.value;
      if o.kind != Market {
        return Err(Invalid);
      }
      if o.status == Filled || o.status == Cancelled {
        return Ok(());
      }
      if o.filled < c.filled || o.filledQuote < c.filledQuote {
        return Err(Conflict);
      }
      if o.side == Buy {
        r := CompleteBuy(c);
      } else {
        r := CompleteSell(c.order);
      }
    }

    /** An accepted order the engine never got, so that nothing has happened to it: its
        whole hold is available again. */
    method RejectAcceptedOrder(id: nat) returns (r: Result<()>)
      modifies `orders, `ledger
      ensures Did(old(State()), RejectOrder(old(State()), id), r)
      ensures r.Err? ==> World() == old(World())
      ensures old(Inv(World()) && HasOrder(orders, id) && Parsed(orders[id - 1])) && r.Ok? ==>
        Inv(World()) && GivenBack(old(State()), State(), id, Rejected)
      ensures old(Solvent(World(), id) && Parsed(orders[id - 1])) ==> r.Ok?
    {
      if Inv(World()) && HasOrder(orders, id) && Parsed(orders[id - 1]) {
        RejectFacts(World(), id);
      }
      assert Solvent(World(), id) ==> Inv(World()) && HasOrder(orders, id);
      hide Inv, RejectOrder, GivenBack, Solvent, Parsed;
      r := RejectRow(id);
    }

    method RejectRow(id: nat) returns (r: Result<()>)
      modifies `orders, `ledger
      ensures Did(old(State()), RejectOrder(old(State()), id), r)
    {
      hide ReleaseAndClose;
      var found := FindOrder(id);
      if found.None? {
        return Err(NotFound);
      }
      r := ReleaseRow(id, HoldAmount(found.value), ReasonRejected, Rejected);
    }
  }
}
