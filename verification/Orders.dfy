/** Placing, cancelling, completing and rejecting an order, each one transaction. */
module Orders {
  import opened Prelude
  import opened Ledger
  import opened Fees
  import opened Settlement

  function HoldAsset(o: Order): string {
    if o.side == Buy then KRW else o.symbol
  }

  /** What placing an order locks. */
  function HoldAmount(o: Order): real {
    if o.side == Sell then o.amount
    else if o.kind == Market then o.quote
    else WithFee(Notional(o.price, o.amount))
  }

  function MovePostings(o: Order, from: AccountKind, to: AccountKind, amount: real): seq<Posting> {
    [UserPosting(from, o.user, HoldAsset(o), -amount), UserPosting(to, o.user, HoldAsset(o), amount)]
  }

  function PlaceJournal(id: nat, o: Order): Journal {
    Journal(OrderHold, HoldKey(id), RefOrder, id, None, MovePostings(o, UserAvailable, UserLocked, HoldAmount(o)))
  }

  function ReleaseJournal(id: nat, o: Order, amount: real, reason: ReleaseReason): Journal {
    Journal(OrderRelease, ReleaseKey(id, reason), RefOrder, id, None, MovePostings(o, UserLocked, UserAvailable, amount))
  }

  /** The order row and its hold, or neither. */
  function PlaceOrder(st: Store, o: Order): Result<Store> {
    if HoldAmount(o) <= 0.0 then Err(Invalid)
    else
      match Record(st.ledger, PlaceJournal(|st.orders| + 1, o))
      case Err(e) => Err(e)
      case Ok(done) => Ok(st.(orders := st.orders + [o], ledger := done.ledger))
  }

  function Release(st: Store, id: nat, amount: real, reason: ReleaseReason): Result<Store>
    requires HasOrder(st.orders, id)
  {
    if amount <= 0.0 then Err(Invalid)
    else
      match Record(st.ledger, ReleaseJournal(id, st.orders[id - 1], amount, reason))
      case Err(e) => Err(e)
      case Ok(done) => Ok(st.(ledger := done.ledger))
  }

  function Close(st: Store, id: nat, status: Status): Store
    requires HasOrder(st.orders, id)
  {
    st.(orders := st.orders[id - 1 := st.orders[id - 1].(status := status)])
  }

  function ReleaseAndClose(st: Store, id: nat, amount: real, reason: ReleaseReason, status: Status): Result<Store>
    requires HasOrder(st.orders, id)
  {
    match Release(st, id, amount, reason)
    case Err(e) => Err(e)
    case Ok(st') => Ok(Close(st', id, status))
  }

  function Remaining(o: Order): real {
    o.amount - o.filled
  }

  /** The engine took the order off the book: give back what is left of the hold. An
      order that is no longer open, or has nothing left, is passed over. */
  function CancelOrder(st: Store, id: nat): Result<Store> {
    if !HasOrder(st.orders, id) then Err(NotFound)
    else
      var o := st.orders[id - 1];
      if !IsOpen(o) || Remaining(o) <= 0.0 then Ok(st)
      else
        var amount := if o.side == Buy then WithFee(Notional(o.price, Remaining(o))) else Remaining(o);
        ReleaseAndClose(st, id, amount, ReasonCancel, Cancelled)
  }

  /** What the buyers' fees of one order's trades add up to. */
  function BuyerFees(trades: seq<Trade>, id: nat): real {
    if trades == [] then 0.0
    else
      var t := trades[|trades| - 1];
      BuyerFees(trades[..|trades| - 1], id) + (if t.buyOrder == id then t.buyerFee else 0.0)
  }

  datatype Completion = Completion(order: nat, filled: real, filledQuote: real, remainingQuote: real)

  /** The engine is done with a market order: give back the unspent part. */
  function CompleteMarket(st: Store, c: Completion): Result<Store> {
    if !HasOrder(st.orders, c.order) then Err(NotFound)
    else
      var o := st.orders[c.order - 1];
      if o.kind != Market then Err(Invalid)
      else if o.status == Filled || o.status == Cancelled then Ok(st)
      else if o.filled < c.filled || o.filledQuote < c.filledQuote then Err(Conflict)
      else if o.side == Buy then CompleteMarketBuy(st, c)
      else CompleteMarketSell(st, c.order)
  }

  function CompleteMarketBuy(st: Store, c: Completion): Result<Store>
    requires HasOrder(st.orders, c.order)
  {
    var o := st.orders[c.order - 1];
    var spent := o.filledQuote + BuyerFees(st.trades, c.order);
    var status := if c.remainingQuote > 0.0 then Cancelled else Filled;
    if spent > o.quote then Err(Conflict)
    else if o.quote - spent > 0.0 then ReleaseAndClose(st, c.order, o.quote - spent, ReasonMarketRemain, status)
    else Ok(Close(st, c.order, status))
  }

  function CompleteMarketSell(st: Store, id: nat): Result<Store>
    requires HasOrder(st.orders, id)
  {
    var o := st.orders[id - 1];
    var status := if o.filled == o.amount then Filled else Cancelled;
    if Remaining(o) < 0.0 then Err(Conflict)
    else if Remaining(o) > 0.0 then ReleaseAndClose(st, id, Remaining(o), ReasonMarketRemain, status)
    else Ok(Close(st, id, status))
  }

  /** The engine may report an order more than once: the first completion that succeeds
      closes the order, and every later one, whatever it says, is accepted and changes
      nothing. */
  lemma CompletionIsFinal(st: Store, c: Completion, again: Completion)
    requires CompleteMarket(st, c).Ok? && again.order == c.order
    ensures var st' := CompleteMarket(st, c).value;
      && HasOrder(st'.orders, c.order) && st'.orders[c.order - 1].status in {Filled, Cancelled}
      && st'.orders[c.order - 1].kind == Market
      && CompleteMarket(st', again) == Ok(st')
  {
    hide Record;
  }

  /** The order was accepted but could not be handed to the engine: undo its hold. */
  function RejectOrder(st: Store, id: nat): Result<Store> {
    if !HasOrder(st.orders, id) then Err(NotFound)
    else ReleaseAndClose(st, id, HoldAmount(st.orders[id - 1]), ReasonRejected, Rejected)
  }
}
