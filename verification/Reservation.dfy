/** The reservation invariant: a user's locked balance in an asset is exactly what the
    user's open orders and unresolved withdrawals still reserve, in every run of the
    exchange's transactions. */
module Reservation {
  import opened Prelude
  import opened Ledger
  import opened Fees
  import opened Settlement
  import opened Orders
  import T = Transfers

  /** All tables; the ledger is shared by the two halves. */
  datatype Exchange = Exchange(store: Store, rows: seq<T.Transfer>, facts: map<string, T.Fact>)

  function TransfersOf(x: Exchange): T.TransferBook {
    T.TransferBook(x.rows, x.facts, x.store.ledger)
  }

  function Locked(user: nat, asset: string): Account {
    Account(UserLocked, user, asset)
  }

  // ------------------------------------------------------------------ reserved

  /** What one order still reserves. */
  function Reserved(trades: seq<Trade>, id: nat, o: Order): real {
    if !IsOpen(o) then 0.0
    else if o.side == Sell then Remaining(o)
    else if o.kind == Limit then WithFee(Notional(o.price, Remaining(o)))
    else o.quote - o.filledQuote - BuyerFees(trades, id)
  }

  function HeldBy(st: Store, user: nat, asset: string, id: nat): real {
    if HasOrder(st.orders, id) && st.orders[id - 1].user == user && HoldAsset(st.orders[id - 1]) == asset
    then Reserved(st.trades, id, st.orders[id - 1]) else 0.0
  }

  /** What the orders with ids 1 to n reserve for a user in an asset. */
  function HeldUpTo(st: Store, user: nat, asset: string, n: nat): real {
    if n == 0 then 0.0 else HeldUpTo(st, user, asset, n - 1) + HeldBy(st, user, asset, n)
  }

  function Held(st: Store, user: nat, asset: string): real {
    HeldUpTo(st, user, asset, |st.orders|)
  }

  /** Amount and fee of the withdrawals that are not resolved yet. */
  ghost function Withdrawing(rows: seq<T.Transfer>, user: nat, asset: string): real {
    T.TotalEffect(rows, Locked(user, asset))
  }

  ghost predicate Covered(x: Exchange) {
    forall user, asset ::
      Balance(x.store.ledger, Locked(user, asset)) == Held(x.store, user, asset) + Withdrawing(x.rows, user, asset)
  }

  // --------------------------------------------------------- supporting facts

  /** Which order and trade keys the ledger can hold. */
  ghost predicate KeysAccounted(st: Store) {
    forall i :: 0 <= i < |st.ledger.journals| ==>
      match st.ledger.journals[i].key
      case HoldKey(id) => HasOrder(st.orders, id)
      case ReleaseKey(id, _) => HasOrder(st.orders, id) && !IsOpen(st.orders[id - 1])
      case TradeKey(k) => FindTrade(st.trades, k).Some?
      case _ => true
  }

  /** Every buyer fee on file is the fee on that order's filled quote. */
  ghost predicate FeesMatch(st: Store) {
    forall id: nat :: BuyerFees(st.trades, id) ==
      if HasOrder(st.orders, id) && st.orders[id - 1].side == Buy then TradingFee(st.orders[id - 1].filledQuote) else 0.0
  }

  /** What is true of every order row: an open order other than a market buy has
      something left, and a market buy has no quantity target. */
  predicate Shaped(o: Order) {
    && o.user != 0 && o.symbol != "" && o.filled >= 0.0 && o.filledQuote >= 0.0
    && (o.kind == Limit ==> o.price > 0.0)
    && (if IsMarketBuy(o) then o.amount == 0.0 && o.quote > 0.0
        else o.amount > 0.0 && o.filled <= o.amount && (IsOpen(o) ==> o.filled < o.amount))
  }

  ghost predicate Inv(x: Exchange) {
    && T.Inv(TransfersOf(x))
    && (forall i :: 0 <= i < |x.store.orders| ==> Shaped(x.store.orders[i]))
    && KeysAccounted(x.store)
    && FeesMatch(x.store)
    && Covered(x)
  }

  // --------------------------------------------------------------------- steps

  datatype Action =
    | Place(order: Order)
    | Settle(item: Item)
    | Cancel(id: nat)
    | Complete(completion: Completion)
    | Reject(id: nat)
    | Transferring(event: T.Event)
    | Fund(journal: Journal)

  /** An order as request parsing makes it. */
  predicate Parsed(o: Order) {
    && o.user != 0 && o.symbol != "" && o.status == Pending && o.filled == 0.0 && o.filledQuote == 0.0
    && (if o.kind == Limit then o.price > 0.0 && o.amount > 0.0 && o.quote == 0.0
        else o.price == 0.0 && (if o.side == Buy then o.amount == 0.0 && o.quote > 0.0 else o.amount > 0.0 && o.quote == 0.0))
  }

  /** A trade carries the fees of the policy, either already or once prepared. */
  predicate PolicyFees(t: Trade) {
    t.feeRate > 0.0 ==> t.buyerFee == TradingFee(Quote(t)) && t.sellerFee == TradingFee(Quote(t))
  }

  /** What holds of a transaction's input when the rest of the system calls it. A
      market buy's quote stays below its budget, an order is rejected only before the
      engine ever saw it and is then never completed, and other journals touch neither
      locked balances nor the keys of orders, trades and transfers. */
  predicate Enabled(x: Exchange, a: Action) {
    match a
    case Place(o) => Parsed(o)
    case Settle(item) =>
      && PolicyFees(item.trade)
      && (HasOrder(x.store.orders, item.trade.buyOrder) && IsMarketBuy(x.store.orders[item.trade.buyOrder - 1]) ==>
            x.store.orders[item.trade.buyOrder - 1].filledQuote + Quote(item.trade)
              < x.store.orders[item.trade.buyOrder - 1].quote)
    case Cancel(_) => true
    case Complete(c) => HasOrder(x.store.orders, c.order) ==> x.store.orders[c.order - 1].status != Rejected
    case Reject(id) => HasOrder(x.store.orders, id) ==> Parsed(x.store.orders[id - 1])
    case Transferring(e) => !e.Elsewhere?
    case Fund(j) =>
      && j.refKind == RefDevFund && j.key.OtherKey?
      && forall p :: p in j.postings ==> p.kind != UserLocked
  }

  function OrKeep(x: Exchange, r: Result<Store>): Exchange {
    if r.Ok? then x.(store := r.value) else x
  }

  /** One transaction, committed or rolled back. */
  function Do(x: Exchange, a: Action): Exchange {
    match a
    case Place(o) => OrKeep(x, PlaceOrder(x.store, o))
    case Settle(item) => (match SettleTrade(x.store, item) case Ok((st, _)) => x.(store := st) case Err(_) => x)
    case Cancel(id) => OrKeep(x, CancelOrder(x.store, id))
    case Complete(c) => OrKeep(x, CompleteMarket(x.store, c))
    case Reject(id) => OrKeep(x, RejectOrder(x.store, id))
    case Transferring(e) =>
      var b := T.Step(TransfersOf(x), e);
      Exchange(x.store.(ledger := b.ledger), b.rows, b.facts)
    case Fund(j) =>
      match Record(x.store.ledger, j) case Ok(done) => x.(store := x.store.(ledger := done.ledger)) case Err(_) => x
  }

  /** The states a run goes through, each action enabled when it is taken. */
  ghost predicate IsRun(xs: seq<Exchange>, actions: seq<Action>) {
    && |xs| == |actions| + 1
    && forall i :: 0 <= i < |actions| ==> Enabled(xs[i], actions[i]) && xs[i + 1] == Do(xs[i], actions[i])
  }

  // ------------------------------------------------------------ sums over orders

  lemma {:induction false} HeldSame(st: Store, st': Store, user: nat, asset: string, n: nat)
    requires forall id :: 1 <= id <= n ==> HeldBy(st', user, asset, id) == HeldBy(st, user, asset, id)
    ensures HeldUpTo(st', user, asset, n) == HeldUpTo(st, user, asset, n)
  {
    if n > 0 {
      HeldSame(st, st', user, asset, n - 1);
    }
  }

  lemma {:induction false} HeldChanges(st: Store, st': Store, user: nat, asset: string, n: nat, x: nat, y: nat)
    requires 1 <= x <= n && 1 <= y <= n && x != y
    requires forall id :: 1 <= id <= n && id != x && id != y ==> HeldBy(st', user, asset, id) == HeldBy(st, user, asset, id)
    ensures HeldUpTo(st', user, asset, n) == HeldUpTo(st, user, asset, n)
      - HeldBy(st, user, asset, x) + HeldBy(st', user, asset, x)
      - HeldBy(st, user, asset, y) + HeldBy(st', user, asset, y)
  {
    if x < n && y < n {
      HeldChanges(st, st', user, asset, n - 1, x, y);
    } else {
      var z := if x == n then y else x;
      HeldChangesOnce(st, st', user, asset, n - 1, z);
    }
  }

  lemma {:induction false} HeldChangesOnce(st: Store, st': Store, user: nat, asset: string, n: nat, x: nat)
    requires 1 <= x <= n
    requires forall id :: 1 <= id <= n && id != x ==> HeldBy(st', user, asset, id) == HeldBy(st, user, asset, id)
    ensures HeldUpTo(st', user, asset, n) ==
      HeldUpTo(st, user, asset, n) - HeldBy(st, user, asset, x) + HeldBy(st', user, asset, x)
  {
    if x < n {
      HeldChangesOnce(st, st', user, asset, n - 1, x);
    } else {
      HeldSame(st, st', user, asset, n - 1);
    }
  }

  // -------------------------------------------------------- one journal at a time

  lemma OtherHalfKept(x: Exchange, x': Exchange, j: Journal)
    requires T.Inv(TransfersOf(x))
    requires j.refKind != RefTransfer && !T.IsTransferKey(j.key)
    requires Record(x.store.ledger, j).Ok?
    requires x'.rows == x.rows && x'.facts == x.facts && x'.store.ledger == Record(x.store.ledger, j).value.ledger
    ensures T.Inv(TransfersOf(x'))
  {
    T.StepKeepsInv(TransfersOf(x), T.Elsewhere(j));
  }

  lemma MoveDelta(o: Order, from: AccountKind, to: AccountKind, amount: real, user: nat, asset: string)
    requires {from, to} == {UserAvailable, UserLocked}
    ensures Delta(MovePostings(o, from, to, amount), Locked(user, asset)) ==
      if o.user == user && HoldAsset(o) == asset then (if to == UserLocked then amount else -amount) else 0.0
  {
    var ps := MovePostings(o, from, to, amount);
    DeltaOfTwo(ps[0], ps[1], Locked(user, asset));
  }

  lemma PlaceKeepsInv(x: Exchange, o: Order)
    requires Inv(x) && Parsed(o) && PlaceOrder(x.store, o).Ok?
    ensures Inv(x.(store := PlaceOrder(x.store, o).value))
  {
    hide Record;
    var st, st' := x.store, PlaceOrder(x.store, o).value;
    var id := |st.orders| + 1;
    var j := PlaceJournal(id, o);
    RecordNewMoves(st.ledger, j);
    OtherHalfKept(x, x.(store := st'), j);
    forall user, asset
      ensures Balance(st'.ledger, Locked(user, asset)) == Held(st', user, asset) + Withdrawing(x.rows, user, asset)
    {
      MoveDelta(o, UserAvailable, UserLocked, HoldAmount(o), user, asset);
      HeldSame(st, st', user, asset, |st.orders|);
      NewOrderReserves(st.trades, id, o);
    }
  }

  lemma NewOrderReserves(trades: seq<Trade>, id: nat, o: Order)
    requires Parsed(o) && BuyerFees(trades, id) == 0.0
    ensures Reserved(trades, id, o) == HoldAmount(o)
  {
    assert Remaining(o) == o.amount;
  }

  /** Giving back exactly what an open order reserves, and closing it. */
  lemma ReleaseKeepsInv(x: Exchange, id: nat, amount: real, reason: ReleaseReason, status: Status)
    requires Inv(x) && HasOrder(x.store.orders, id) && IsOpen(x.store.orders[id - 1])
    requires status != Pending && status != Partial
    requires amount == Reserved(x.store.trades, id, x.store.orders[id - 1])
    requires ReleaseAndClose(x.store, id, amount, reason, status).Ok?
    ensures Inv(x.(store := ReleaseAndClose(x.store, id, amount, reason, status).value))
  {
    hide Record, Reserved;
    var st := x.store;
    var o := st.orders[id - 1];
    var st' := ReleaseAndClose(st, id, amount, reason, status).value;
    var j := ReleaseJournal(id, o, amount, reason);
    RecordNewMoves(st.ledger, j);
    OtherHalfKept(x, x.(store := st'), j);
    forall user, asset
      ensures Balance(st'.ledger, Locked(user, asset)) == Held(st', user, asset) + Withdrawing(x.rows, user, asset)
    {
      MoveDelta(o, UserLocked, UserAvailable, amount, user, asset);
      HeldChangesOnce(st, st', user, asset, |st.orders|, id);
      ClosedReservesNothing(st'.trades, id, st'.orders[id - 1]);
    }
  }

  lemma ClosedReservesNothing(trades: seq<Trade>, id: nat, o: Order)
    requires !IsOpen(o)
    ensures Reserved(trades, id, o) == 0.0
  {
  }

  lemma CloseKeepsInv(x: Exchange, id: nat, status: Status)
    requires Inv(x) && HasOrder(x.store.orders, id) && IsOpen(x.store.orders[id - 1])
    requires status != Pending && status != Partial
    requires Reserved(x.store.trades, id, x.store.orders[id - 1]) == 0.0
    ensures Inv(x.(store := Close(x.store, id, status)))
  {
    hide Reserved;
    var st, st' := x.store, Close(x.store, id, status);
    forall user, asset
      ensures Balance(st'.ledger, Locked(user, asset)) == Held(st', user, asset) + Withdrawing(x.rows, user, asset)
    {
      HeldChangesOnce(st, st', user, asset, |st.orders|, id);
      ClosedReservesNothing(st'.trades, id, st'.orders[id - 1]);
    }
  }

  lemma CancelKeepsInv(x: Exchange, id: nat)
    requires Inv(x) && CancelOrder(x.store, id).Ok?
    ensures Inv(x.(store := CancelOrder(x.store, id).value))
  {
    hide ReleaseAndClose, Inv;
    if CancelOrder(x.store, id).value != x.store {
      ShapeOf(x, id);
      var o := x.store.orders[id - 1];
      ReleaseKeepsInv(x, id, Reserved(x.store.trades, id, o), ReasonCancel, Cancelled);
    }
  }

  lemma ShapeOf(x: Exchange, id: nat)
    requires Inv(x) && HasOrder(x.store.orders, id)
    ensures Shaped(x.store.orders[id - 1])
    ensures x.store.orders[id - 1].side == Buy ==>
      BuyerFees(x.store.trades, id) == TradingFee(x.store.orders[id - 1].filledQuote)
  {
  }

  lemma CompleteKeepsInv(x: Exchange, c: Completion)
    requires Inv(x) && Enabled(x, Complete(c)) && CompleteMarket(x.store, c).Ok?
    ensures Inv(x.(store := CompleteMarket(x.store, c).value))
  {
    hide ReleaseAndClose, Close, Inv;
    var o := x.store.orders[c.order - 1];
    if o.status != Filled && o.status != Cancelled {
      var amount := Reserved(x.store.trades, c.order, o);
      var bought := if c.remainingQuote > 0.0 then Cancelled else Filled;
      var sold := if o.filled == o.amount then Filled else Cancelled;
      var status := if o.side == Buy then bought else sold;
      if amount > 0.0 {
        ReleaseKeepsInv(x, c.order, amount, ReasonMarketRemain, status);
      } else {
        CloseKeepsInv(x, c.order, status);
      }
    }
  }

  lemma RejectKeepsInv(x: Exchange, id: nat)
    requires Inv(x) && Enabled(x, Reject(id)) && RejectOrder(x.store, id).Ok?
    ensures Inv(x.(store := RejectOrder(x.store, id).value))
  {
    hide ReleaseAndClose, Inv;
    var o := x.store.orders[id - 1];
    ShapeOf(x, id);
    assert BuyerFees(x.store.trades, id) == 0.0 || o.side == Sell;
    assert Remaining(o) == o.amount;
    ReleaseKeepsInv(x, id, HoldAmount(o), ReasonRejected, Rejected);
  }

  lemma TransferKeepsInv(x: Exchange, e: T.Event)
    requires Inv(x) && !e.Elsewhere?
    ensures Inv(Do(x, Transferring(e)))
  {
    hide T.Step, T.Inv, T.TotalEffect;
    var b := TransfersOf(x);
    var x' := Do(x, Transferring(e));
    T.StepKeepsInv(b, e);
    T.StepAccounted(b, e);
    assert TransfersOf(x') == T.Step(b, e);
    forall user, asset
      ensures Balance(x'.store.ledger, Locked(user, asset)) == Held(x'.store, user, asset) + Withdrawing(x'.rows, user, asset)
    {
      HeldSame(x.store, x'.store, user, asset, |x.store.orders|);
    }
  }

  lemma FundKeepsInv(x: Exchange, j: Journal)
    requires Inv(x) && Enabled(x, Fund(j))
    ensures Inv(Do(x, Fund(j)))
  {
    var x' := Do(x, Fund(j));
    if x'.store.ledger != x.store.ledger {
      OtherHalfKept(x, x', j);
      forall user, asset
        ensures Balance(x'.store.ledger, Locked(user, asset)) == Held(x'.store, user, asset) + Withdrawing(x'.rows, user, asset)
      {
        PostMoves(x.store.ledger, j, Locked(user, asset));
        assert Locked(user, asset) !in Touched(j.postings);
        DeltaUntouched(j.postings, Locked(user, asset));
        HeldSame(x.store, x'.store, user, asset, |x.store.orders|);
      }
    }
  }

  // ------------------------------------------------------------------ settlement

  /** On locked accounts a trade does two things: it takes the buyer's reserved debit
      and the seller's quantity. */
  lemma TradeDelta(t: Trade, buyer: nat, seller: nat, reserved: real, cost: real, net: real, user: nat, asset: string)
    ensures Delta(TradePostings(t, buyer, seller, reserved, cost, net), Locked(user, asset)) ==
      (if user == buyer && asset == KRW then -reserved else 0.0)
      + (if user == seller && asset == t.symbol then -t.quantity else 0.0)
  {
    var a := Locked(user, asset);
    var ps := TradePostings(t, buyer, seller, reserved, cost, net);
    var p01, p23, tail := ps[..2], ps[2..4], ps[4..];
    assert ps == p01 + p23 + tail;
    DeltaAppend(p01 + p23, tail, a);
    DeltaAppend(p01, p23, a);
    assert p01 == [ps[0], ps[1]] && p23 == [ps[2], ps[3]];
    DeltaOfTwo(ps[0], ps[1], a);
    DeltaOfTwo(ps[2], ps[3], a);
    assert forall p :: p in tail ==> p.kind != UserLocked;
    assert a !in Touched(tail);
    DeltaUntouched(tail, a);
  }

  /** The buyer's reservation falls by exactly the reserved debit of the trade. */
  lemma BuyerReservationFalls(trades: seq<Trade>, t: Trade, b: Order, b': Order)
    requires b.side == Buy && IsOpen(b) && Fill(b, t.quantity, Quote(t)) == Ok(b')
    requires IsMarketBuy(b) ==> b'.filledQuote < b'.quote && t.buyerFee == TradingFee(Quote(t))
    ensures Reserved(trades + [t], t.buyOrder, b') == Reserved(trades, t.buyOrder, b) - ReservedDebit(b, t)
  {
    assert (trades + [t])[..|trades|] == trades;
    if b.kind == Limit {
      NotionalSplits(b.price, Remaining(b'), t.quantity);
      assert Remaining(b) == Remaining(b') + t.quantity;
      assert b'.status == Filled ==> Notional(b.price, Remaining(b')) == 0.0;
    }
  }

  lemma NotionalSplits(price: real, x: real, y: real)
    ensures Notional(price, x + y) == Notional(price, x) + Notional(price, y)
  {
  }

  lemma SellerReservationFalls(trades: seq<Trade>, t: Trade, s: Order, s': Order)
    requires s.side == Sell && IsOpen(s) && Fill(s, t.quantity, Quote(t)) == Ok(s')
    ensures Reserved(trades + [t], t.sellOrder, s') == Reserved(trades, t.sellOrder, s) - t.quantity
  {
  }

  lemma BuyerFeesNext(trades: seq<Trade>, t: Trade, id: nat)
    ensures BuyerFees(trades + [t], id) == BuyerFees(trades, id) + (if t.buyOrder == id then t.buyerFee else 0.0)
  {
    assert (trades + [t])[..|trades|] == trades;
  }

  lemma OthersReserveTheSame(st: Store, st': Store, t: Trade, user: nat, asset: string, id: nat)
    requires |st'.orders| == |st.orders| && st'.trades == st.trades + [t]
    requires forall i :: 0 <= i < |st.orders| && i + 1 != t.buyOrder && i + 1 != t.sellOrder ==> st'.orders[i] == st.orders[i]
    requires id != t.buyOrder && id != t.sellOrder
    ensures HeldBy(st', user, asset, id) == HeldBy(st, user, asset, id)
  {
    BuyerFeesNext(st.trades, t, id);
  }

  /** The parts of a settled store. */
  lemma ApplyParts(st: Store, t: Trade)
    requires ApplyTrade(st, t).Ok?
    ensures HasOrder(st.orders, t.buyOrder) && HasOrder(st.orders, t.sellOrder) && t.buyOrder != t.sellOrder
    ensures var st' := ApplyTrade(st, t).value;
      var b, s := st.orders[t.buyOrder - 1], st.orders[t.sellOrder - 1];
      && TermsAgree(t, b, s) && IsOpen(b) && IsOpen(s)
      && |st'.orders| == |st.orders|
      && Fill(b, t.quantity, Quote(t)) == Ok(st'.orders[t.buyOrder - 1])
      && Fill(s, t.quantity, Quote(t)) == Ok(st'.orders[t.sellOrder - 1])
      && (forall i :: 0 <= i < |st.orders| && i + 1 != t.buyOrder && i + 1 != t.sellOrder ==> st'.orders[i] == st.orders[i])
      && st'.trades == st.trades + [t] && st'.outbox == st.outbox
      && PlanTrade(t, b, s).Ok?
      && var j := TradeJournal(t, |st.trades| + 1, PlanTrade(t, b, s).value.postings);
         Record(st.ledger, j).Ok? && st'.ledger == Record(st.ledger, j).value.ledger
  {
    hide Record, Fill, PlanTrade, RaiseAverage, ClearAverage;
  }

  lemma TradeMovesLocked(st: Store, t: Trade, user: nat, asset: string)
    requires KeysAccounted(st) && FindTrade(st.trades, t.key).None? && ApplyTrade(st, t).Ok?
    ensures HasOrder(st.orders, t.buyOrder) && HasOrder(st.orders, t.sellOrder)
    ensures var b, s := st.orders[t.buyOrder - 1], st.orders[t.sellOrder - 1];
      Balance(ApplyTrade(st, t).value.ledger, Locked(user, asset)) == Balance(st.ledger, Locked(user, asset))
      + (if user == b.user && asset == KRW then -ReservedDebit(b, t) else 0.0)
      + (if user == s.user && asset == t.symbol then -t.quantity else 0.0)
  {
    hide ApplyTrade, Record, ReservedDebit, FindTrade, Fill, TradePostings;
    ApplyParts(st, t);
    var b, s := st.orders[t.buyOrder - 1], st.orders[t.sellOrder - 1];
    var plan := PlanTrade(t, b, s).value;
    RecordNewMoves(st.ledger, TradeJournal(t, |st.trades| + 1, plan.postings));
    TradeDelta(t, b.user, s.user, ReservedDebit(b, t), plan.cost, Quote(t) - t.sellerFee, user, asset);
  }

  lemma TradeMovesHeld(st: Store, t: Trade, user: nat, asset: string)
    requires t.buyerFee == TradingFee(Quote(t)) && ApplyTrade(st, t).Ok?
    requires HasOrder(st.orders, t.buyOrder) && HasOrder(st.orders, t.sellOrder)
    requires var b := st.orders[t.buyOrder - 1]; IsMarketBuy(b) ==> b.filledQuote + Quote(t) < b.quote
    ensures var b, s := st.orders[t.buyOrder - 1], st.orders[t.sellOrder - 1];
      Held(ApplyTrade(st, t).value, user, asset) == Held(st, user, asset)
      + (if user == b.user && asset == KRW then -ReservedDebit(b, t) else 0.0)
      + (if user == s.user && asset == t.symbol then -t.quantity else 0.0)
  {
    hide ApplyTrade, Record, Reserved, ReservedDebit, Fill, PlanTrade;
    ApplyParts(st, t);
    var st' := ApplyTrade(st, t).value;
    var b, s := st.orders[t.buyOrder - 1], st.orders[t.sellOrder - 1];
    forall id | 1 <= id <= |st.orders| && id != t.buyOrder && id != t.sellOrder
      ensures HeldBy(st', user, asset, id) == HeldBy(st, user, asset, id)
    {
      OthersReserveTheSame(st, st', t, user, asset, id);
    }
    HeldChanges(st, st', user, asset, |st.orders|, t.buyOrder, t.sellOrder);
    BuyerReservationFalls(st.trades, t, b, st'.orders[t.buyOrder - 1]);
    SellerReservationFalls(st.trades, t, s, st'.orders[t.sellOrder - 1]);
  }

  lemma FillKeepsShape(o: Order, quantity: real, quote: real)
    requires Shaped(o) && Fill(o, quantity, quote).Ok?
    ensures Shaped(Fill(o, quantity, quote).value)
  {
  }

  lemma SettleKeepsTables(x: Exchange, t: Trade)
    requires Inv(x) && WellFormed(t) && t.buyerFee == TradingFee(Quote(t))
    requires FindTrade(x.store.trades, t.key).None? && ApplyTrade(x.store, t).Ok?
    ensures var st' := ApplyTrade(x.store, t).value;
      && T.Inv(TransfersOf(x.(store := st')))
      && (forall i :: 0 <= i < |st'.orders| ==> Shaped(st'.orders[i]))
      && FeesMatch(st')
  {
    hide ApplyTrade, Record, T.Inv, Covered, KeysAccounted, Fill, Shaped;
    ApplyParts(x.store, t);
    var st, st' := x.store, ApplyTrade(x.store, t).value;
    var b, s := st.orders[t.buyOrder - 1], st.orders[t.sellOrder - 1];
    OtherHalfKept(x, x.(store := st'), TradeJournal(t, |st.trades| + 1, PlanTrade(t, b, s).value.postings));
    FillKeepsShape(b, t.quantity, Quote(t));
    FillKeepsShape(s, t.quantity, Quote(t));
    forall id: nat ensures BuyerFees(st'.trades, id) ==
      if HasOrder(st'.orders, id) && st'.orders[id - 1].side == Buy then TradingFee(st'.orders[id - 1].filledQuote) else 0.0
    {
      BuyerFeesNext(st.trades, t, id);
    }
  }

  lemma SettleKeepsKeys(st: Store, t: Trade)
    requires KeysAccounted(st) && FindTrade(st.trades, t.key).None? && ApplyTrade(st, t).Ok?
    ensures KeysAccounted(ApplyTrade(st, t).value)
  {
    hide ApplyTrade, Record, Fill;
    ApplyParts(st, t);
    var st' := ApplyTrade(st, t).value;
    var b, s := st.orders[t.buyOrder - 1], st.orders[t.sellOrder - 1];
    var j := TradeJournal(t, |st.trades| + 1, PlanTrade(t, b, s).value.postings);
    RecordNewMoves(st.ledger, j);
    forall k | FindTrade(st.trades, k).Some? || k == t.key ensures FindTrade(st'.trades, k).Some? {
      if FindTrade(st.trades, k).Some? {
        assert st'.trades[FindTrade(st.trades, k).value].key == k;
      }
      assert st'.trades[|st.trades|] == t;
    }
    forall i | 0 <= i < |st.orders| && !IsOpen(st.orders[i]) ensures !IsOpen(st'.orders[i]) {
    }
  }

  lemma SettleKeepsInv(x: Exchange, item: Item)
    requires Inv(x) && Enabled(x, Settle(item))
    ensures Inv(Do(x, Settle(item)))
  {
    hide ApplyTrade, T.Inv, FindTrade, Covered, KeysAccounted, FeesMatch, Shaped;
    var r := SettleTrade(x.store, item);
    if r.Ok? {
      var t := WithFees(item.trade);
      if FindTrade(x.store.trades, t.key).None? {
        assert Quote(t) == Quote(item.trade);
        SettleFreshKeepsInv(x, t);
        MarkKeepsInv(x.(store := ApplyTrade(x.store, t).value), r.value.0);
      } else {
        MarkKeepsInv(x, r.value.0);
      }
    }
  }

  lemma SettleFreshKeepsInv(x: Exchange, t: Trade)
    requires Inv(x) && WellFormed(t) && t.buyerFee == TradingFee(Quote(t))
    requires FindTrade(x.store.trades, t.key).None? && ApplyTrade(x.store, t).Ok?
    requires HasOrder(x.store.orders, t.buyOrder) && IsMarketBuy(x.store.orders[t.buyOrder - 1]) ==>
      x.store.orders[t.buyOrder - 1].filledQuote + Quote(t) < x.store.orders[t.buyOrder - 1].quote
    ensures Inv(x.(store := ApplyTrade(x.store, t).value))
  {
    hide ApplyTrade, T.Inv, FindTrade, KeysAccounted, FeesMatch, Shaped, Held, ReservedDebit;
    ApplyParts(x.store, t);
    SettleKeepsTables(x, t);
    SettleKeepsKeys(x.store, t);
    forall user, asset
      ensures var st' := ApplyTrade(x.store, t).value;
        Balance(st'.ledger, Locked(user, asset)) == Held(st', user, asset) + Withdrawing(x.rows, user, asset)
    {
      TradeMovesLocked(x.store, t, user, asset);
      TradeMovesHeld(x.store, t, user, asset);
    }
  }

  lemma MarkKeepsInv(x: Exchange, st': Store)
    requires Inv(x) && st' == x.store.(outbox := st'.outbox)
    ensures Inv(x.(store := st'))
  {
    hide T.Inv;
    forall user, asset ensures Held(st', user, asset) == Held(x.store, user, asset) {
      HeldSame(x.store, st', user, asset, |x.store.orders|);
    }
  }

  // ---------------------------------------------------------------- the theorem

  lemma StepKeepsInv(x: Exchange, a: Action)
    requires Inv(x) && Enabled(x, a)
    ensures Inv(Do(x, a))
  {
    hide Inv, Enabled, PlaceOrder, SettleTrade, CancelOrder, CompleteMarket, RejectOrder, T.Step, Record;
    match a
    case Place(o) => if PlaceOrder(x.store, o).Ok? { PlaceStep(x, o); }
    case Settle(item) => SettleKeepsInv(x, item);
    case Cancel(id) => if CancelOrder(x.store, id).Ok? { CancelKeepsInv(x, id); }
    case Complete(c) => if CompleteMarket(x.store, c).Ok? { CompleteKeepsInv(x, c); }
    case Reject(id) => if RejectOrder(x.store, id).Ok? { RejectKeepsInv(x, id); }
    case Transferring(e) => TransferStep(x, e);
    case Fund(j) => FundKeepsInv(x, j);
  }

  lemma PlaceStep(x: Exchange, o: Order)
    requires Inv(x) && Enabled(x, Place(o)) && PlaceOrder(x.store, o).Ok?
    ensures Inv(x.(store := PlaceOrder(x.store, o).value))
  {
    hide Inv, PlaceOrder;
    PlaceKeepsInv(x, o);
  }

  lemma TransferStep(x: Exchange, e: T.Event)
    requires Inv(x) && Enabled(x, Transferring(e))
    ensures Inv(Do(x, Transferring(e)))
  {
    hide Inv, Do;
    TransferKeepsInv(x, e);
  }

  /** In every run of placing, settling, cancelling, completing, rejecting, funding and
      transferring, every user's locked balance in every asset is exactly what the
      user's open orders and unresolved withdrawals reserve. */
  lemma {:induction false} LockedIsExactlyReserved(xs: seq<Exchange>, actions: seq<Action>)
    requires IsRun(xs, actions) && Inv(xs[0])
    ensures forall i :: 0 <= i < |xs| ==> Inv(xs[i])
  {
    hide Inv, Do, Enabled;
    if actions != [] {
      var n := |actions| - 1;
      assert xs[..n + 1][0] == xs[0];
      LockedIsExactlyReserved(xs[..n + 1], actions[..n]);
      assert Inv(xs[..n + 1][n]);
      StepKeepsInv(xs[n], actions[n]);
    }
  }
}
