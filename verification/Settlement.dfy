/** Orders, trades and the tables a settlement transaction reads and writes, and the
    settlement of one trade as one atomic step. Row ids are positions plus one. */
module Settlement {
  import opened Prelude
  import opened Ledger
  import opened Fees

  const KRW := "KRW"

  datatype Status = Pending | Partial | Filled | Cancelled | Rejected

  datatype Order = Order(
    user: nat, symbol: string, side: Side, kind: OrderKind,
    price: real, amount: real, quote: real,
    filled: real, filledQuote: real, status: Status)

  datatype Trade = Trade(
    key: string, sequence: int, eventId: string, symbol: string,
    price: real, quantity: real,
    feeRate: real, buyerFee: real, sellerFee: real,
    buyOrder: nat, sellOrder: nat)

  /** `outbox` maps a committed row to whether it is PROCESSED; `averages` holds the
      average buy price of a user in an asset. */
  datatype Store = Store(
    orders: seq<Order>, trades: seq<Trade>, ledger: LedgerState,
    outbox: map<nat, bool>, averages: map<(nat, string), real>)

  predicate IsOpen(o: Order) {
    o.status == Pending || o.status == Partial
  }

  predicate HasOrder(orders: seq<Order>, id: nat) {
    1 <= id <= |orders|
  }

  function Notional(price: real, quantity: real): real {
    price * quantity
  }

  function Quote(t: Trade): real {
    Notional(t.price, t.quantity)
  }

  // --------------------------------------------------------------- preparation

  predicate WellFormed(t: Trade) {
    && t.symbol != ""
    && t.buyOrder != 0 && t.sellOrder != 0
    && t.price > 0.0 && t.quantity > 0.0
    && t.sequence >= 0
  }

  /** Fills in the fees of a trade that does not carry any yet. */
  function WithFees(t: Trade): Trade {
    if t.feeRate > 0.0 then t
    else t.(feeRate := FEE_RATE, buyerFee := TradingFee(Quote(t)), sellerFee := TradingFee(Quote(t)))
  }

  function Prepare(t: Trade): Result<Trade> {
    if WellFormed(t) then Ok(WithFees(t)) else Err(Invalid)
  }

  function FindTrade(ts: seq<Trade>, key: string): (r: Option<nat>)
    ensures r.Some? ==> r.value < |ts| && ts[r.value].key == key
    ensures r.None? ==> forall i :: 0 <= i < |ts| ==> ts[i].key != key
  {
    if ts == [] then None
    else if ts[|ts| - 1].key == key then Some(|ts| - 1)
    else FindTrade(ts[..|ts| - 1], key)
  }

  // --------------------------------------------------------------------- fills

  /** Adds one trade to an order. A market buy is measured in quote, everything else
      in quantity; reaching the measure fills the order, passing it is refused. */
  function Fill(o: Order, quantity: real, quote: real): (r: Result<Order>)
    ensures r.Ok? ==>
      && r.value == o.(filled := o.filled + quantity, filledQuote := o.filledQuote + quote, status := r.value.status)
      && (r.value.status == Filled || r.value.status == Partial)
      && (r.value.status == Filled <==> Measure(r.value) == Target(r.value))
      && Measure(r.value) <= Target(r.value)
  {
    if quantity <= 0.0 || quote <= 0.0 then Err(Invalid)
    else
      var o' := o.(filled := o.filled + quantity, filledQuote := o.filledQuote + quote);
      if Measure(o') > Target(o') then Err(Conflict)
      else Ok(o'.(status := if Measure(o') == Target(o') then Filled else Partial))
  }

  predicate IsMarketBuy(o: Order) {
    o.kind == Market && o.side == Buy
  }

  function Measure(o: Order): real {
    if IsMarketBuy(o) then o.filledQuote else o.filled
  }

  function Target(o: Order): real {
    if IsMarketBuy(o) then o.quote else o.amount
  }

  // ---------------------------------------------------------------------- plan

  datatype Plan = Plan(postings: seq<Posting>, cost: real)

  /** What a buyer reserved for the traded quantity: the limit price decides for a
      limit order, the execution price for a market order. */
  function ReservedDebit(b: Order, t: Trade): real {
    if b.kind == Market then WithFee(Quote(t)) else WithFee(Notional(b.price, t.quantity))
  }

  function UserPosting(kind: AccountKind, user: nat, asset: string, amount: real): Posting {
    Posting(kind, Some(user), asset, amount)
  }

  function TradePostings(t: Trade, buyer: nat, seller: nat, reserved: real, cost: real, net: real): seq<Posting> {
    [ UserPosting(UserLocked, buyer, KRW, -reserved),
      UserPosting(UserAvailable, seller, KRW, net),
      UserPosting(UserLocked, seller, t.symbol, -t.quantity),
      UserPosting(UserAvailable, buyer, t.symbol, t.quantity) ]
    + (if reserved - cost > 0.0 then [UserPosting(UserAvailable, buyer, KRW, reserved - cost)] else [])
    + (if t.buyerFee + t.sellerFee > 0.0 then [Posting(FeeIncome, None, KRW, t.buyerFee + t.sellerFee)] else [])
  }

  function PlanTrade(t: Trade, b: Order, s: Order): Result<Plan> {
    var net := Quote(t) - t.sellerFee;
    if Quote(t) <= 0.0 || t.sellerFee < 0.0 || net <= 0.0 then Err(Invalid)
    else
      var cost := Quote(t) + t.buyerFee;
      Ok(Plan(TradePostings(t, b.user, s.user, ReservedDebit(b, t), cost, net), cost))
  }

  // ------------------------------------------------------------------ averages

  function Holdings(l: LedgerState, user: nat, asset: string): real {
    Balance(l, Account(UserAvailable, user, asset)) + Balance(l, Account(UserLocked, user, asset))
  }

  /** The acquisition cost joins the old average, weighted by the old quantity. */
  function NextAverage(previous: real, total: real, quantity: real, cost: real): real
    requires total > 0.0
  {
    DivRound(previous * (total - quantity) + cost, total)
  }

  function RaiseAverage(
    averages: map<(nat, string), real>, l: LedgerState, user: nat, asset: string, quantity: real, cost: real
  ): Result<map<(nat, string), real>>
  {
    var total := Holdings(l, user, asset);
    if quantity <= 0.0 || total <= 0.0 then Err(Invalid)
    else
      var previous := if (user, asset) in averages then averages[(user, asset)] else 0.0;
      Ok(averages[(user, asset) := NextAverage(previous, total, quantity, cost)])
  }

  function ClearAverage(
    averages: map<(nat, string), real>, l: LedgerState, user: nat, asset: string
  ): map<(nat, string), real>
  {
    if (user, asset) in averages && Holdings(l, user, asset) <= 0.0 then averages[(user, asset) := 0.0] else averages
  }

  // ---------------------------------------------------------------- settlement

  /** What of a trade and its two orders can be checked before any order state is
      looked at: sides, symbols and two distinct known users. */
  predicate TermsAgree(t: Trade, b: Order, s: Order) {
    && b.side == Buy && s.side == Sell
    && b.symbol == t.symbol && s.symbol == t.symbol
    && b.user != 0 && s.user != 0 && b.user != s.user
  }

  function TradeJournal(t: Trade, id: nat, postings: seq<Posting>): Journal {
    Journal(TradeEvent, TradeKey(t.key), RefTrade, id, None, postings)
  }

  /** Ledger and averages after one planned trade. */
  function Book(l: LedgerState, averages: map<(nat, string), real>, t: Trade, id: nat, plan: Plan, b: Order, s: Order)
    : Result<(LedgerState, map<(nat, string), real>)>
  {
    match Record(l, TradeJournal(t, id, plan.postings))
    case Err(e) => Err(e)
    case Ok(done) =>
      match RaiseAverage(averages, done.ledger, b.user, t.symbol, t.quantity, plan.cost)
      case Err(e) => Err(e)
      case Ok(raised) => Ok((done.ledger, ClearAverage(raised, done.ledger, s.user, t.symbol)))
  }

  /** Settles a trade whose key is new. */
  function ApplyTrade(st: Store, t: Trade): Result<Store> {
    if !HasOrder(st.orders, t.buyOrder) || !HasOrder(st.orders, t.sellOrder) then Err(NotFound)
    else
      var b, s := st.orders[t.buyOrder - 1], st.orders[t.sellOrder - 1];
      if !TermsAgree(t, b, s) then Err(Invalid)
      else if !IsOpen(b) || !IsOpen(s) then Err(Conflict)
      else
        match (Fill(b, t.quantity, Quote(t)), Fill(s, t.quantity, Quote(t)), PlanTrade(t, b, s))
        case (Ok(b'), Ok(s'), Ok(plan)) =>
          (match Book(st.ledger, st.averages, t, |st.trades| + 1, plan, b, s)
           case Err(e) => Err(e)
           case Ok((ledger, averages)) =>
             Ok(st.(orders := st.orders[t.buyOrder - 1 := b'][t.sellOrder - 1 := s'],
                    trades := st.trades + [t], ledger := ledger, averages := averages)))
        case _ => Err(Conflict)
  }

  function MarkOutbox(outbox: map<nat, bool>, id: nat): map<nat, bool> {
    if id == 0 || id !in outbox then outbox else outbox[id := true]
  }

  datatype Item = Item(trade: Trade, outboxId: nat)
  datatype Settled = Settled(applied: bool, duplicate: bool, tradeId: nat)

  /** One settlement transaction: a known key with the same payload is a duplicate
      without effect, with another payload it is refused. */
  function SettleTrade(st: Store, item: Item): Result<(Store, Settled)> {
    match Prepare(item.trade)
    case Err(e) => Err(e)
    case Ok(t) =>
      match FindTrade(st.trades, t.key)
      case Some(i) =>
        if st.trades[i] == t
        then Ok((st.(outbox := MarkOutbox(st.outbox, item.outboxId)), Settled(false, true, i + 1)))
        else Err(Conflict)
      case None =>
        match ApplyTrade(st, t)
        case Err(e) => Err(e)
        case Ok(st') =>
          Ok((st'.(outbox := MarkOutbox(st'.outbox, item.outboxId)), Settled(true, false, |st.trades| + 1)))
  }

  /** Settling a list one by one, stopping at the first failure. */
  function SettleEach(st: Store, items: seq<Item>): Result<(Store, seq<Settled>)> {
    if items == [] then Ok((st, []))
    else
      match SettleEach(st, items[..|items| - 1])
      case Err(e) => Err(e)
      case Ok((mid, done)) =>
        match SettleTrade(mid, items[|items| - 1])
        case Err(e) => Err(e)
        case Ok((last, r)) => Ok((last, done + [r]))
  }
}
