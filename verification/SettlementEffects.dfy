/** What settling one trade means: who gains and loses what, what happens to the two
    orders, and that settling it again changes nothing. */
module SettlementEffects {
  import opened Prelude
  import opened Ledger
  import opened Fees
  import opened Settlement
  import opened Reservation
  import opened Progress
  import T = Transfers

  /** The buyer pays out of the reserved part and gets the rest of it back, the coins
      change hands, the seller gets the quote less a fee, and both fees are income. */
  function TradeEffect(t: Trade, b: Order, s: Order, a: Account): real {
    var reserved, cost := ReservedDebit(b, t), Quote(t) + t.buyerFee;
    T.At(a, UserLocked, b.user, KRW, -reserved) + T.At(a, UserAvailable, s.user, KRW, Quote(t) - t.sellerFee)
    + T.At(a, UserLocked, s.user, t.symbol, -t.quantity) + T.At(a, UserAvailable, b.user, t.symbol, t.quantity)
    + T.At(a, UserAvailable, b.user, KRW, reserved - cost) + T.At(a, FeeIncome, 0, KRW, t.buyerFee + t.sellerFee)
  }

  /** An order has traded this much more, and is FILLED exactly when its measure is full. */
  predicate Advanced(o: Order, o': Order, quantity: real, quote: real) {
    && o' == o.(filled := o.filled + quantity, filledQuote := o.filledQuote + quote, status := o'.status)
    && Measure(o') <= Target(o') && o'.status == (if Measure(o') == Target(o') then Filled else Partial)
  }

  function AverageOf(st: Store, user: nat, asset: string): real {
    if (user, asset) in st.averages then st.averages[(user, asset)] else 0.0
  }

  /** The buyer's average price values all they now hold at what it cost them, to half a
      unit of the last digit; a seller who holds nothing more has none; no other average
      moves. */
  ghost predicate Averaged(st: Store, st': Store, t: Trade, buyer: nat, seller: nat) {
    var held := Holdings(st'.ledger, buyer, t.symbol);
    var cost := AverageOf(st, buyer, t.symbol) * (held - t.quantity) + Quote(t) + t.buyerFee;
    && held > 0.0 && -HALF_UNIT * held <= AverageOf(st', buyer, t.symbol) * held - cost <= HALF_UNIT * held
    && (Holdings(st'.ledger, seller, t.symbol) <= 0.0 ==> AverageOf(st', seller, t.symbol) == 0.0)
    && forall user: nat, asset ::
         (user, asset) != (buyer, t.symbol)
         && ((user, asset) != (seller, t.symbol) || Holdings(st'.ledger, seller, t.symbol) > 0.0) ==>
         AverageOf(st', user, asset) == AverageOf(st, user, asset)
  }

  /** Two orders that may trade with each other. */
  predicate Parties(t: Trade, b: Order, s: Order) {
    && b.side == Buy && s.side == Sell && b.symbol == t.symbol && s.symbol == t.symbol
    && b.user != 0 && s.user != 0 && b.user != s.user
    && b.status in {Pending, Partial} && s.status in {Pending, Partial}
  }

  ghost predicate Exchanged(st: Store, st': Store, t: Trade) {
    && HasOrder(st.orders, t.buyOrder) && HasOrder(st.orders, t.sellOrder) && t.buyOrder != t.sellOrder
    && |st'.orders| == |st.orders| && st'.trades == st.trades + [t]
    && var b, s := st.orders[t.buyOrder - 1], st.orders[t.sellOrder - 1];
       && Parties(t, b, s) && Averaged(st, st', t, b.user, s.user)
       && ReservedDebit(b, t) >= Quote(t) + t.buyerFee && t.buyerFee + t.sellerFee >= 0.0
       && Advanced(b, st'.orders[t.buyOrder - 1], t.quantity, Quote(t))
       && Advanced(s, st'.orders[t.sellOrder - 1], t.quantity, Quote(t))
       && (forall i :: 0 <= i < |st.orders| && i + 1 != t.buyOrder && i + 1 != t.sellOrder ==> st'.orders[i] == st.orders[i])
       && forall a :: Balance(st'.ledger, a) == Balance(st.ledger, a) + TradeEffect(t, b, s, a)
  }

  lemma TradePostingsDelta(t: Trade, buyer: nat, seller: nat, reserved: real, cost: real, net: real, a: Account)
    requires reserved >= cost && t.buyerFee + t.sellerFee >= 0.0
    ensures Delta(TradePostings(t, buyer, seller, reserved, cost, net), a) ==
      T.At(a, UserLocked, buyer, KRW, -reserved) + T.At(a, UserAvailable, seller, KRW, net)
      + T.At(a, UserLocked, seller, t.symbol, -t.quantity) + T.At(a, UserAvailable, buyer, t.symbol, t.quantity)
      + T.At(a, UserAvailable, buyer, KRW, reserved - cost) + T.At(a, FeeIncome, 0, KRW, t.buyerFee + t.sellerFee)
  {
    hide Delta;
    var ps := TradePostings(t, buyer, seller, reserved, cost, net);
    var refund, fee := RefundLine(buyer, reserved - cost), FeeLine(t.buyerFee + t.sellerFee);
    assert ps == [ps[0], ps[1]] + [ps[2], ps[3]] + refund + fee;
    DeltaAppend([ps[0], ps[1]] + [ps[2], ps[3]] + refund, fee, a);
    DeltaAppend([ps[0], ps[1]] + [ps[2], ps[3]], refund, a);
    DeltaAppend([ps[0], ps[1]], [ps[2], ps[3]], a);
    DeltaOfTwo(ps[0], ps[1], a);
    DeltaOfTwo(ps[2], ps[3], a);
    NoDelta(a);
    if refund != [] { DeltaOfOne(refund[0], a); assert refund == [refund[0]]; }
    if fee != [] { DeltaOfOne(fee[0], a); assert fee == [fee[0]]; }
  }

  lemma NoDelta(a: Account)
    ensures Delta([], a) == 0.0
  {
  }

  /** A trade whose journal balances was covered by what the buyer reserved. */
  lemma BalancedTradeIsCovered(t: Trade, buyer: nat, seller: nat, reserved: real, cost: real, net: real)
    requires cost == net + t.buyerFee + t.sellerFee
    requires AssetSum(TradePostings(t, buyer, seller, reserved, cost, net), KRW) == 0.0
    ensures reserved >= cost && t.buyerFee + t.sellerFee >= 0.0
  {
    hide AssetSum;
    var ps := TradePostings(t, buyer, seller, reserved, cost, net);
    var refund, fee := RefundLine(buyer, reserved - cost), FeeLine(t.buyerFee + t.sellerFee);
    assert ps == [ps[0], ps[1]] + [ps[2], ps[3]] + refund + fee;
    AssetSumAppend([ps[0], ps[1]] + [ps[2], ps[3]] + refund, fee, KRW);
    AssetSumAppend([ps[0], ps[1]] + [ps[2], ps[3]], refund, KRW);
    AssetSumAppend([ps[0], ps[1]], [ps[2], ps[3]], KRW);
    AssetSumOfTwo(ps[0], ps[1], KRW);
    AssetSumOfTwo(ps[2], ps[3], KRW);
    NoSum();
    if refund != [] { AssetSumOfOne(refund[0], KRW); assert refund == [refund[0]]; }
    if fee != [] { AssetSumOfOne(fee[0], KRW); assert fee == [fee[0]]; }
  }

  lemma NoSum()
    ensures AssetSum([], KRW) == 0.0
  {
  }

  lemma ValidSums(j: Journal)
    requires ValidJournal(j)
    ensures AssetSum(j.postings, KRW) == 0.0
  {
    ValidJournalBalances(j, KRW);
  }

  lemma RecordedIsValid(l: LedgerState, j: Journal)
    requires Record(l, j).Ok?
    ensures ValidJournal(j)
  {
  }

  /** A trade under a new key that settles moves exactly this. */
  lemma ApplyExchanges(st: Store, t: Trade)
    requires KeysAccounted(st) && FindTrade(st.trades, t.key).None? && ApplyTrade(st, t).Ok?
    ensures Exchanged(st, ApplyTrade(st, t).value, t)
  {
    hide ApplyTrade, Record, ReservedDebit, FindTrade, TradePostings, ValidJournal, TradeEffect, Averaged;
    ApplyParts(st, t);
    ApplyAverages(st, t);
    var b, s := st.orders[t.buyOrder - 1], st.orders[t.sellOrder - 1];
    var reserved, cost, net := ReservedDebit(b, t), Quote(t) + t.buyerFee, Quote(t) - t.sellerFee;
    var j := TradeJournal(t, |st.trades| + 1, PlanTrade(t, b, s).value.postings);
    RecordedIsValid(st.ledger, j);
    ValidSums(j);
    BalancedTradeIsCovered(t, b.user, s.user, reserved, cost, net);
    RecordNewMoves(st.ledger, j);
    forall a ensures Delta(j.postings, a) == TradeEffect(t, b, s, a) {
      EffectIsDelta(t, b, s, a);
    }
  }

  lemma ApplyAverages(st: Store, t: Trade)
    requires ApplyTrade(st, t).Ok?
    ensures HasOrder(st.orders, t.buyOrder) && HasOrder(st.orders, t.sellOrder)
    ensures Averaged(st, ApplyTrade(st, t).value, t, st.orders[t.buyOrder - 1].user, st.orders[t.sellOrder - 1].user)
  {
    hide Record, Fill, TradePostings, DivRound;
    var st' := ApplyTrade(st, t).value;
    var b := st.orders[t.buyOrder - 1];
    var held := Holdings(st'.ledger, b.user, t.symbol);
    DivRoundIsNearest(AverageOf(st, b.user, t.symbol) * (held - t.quantity) + (Quote(t) + t.buyerFee), held);
  }

  lemma EffectIsDelta(t: Trade, b: Order, s: Order, a: Account)
    requires ReservedDebit(b, t) >= Quote(t) + t.buyerFee && t.buyerFee + t.sellerFee >= 0.0
    ensures Delta(TradePostings(t, b.user, s.user, ReservedDebit(b, t), Quote(t) + t.buyerFee, Quote(t) - t.sellerFee), a)
         == TradeEffect(t, b, s, a)
  {
    hide Delta, ReservedDebit, TradePostings;
    TradePostingsDelta(t, b.user, s.user, ReservedDebit(b, t), Quote(t) + t.buyerFee, Quote(t) - t.sellerFee, a);
  }

  predicate TradeKeysUnique(trades: seq<Trade>) {
    forall i, j :: 0 <= i < j < |trades| ==> trades[i].key != trades[j].key
  }

  /** A key on file answers for itself: with the same terms it is a duplicate, with any
      other terms a conflict. */
  lemma KnownTradeIsAnswered(st: Store, item: Item, i: nat)
    requires TradeKeysUnique(st.trades) && WellFormed(item.trade) && i < |st.trades| && st.trades[i].key == item.trade.key
    ensures if st.trades[i] == WithFees(item.trade)
      then SettleTrade(st, item).Ok? && SettleTrade(st, item).value.1 == Settled(false, true, i + 1)
      else SettleTrade(st, item) == Err(Conflict)
  {
    hide ApplyTrade;
    var found := FindTrade(st.trades, WithFees(item.trade).key);
    assert found == Some(i);
  }

  /** Keys stay unique, and what is marked in the outbox is this item's row and no other. */
  lemma SettleMarks(st: Store, item: Item)
    requires SettleTrade(st, item).Ok?
    ensures var (st', r) := SettleTrade(st, item).value;
      && (TradeKeysUnique(st.trades) ==> TradeKeysUnique(st'.trades))
      && (r.applied <==> forall i :: 0 <= i < |st.trades| ==> st.trades[i].key != item.trade.key) && r.duplicate == !r.applied
      && st'.outbox.Keys == st.outbox.Keys
      && forall k :: k in st.outbox ==> (st'.outbox[k] <==> st.outbox[k] || (k == item.outboxId && k != 0))
  {
    hide ApplyTrade;
    var t := WithFees(item.trade);
    if FindTrade(st.trades, t.key).None? {
      ApplyParts(st, t);
    }
  }

  /** A settled trade is settled once: the same item again is a duplicate of the same row
      and changes nothing at all. */
  lemma SettledOnce(st: Store, item: Item)
    requires SettleTrade(st, item).Ok?
    ensures var (st', r) := SettleTrade(st, item).value;
      SettleTrade(st', item) == Ok((st', Settled(false, true, r.tradeId)))
  {
    hide Record, ApplyTrade;
    var (st', r) := SettleTrade(st, item).value;
    var t := WithFees(item.trade);
    if FindTrade(st.trades, t.key).None? {
      ApplyParts(st, t);
      assert st'.trades[..|st.trades|] == st.trades;
    }
    assert MarkOutbox(st'.outbox, item.outboxId) == st'.outbox;
  }
}
