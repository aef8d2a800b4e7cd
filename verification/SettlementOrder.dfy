/** Settling a set of engine trades in any order: nothing is rejected and the orders and
    balances end the same. This is what a pool of settlement workers relies on. */
module SettlementOrder {
  import opened Prelude
  import opened Ledger
  import opened Fees
  import opened Settlement
  import opened Orders
  import opened Reservation
  import opened Progress

  /** One after the other; the list stops at a trade that is refused. */
  function SettleAll(st: Store, ts: seq<Trade>): Result<Store> {
    if ts == [] then Ok(st)
    else
      match SettleAll(st, ts[..|ts| - 1])
      case Err(e) => Err(e)
      case Ok(mid) => ApplyTrade(mid, ts[|ts| - 1])
  }

  // --------------------------------------------------- what a list does to an order

  function QuantityAt(t: Trade, id: nat): real {
    if t.buyOrder == id || t.sellOrder == id then t.quantity else 0.0
  }

  function QuoteAt(t: Trade, id: nat): real {
    if t.buyOrder == id || t.sellOrder == id then Quote(t) else 0.0
  }

  ghost function Quantity(ts: seq<Trade>, id: nat): real {
    Sum((t: Trade) => QuantityAt(t, id), ts)
  }

  ghost function Spent(ts: seq<Trade>, id: nat): real {
    Sum((t: Trade) => QuoteAt(t, id), ts)
  }

  /** An order after trades of a total quantity and quote: untouched when there were
      none, FILLED exactly when nothing is left. */
  function After(o: Order, quantity: real, quote: real): Order {
    if quantity == 0.0 then o
    else o.(filled := o.filled + quantity, filledQuote := o.filledQuote + quote,
            status := if o.filled + quantity == o.amount then Filled else Partial)
  }

  /** What one trade does to an account, read off the orders before any settlement. */
  function Moves(orders: seq<Order>, t: Trade, a: Account): real {
    if HasOrder(orders, t.buyOrder) && HasOrder(orders, t.sellOrder)
    then
      var plan := PlanTrade(t, orders[t.buyOrder - 1], orders[t.sellOrder - 1]);
      if plan.Ok? then Delta(plan.value.postings, a) else 0.0
    else 0.0
  }

  /** The trades the engine emitted for held orders: distinct new keys, each against an
      open limit buyer within its limit and an open seller, and no order traded beyond
      what it has left. */
  ghost predicate Emitted(st: Store, ts: seq<Trade>) {
    && (forall i :: 0 <= i < |ts| ==> Plain(st, ts[i]))
    && (forall i, k :: 0 <= i < k < |ts| ==> ts[i].key != ts[k].key)
    && (forall i :: 0 <= i < |st.orders| ==>
          Quantity(ts, i + 1) > 0.0 ==> st.orders[i].filled + Quantity(ts, i + 1) <= st.orders[i].amount)
  }

  /** A trade by itself, whatever else is in the list. */
  predicate Plain(st: Store, t: Trade) {
    && WellFormed(t) && t.feeRate > 0.0
    && t.buyerFee == TradingFee(Quote(t)) && t.sellerFee == TradingFee(Quote(t))
    && FindTrade(st.trades, t.key).None?
    && HasOrder(st.orders, t.buyOrder) && HasOrder(st.orders, t.sellOrder)
    && var b, s := st.orders[t.buyOrder - 1], st.orders[t.sellOrder - 1];
       TermsAgree(t, b, s) && IsOpen(b) && IsOpen(s) && b.kind == Limit && t.price <= b.price
  }

  /** None of the parties to these trades has an overspent order on the asset it pays with. */
  ghost predicate PartiesSolvent(st: Store, ts: seq<Trade>) {
    forall i :: 0 <= i < |ts| ==> PartySolvent(st, ts[i])
  }

  ghost predicate PartySolvent(st: Store, t: Trade) {
    HasOrder(st.orders, t.buyOrder) && HasOrder(st.orders, t.sellOrder) ==>
      && NoOtherOverspend(st, st.orders[t.buyOrder - 1].user, KRW, 0)
      && NoOtherOverspend(st, st.orders[t.sellOrder - 1].user, t.symbol, 0)
  }

  /** The terms of every order are as they were, and a market buy is as it was altogether. */
  ghost predicate BuysUntouched(st: Store, m: Store) {
    && |m.orders| == |st.orders|
    && forall i :: 0 <= i < |st.orders| ==>
         && m.orders[i].user == st.orders[i].user && m.orders[i].side == st.orders[i].side
         && m.orders[i].kind == st.orders[i].kind && m.orders[i].symbol == st.orders[i].symbol
         && (IsMarketBuy(st.orders[i]) ==> m.orders[i] == st.orders[i])
  }

  lemma StaysSolvent(st: Store, m: Store, user: nat, asset: string, id: nat)
    requires BuysUntouched(st, m) && NoOtherOverspend(st, user, asset, 0)
    ensures NoOtherOverspend(m, user, asset, id)
  {
    forall i | 0 <= i < |m.orders| && i + 1 != id && m.orders[i].user == user && HoldAsset(m.orders[i]) == asset
      ensures !Overspent(m.orders[i])
    {
      assert !Overspent(st.orders[i]);
    }
  }

  // ------------------------------------------------------------------ sums of lists

  lemma SumNext<A>(f: A -> real, xs: seq<A>, n: nat)
    requires n < |xs|
    ensures Sum(f, xs[..n + 1]) == Sum(f, xs[..n]) + f(xs[n])
  {
    assert xs[..n + 1][..n] == xs[..n];
  }

  lemma {:induction false} SumPrefixBound<A>(f: A -> real, xs: seq<A>, n: nat)
    requires n <= |xs| && forall i :: 0 <= i < |xs| ==> f(xs[i]) >= 0.0
    ensures 0.0 <= Sum(f, xs[..n]) <= Sum(f, xs)
  {
    if n < |xs| {
      assert xs[..|xs| - 1][..n] == xs[..n];
      SumPrefixBound(f, xs[..|xs| - 1], n);
    } else {
      assert xs[..n] == xs;
      if n > 0 {
        SumPrefixBound(f, xs[..n - 1], n - 1);
        assert xs[..n - 1][..n - 1] == xs[..n - 1];
      }
    }
  }

  // --------------------------------------------------------------- the closed form

  /** The store after a prefix of the list, in closed form. */
  ghost predicate Reached(base: Exchange, ts: seq<Trade>, m: Store) {
    && |m.orders| == |base.store.orders|
    && (forall i :: 0 <= i < |m.orders| ==>
          m.orders[i] == After(base.store.orders[i], Quantity(ts, i + 1), Spent(ts, i + 1)))
    && m.trades == base.store.trades + ts
    && (forall a :: Balance(m.ledger, a) ==
          Balance(base.store.ledger, a) + Sum((t: Trade) => Moves(base.store.orders, t, a), ts))
    && Inv(base.(store := m)) && Sound(m.ledger) && BuysUntouched(base.store, m)
  }

  lemma ReachedStart(base: Exchange)
    requires Inv(base) && Sound(base.store.ledger)
    ensures Reached(base, [], base.store)
  {
    hide Inv, Sound;
    assert base.store.trades + [] == base.store.trades;
    assert base.(store := base.store) == base;
  }

  lemma QuantityNonNegative(st: Store, ts: seq<Trade>, id: nat, n: nat)
    requires Emitted(st, ts) && n <= |ts|
    ensures 0.0 <= Quantity(ts[..n], id) <= Quantity(ts, id)
  {
    SumPrefixBound((t: Trade) => QuantityAt(t, id), ts, n);
  }

  /** The next trade of the list can be settled on top of the ones before it. */
  lemma NextIsTradable(base: Exchange, ts: seq<Trade>, n: nat, m: Store)
    requires n < |ts| && Emitted(base.store, ts) && Reached(base, ts[..n], m)
    ensures Tradable(m, ts[n]) && m.orders[ts[n].buyOrder - 1].kind == Limit
  {
    hide Inv, Sound, BuysUntouched;
    var t := ts[n];
    assert Plain(base.store, t);
    NewKeyInList(base.store.trades, ts, n);
    RoomFor(base.store, ts, n, t.buyOrder);
    RoomFor(base.store, ts, n, t.sellOrder);
  }

  lemma NewKeyInList(trades: seq<Trade>, ts: seq<Trade>, n: nat)
    requires n < |ts| && FindTrade(trades, ts[n].key).None?
    requires forall i, k :: 0 <= i < k < |ts| ==> ts[i].key != ts[k].key
    ensures FindTrade(trades + ts[..n], ts[n].key).None?
  {
    var all := trades + ts[..n];
    forall i | 0 <= i < |all| ensures all[i].key != ts[n].key {
    }
  }

  /** Before its n-th trade an order still has the quantity of that trade left, so it is
      open with its terms unchanged. */
  lemma RoomFor(st: Store, ts: seq<Trade>, n: nat, id: nat)
    requires n < |ts| && Emitted(st, ts) && HasOrder(st.orders, id) && (ts[n].buyOrder == id || ts[n].sellOrder == id)
    requires IsOpen(st.orders[id - 1])
    ensures var o := st.orders[id - 1];
      var o' := After(o, Quantity(ts[..n], id), Spent(ts[..n], id));
      && IsOpen(o') && o'.filled + ts[n].quantity <= o'.amount
      && o'.side == o.side && o'.kind == o.kind && o'.price == o.price && o'.user == o.user && o'.symbol == o.symbol
  {
    hide Emitted;
    EmittedQuantities(st, ts, n, id);
    SumNext((t: Trade) => QuantityAt(t, id), ts, n);
    QuantityNonNegative(st, ts, id, n);
    QuantityNonNegative(st, ts, id, n + 1);
  }

  lemma EmittedQuantities(st: Store, ts: seq<Trade>, n: nat, id: nat)
    requires n < |ts| && Emitted(st, ts) && HasOrder(st.orders, id)
    ensures ts[n].quantity > 0.0
    ensures Quantity(ts, id) > 0.0 ==> st.orders[id - 1].filled + Quantity(ts, id) <= st.orders[id - 1].amount
  {
    assert Plain(st, ts[n]);
    assert st.orders[id - 1] == st.orders[(id - 1) as nat];
  }

  /** Settling it reaches the closed form of the longer prefix. */
  lemma NextReaches(base: Exchange, ts: seq<Trade>, n: nat, m: Store)
    requires n < |ts| && Emitted(base.store, ts) && PartiesSolvent(base.store, ts) && Reached(base, ts[..n], m)
    ensures ApplyTrade(m, ts[n]).Ok? && Reached(base, ts[..n + 1], ApplyTrade(m, ts[n]).value)
  {
    hide Inv, Sound, PartySolvent, NoOtherOverspend, BuysUntouched, ApplyTrade, Tradable, Emitted, Moves, Quantity, Spent;
    var t := ts[n];
    var x := base.(store := m);
    NextIsTradable(base, ts, n, m);
    NextPartiesSolvent(base.store, m, t);
    TradeSettles(x, t);
    var m' := ApplyTrade(m, t).value;
    ApplyParts(m, t);
    NextOrders(base.store, ts, n, m, m');
    NextBalances(base, ts, n, m, m');
    NextKeepsFacts(base, ts, n, m, m');
    assert ts[..n + 1] == ts[..n] + [t];
    assert m'.trades == base.store.trades + ts[..n + 1];
  }

  lemma NextPartiesSolvent(st: Store, m: Store, t: Trade)
    requires BuysUntouched(st, m) && PartySolvent(st, t) && Tradable(m, t)
    ensures HasOrder(m.orders, t.buyOrder) && HasOrder(m.orders, t.sellOrder)
    ensures NoOtherOverspend(m, m.orders[t.buyOrder - 1].user, KRW, t.buyOrder)
    ensures NoOtherOverspend(m, m.orders[t.sellOrder - 1].user, t.symbol, t.sellOrder)
  {
    hide NoOtherOverspend;
    StaysSolvent(st, m, m.orders[t.buyOrder - 1].user, KRW, t.buyOrder);
    StaysSolvent(st, m, m.orders[t.sellOrder - 1].user, t.symbol, t.sellOrder);
  }

  lemma NextKeepsFacts(base: Exchange, ts: seq<Trade>, n: nat, m: Store, m': Store)
    requires n < |ts| && Inv(base.(store := m)) && Sound(m.ledger) && BuysUntouched(base.store, m)
    requires Tradable(m, ts[n]) && m.orders[ts[n].buyOrder - 1].kind == Limit && ApplyTrade(m, ts[n]) == Ok(m')
    ensures Inv(base.(store := m')) && Sound(m'.ledger) && BuysUntouched(base.store, m')
  {
    hide Inv, ApplyTrade, Sound, Record, Fill;
    var t := ts[n];
    var x := base.(store := m);
    ApplyParts(m, t);
    SettleFreshKeepsInv(x, t);
    RecordKeepsSound(m.ledger, TradeJournal(t, |m.trades| + 1,
      PlanTrade(t, m.orders[t.buyOrder - 1], m.orders[t.sellOrder - 1]).value.postings));
    forall i | 0 <= i < |m'.orders| && IsMarketBuy(m.orders[i]) ensures m'.orders[i] == m.orders[i] {
      assert i + 1 != t.buyOrder && i + 1 != t.sellOrder;
    }
  }

  lemma NextOrders(st: Store, ts: seq<Trade>, n: nat, m: Store, m': Store)
    requires n < |ts| && Emitted(st, ts) && ApplyTrade(m, ts[n]) == Ok(m')
    requires |m.orders| == |st.orders|
    requires forall i :: 0 <= i < |m.orders| ==>
               m.orders[i] == After(st.orders[i], Quantity(ts[..n], i + 1), Spent(ts[..n], i + 1))
    ensures |m'.orders| == |st.orders|
    ensures forall i :: 0 <= i < |m'.orders| ==>
              m'.orders[i] == After(st.orders[i], Quantity(ts[..n + 1], i + 1), Spent(ts[..n + 1], i + 1))
  {
    hide ApplyTrade, Emitted, Fill, PlanTrade, Record;
    var t := ts[n];
    ApplyParts(m, t);
    forall i | 0 <= i < |m'.orders|
      ensures m'.orders[i] == After(st.orders[i], Quantity(ts[..n + 1], i + 1), Spent(ts[..n + 1], i + 1))
    {
      NextOrder(st, ts, n, i + 1, m.orders[i], m'.orders[i]);
    }
  }

  lemma NextOrder(st: Store, ts: seq<Trade>, n: nat, id: nat, o: Order, o': Order)
    requires n < |ts| && Emitted(st, ts) && HasOrder(st.orders, id)
    requires o == After(st.orders[id - 1], Quantity(ts[..n], id), Spent(ts[..n], id))
    requires if ts[n].buyOrder == id || ts[n].sellOrder == id
             then Fill(o, ts[n].quantity, Quote(ts[n])) == Ok(o') else o' == o
    ensures o' == After(st.orders[id - 1], Quantity(ts[..n + 1], id), Spent(ts[..n + 1], id))
  {
    hide Emitted, Fill, After;
    var t := ts[n];
    SumNext((u: Trade) => QuantityAt(u, id), ts, n);
    SumNext((u: Trade) => QuoteAt(u, id), ts, n);
    if id == t.buyOrder || id == t.sellOrder {
      EmittedKinds(st, ts, n);
      NoQuantityNoQuote(ts[..n], id);
      AfterFill(st.orders[id - 1], Quantity(ts[..n], id), Spent(ts[..n], id), t.quantity, Quote(t), o');
    }
  }

  lemma EmittedKinds(st: Store, ts: seq<Trade>, n: nat)
    requires n < |ts| && Emitted(st, ts)
    ensures Plain(st, ts[n]) && forall i :: 0 <= i <= n ==> Plain(st, ts[i])
  {
  }

  lemma {:induction false} NoQuantityNoQuote(ts: seq<Trade>, id: nat)
    requires forall i :: 0 <= i < |ts| ==> ts[i].quantity > 0.0
    ensures Quantity(ts, id) >= 0.0
    ensures Quantity(ts, id) == 0.0 ==> Spent(ts, id) == 0.0
  {
    if ts != [] {
      NoQuantityNoQuote(ts[..|ts| - 1], id);
    }
  }

  lemma AfterFill(o: Order, quantity: real, quote: real, more: real, moreQuote: real, o': Order)
    requires quantity >= 0.0 && more > 0.0 && (quantity == 0.0 ==> quote == 0.0) && !IsMarketBuy(o)
    requires Fill(After(o, quantity, quote), more, moreQuote) == Ok(o')
    ensures o' == After(o, quantity + more, quote + moreQuote)
  {
  }

  lemma NextBalances(base: Exchange, ts: seq<Trade>, n: nat, m: Store, m': Store)
    requires n < |ts| && ApplyTrade(m, ts[n]) == Ok(m') && Tradable(m, ts[n]) && Inv(base.(store := m))
    requires |m.orders| == |base.store.orders|
    requires forall i :: 0 <= i < |m.orders| ==>
      m.orders[i] == After(base.store.orders[i], Quantity(ts[..n], i + 1), Spent(ts[..n], i + 1))
    requires forall a ::
      (Balance(m.ledger, a) == Balance(base.store.ledger, a) + Sum((t: Trade) => Moves(base.store.orders, t, a), ts[..n]))
    ensures forall a ::
      (Balance(m'.ledger, a) == Balance(base.store.ledger, a) + Sum((t: Trade) => Moves(base.store.orders, t, a), ts[..n + 1]))
  {
    hide Inv, ApplyTrade, Record, Fill, PlanTrade, Moves, Tradable, Sum, Quantity, Spent;
    var t := ts[n];
    TradeMoves(base.(store := m), t, m');
    forall a ensures Balance(m'.ledger, a) ==
      Balance(base.store.ledger, a) + Sum((u: Trade) => Moves(base.store.orders, u, a), ts[..n + 1])
    {
      SumNext((u: Trade) => Moves(base.store.orders, u, a), ts, n);
      MovesAreFixed(base.store.orders, m.orders, t, a);
    }
  }

  /** A settled trade moves every account as its plan says. */
  lemma TradeMoves(x: Exchange, t: Trade, m': Store)
    requires Inv(x) && Tradable(x.store, t) && ApplyTrade(x.store, t) == Ok(m')
    ensures HasOrder(x.store.orders, t.buyOrder) && HasOrder(x.store.orders, t.sellOrder)
    ensures forall a :: Balance(m'.ledger, a) == Balance(x.store.ledger, a) + Moves(x.store.orders, t, a)
  {
    hide Inv, ApplyTrade, Record, Fill, PlanTrade, Tradable, Delta;
    ApplyParts(x.store, t);
    TradeKeyIsNew(x, t);
    var b, s := x.store.orders[t.buyOrder - 1], x.store.orders[t.sellOrder - 1];
    RecordNewMoves(x.store.ledger, TradeJournal(t, |x.store.trades| + 1, PlanTrade(t, b, s).value.postings));
  }

  lemma MovesAreFixed(orders: seq<Order>, orders': seq<Order>, t: Trade, a: Account)
    requires |orders'| == |orders| && HasOrder(orders, t.buyOrder) && HasOrder(orders, t.sellOrder)
    requires forall i :: 0 <= i < |orders| ==>
      orders'[i].price == orders[i].price && orders'[i].kind == orders[i].kind && orders'[i].user == orders[i].user
    ensures Moves(orders', t, a) == Moves(orders, t, a)
  {
    SamePlan(t, orders[t.buyOrder - 1], orders[t.sellOrder - 1], orders'[t.buyOrder - 1], orders'[t.sellOrder - 1]);
  }

  lemma SamePlan(t: Trade, b: Order, s: Order, b': Order, s': Order)
    requires b'.price == b.price && b'.kind == b.kind && b'.user == b.user && s'.user == s.user
    ensures PlanTrade(t, b', s') == PlanTrade(t, b, s)
  {
  }

  // ------------------------------------------------------------------ the theorem

  /** Emitted trades all settle, whatever their order in the list. */
  lemma {:induction false} EmittedTradesSettle(base: Exchange, ts: seq<Trade>, n: nat)
    requires Inv(base) && Sound(base.store.ledger)
    requires Emitted(base.store, ts) && PartiesSolvent(base.store, ts) && n <= |ts|
    ensures SettleAll(base.store, ts[..n]).Ok? && Reached(base, ts[..n], SettleAll(base.store, ts[..n]).value)
  {
    hide Inv, Sound, PartiesSolvent, ApplyTrade, Reached, Emitted;
    if n == 0 {
      ReachedStart(base);
      assert ts[..0] == [];
    } else {
      EmittedTradesSettle(base, ts, n - 1);
      assert ts[..n][..n - 1] == ts[..n - 1];
      NextReaches(base, ts, n - 1, SettleAll(base.store, ts[..n - 1]).value);
    }
  }

  lemma {:induction false} PermutationStaysEmitted(st: Store, ts: seq<Trade>, us: seq<Trade>)
    requires Emitted(st, ts) && multiset(us) == multiset(ts)
    ensures Emitted(st, us)
  {
    forall i | 0 <= i < |us| ensures Plain(st, us[i]) {
      assert us[i] in multiset(ts);
    }
    forall id: nat ensures Quantity(us, id) == Quantity(ts, id) {
      SumPermutation((t: Trade) => QuantityAt(t, id), us, ts);
    }
    DistinctKeysPermute(ts, us);
  }

  lemma PermutationStaysSolvent(st: Store, ts: seq<Trade>, us: seq<Trade>)
    requires PartiesSolvent(st, ts) && multiset(us) == multiset(ts)
    ensures PartiesSolvent(st, us)
  {
    hide PartySolvent;
    forall i | 0 <= i < |us| ensures PartySolvent(st, us[i]) {
      assert us[i] in multiset(ts);
    }
  }

  lemma DistinctKeysPermute(ts: seq<Trade>, us: seq<Trade>)
    requires multiset(us) == multiset(ts)
    requires forall i, k :: 0 <= i < k < |ts| ==> ts[i].key != ts[k].key
    ensures forall i, k :: 0 <= i < k < |us| ==> us[i].key != us[k].key
  {
    forall i, k | 0 <= i < k < |us| && us[i].key == us[k].key ensures false {
      assert us[i] in multiset(ts) && us[k] in multiset(ts);
      var p :| 0 <= p < |ts| && ts[p] == us[i];
      var q :| 0 <= q < |ts| && ts[q] == us[k];
      assert us[i] == us[k];
      TwiceInMultiset(us, i, k);
      OnceInMultiset(ts, p);
    }
  }

  lemma TwiceInMultiset<A>(xs: seq<A>, i: nat, k: nat)
    requires i < k < |xs| && xs[i] == xs[k]
    ensures multiset(xs)[xs[i]] >= 2
  {
    assert xs == xs[..k] + xs[k..];
    assert xs[i] in multiset(xs[..k]) by { assert xs[..k][i] == xs[i]; }
    assert xs[k] in multiset(xs[k..]) by { assert xs[k..][0] == xs[k]; }
  }

  lemma OnceInMultiset(ts: seq<Trade>, p: nat)
    requires p < |ts| && forall i, k :: 0 <= i < k < |ts| ==> ts[i].key != ts[k].key
    ensures multiset(ts)[ts[p]] == 1
  {
    assert ts == ts[..p] + [ts[p]] + ts[p + 1..];
    assert ts[p] !in multiset(ts[..p]);
    assert ts[p] !in multiset(ts[p + 1..]);
  }

  /** Any two orders of the same emitted trades both settle completely and end with the
      same fills, statuses and balances. */
  lemma SettlementOrderDoesNotMatter(base: Exchange, ts: seq<Trade>, us: seq<Trade>)
    requires Inv(base) && Sound(base.store.ledger)
    requires Emitted(base.store, ts) && PartiesSolvent(base.store, ts) && multiset(us) == multiset(ts)
    ensures SettleAll(base.store, ts).Ok? && SettleAll(base.store, us).Ok?
    ensures var a, b := SettleAll(base.store, ts).value, SettleAll(base.store, us).value;
      a.orders == b.orders && (forall x :: Balance(a.ledger, x) == Balance(b.ledger, x))
  {
    hide Inv, Sound, PartiesSolvent, ApplyTrade, Emitted, Moves, SettleAll;
    PermutationStaysEmitted(base.store, ts, us);
    PermutationStaysSolvent(base.store, ts, us);
    EmittedTradesSettle(base, ts, |ts|);
    EmittedTradesSettle(base, us, |us|);
    assert ts[..|ts|] == ts && us[..|us|] == us;
    var a, b := SettleAll(base.store, ts).value, SettleAll(base.store, us).value;
    forall i | 0 <= i < |a.orders| ensures a.orders[i] == b.orders[i] {
      SumPermutation((t: Trade) => QuantityAt(t, i + 1), ts, us);
      SumPermutation((t: Trade) => QuoteAt(t, i + 1), ts, us);
    }
    forall x ensures Balance(a.ledger, x) == Balance(b.ledger, x) {
      SumPermutation((t: Trade) => Moves(base.store.orders, t, x), ts, us);
    }
  }
}
