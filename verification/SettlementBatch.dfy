/** Settling many trades in one transaction. The batch inserts all trades first, locks
    and checks all orders and plans all postings before it settles anything, works on
    in-memory copies of the orders and writes them and the outbox marks at the end.
    It is proved against settling the same list one trade at a time. */
module SettlementBatch {
  import opened Prelude
  import opened Ledger
  import opened Settlement

  // ------------------------------------------------------------- specification

  predicate IsNew(table: seq<Trade>, t: Trade) {
    FindTrade(table, t.key).None?
  }

  /** No trade that is new to the table shares its key with another item. */
  ghost predicate NewKeysDistinct(table: seq<Trade>, ts: seq<Trade>) {
    forall i, k :: 0 <= i < k < |ts| && IsNew(table, ts[k]) ==> ts[i].key != ts[k].key
  }

  ghost predicate OutboxRowsExist(outbox: map<nat, bool>, items: seq<Item>) {
    forall i :: 0 <= i < |items| && items[i].outboxId != 0 ==> items[i].outboxId in outbox
  }

  function Prepared(items: seq<Item>): seq<Trade> {
    seq(|items|, i requires 0 <= i < |items| => WithFees(items[i].trade))
  }

  /** The batch goes through exactly for these lists: each trade settles in its turn,
      no new key occurs twice, and every row to be marked is there. */
  ghost predicate Batchable(st: Store, items: seq<Item>) {
    && SettleEach(st, items).Ok?
    && NewKeysDistinct(st.trades, Prepared(items))
    && OutboxRowsExist(st.outbox, items)
  }

  /** Ledgers with the same journals and the same balance on every account; they may
      differ in which accounts already have a row at zero. */
  ghost predicate SameBooks(a: LedgerState, b: LedgerState) {
    && a.journals == b.journals
    && forall x :: Balance(a, x) == Balance(b, x)
  }

  ghost predicate SameStore(a: Store, b: Store) {
    && a.orders == b.orders && a.trades == b.trades && a.outbox == b.outbox && a.averages == b.averages
    && SameBooks(a.ledger, b.ledger)
  }

  /** The accounts the plans of all new trades touch, read off the orders as they
      were before the batch. */
  ghost function PlannedAccounts(st: Store, ts: seq<Trade>): set<Account> {
    set i, p | 0 <= i < |ts| && IsNew(st.trades, ts[i])
               && HasOrder(st.orders, ts[i].buyOrder) && HasOrder(st.orders, ts[i].sellOrder)
               && p in PostingsOf(st.orders, ts[i]) :: AccountOf(p)
  }

  function PostingsOf(orders: seq<Order>, t: Trade): seq<Posting>
    requires HasOrder(orders, t.buyOrder) && HasOrder(orders, t.sellOrder)
  {
    var plan := PlanTrade(t, orders[t.buyOrder - 1], orders[t.sellOrder - 1]);
    if plan.Ok? then plan.value.postings else []
  }

  // -------------------------------------------------------- parts of the store

  /** The trades of a list that are new to the table, in order. */
  function NewTrades(table: seq<Trade>, ts: seq<Trade>): seq<Trade> {
    if ts == [] then []
    else
      var t := ts[|ts| - 1];
      NewTrades(table, ts[..|ts| - 1]) + (if IsNew(table, t) then [t] else [])
  }

  /** The orders table with the in-memory copies laid over it. */
  function Overlay(orders: seq<Order>, copies: map<nat, Order>): seq<Order> {
    seq(|orders|, i requires 0 <= i < |orders| => if i + 1 in copies then copies[i + 1] else orders[i])
  }

  function MarkEach(outbox: map<nat, bool>, items: seq<Item>): map<nat, bool> {
    if items == [] then outbox
    else MarkOutbox(MarkEach(outbox, items[..|items| - 1]), items[|items| - 1].outboxId)
  }

  /** What never changes about an order. */
  function Terms(o: Order): Order {
    o.(filled := 0.0, filledQuote := 0.0, status := Pending)
  }

  ghost predicate CopiesKeepTerms(orders: seq<Order>, copies: map<nat, Order>) {
    forall id :: id in copies ==> HasOrder(orders, id) && Terms(copies[id]) == Terms(orders[id - 1])
  }

  // ------------------------------------------------------------------- lemmas

  lemma SameBooksRecord(a: LedgerState, b: LedgerState, j: Journal)
    requires SameBooks(a, b)
    ensures Record(a, j).Ok? <==> Record(b, j).Ok?
    ensures Record(a, j).Ok? ==> SameBooks(Record(a, j).value.ledger, Record(b, j).value.ledger)
  {
    if Record(a, j).Ok? && Record(a, j).value.created {
      forall x ensures Balance(Post(a, j), x) == Balance(Post(b, j), x) {
        PostMoves(a, j, x);
        PostMoves(b, j, x);
      }
    }
  }

  lemma SameBooksAverages(
    a: LedgerState, b: LedgerState, averages: map<(nat, string), real>,
    buyer: nat, seller: nat, asset: string, quantity: real, cost: real)
    requires SameBooks(a, b)
    ensures RaiseAverage(averages, a, buyer, asset, quantity, cost) == RaiseAverage(averages, b, buyer, asset, quantity, cost)
    ensures forall m :: ClearAverage(m, a, seller, asset) == ClearAverage(m, b, seller, asset)
  {
    assert Holdings(a, buyer, asset) == Holdings(b, buyer, asset);
    assert Holdings(a, seller, asset) == Holdings(b, seller, asset);
  }

  lemma SameBooksBook(
    a: LedgerState, b: LedgerState, averages: map<(nat, string), real>,
    t: Trade, id: nat, plan: Plan, buy: Order, sell: Order)
    requires SameBooks(a, b)
    ensures var x, y := Book(a, averages, t, id, plan, buy, sell), Book(b, averages, t, id, plan, buy, sell);
      && (x.Ok? <==> y.Ok?)
      && (x.Ok? ==> SameBooks(x.value.0, y.value.0) && x.value.1 == y.value.1)
  {
    hide Record;
    var j := TradeJournal(t, id, plan.postings);
    SameBooksRecord(a, b, j);
    if Record(a, j).Ok? {
      SameBooksAverages(Record(a, j).value.ledger, Record(b, j).value.ledger, averages, buy.user, sell.user, t.symbol, t.quantity, plan.cost);
    }
  }

  lemma {:induction false} FindTradeExtended(table: seq<Trade>, more: seq<Trade>, key: string)
    requires forall i :: 0 <= i < |more| ==> more[i].key != key
    ensures FindTrade(table + more, key) == FindTrade(table, key)
  {
    if more == [] {
      assert table + more == table;
    } else {
      assert (table + more)[..|table + more| - 1] == table + more[..|more| - 1];
      FindTradeExtended(table, more[..|more| - 1], key);
    }
  }

  lemma {:induction false} NewTradesAreNew(table: seq<Trade>, ts: seq<Trade>)
    ensures forall t :: t in NewTrades(table, ts) ==> t in ts && IsNew(table, t)
  {
    if ts != [] {
      NewTradesAreNew(table, ts[..|ts| - 1]);
    }
  }

  /** A batch plan reads only what never changes about the buy order, so it can be made
      before the loop and still be the plan of the moment the trade is settled. */
  lemma PlanIgnoresFills(t: Trade, b: Order, s: Order, b': Order, s': Order)
    requires Terms(b) == Terms(b') && Terms(s) == Terms(s')
    ensures PlanTrade(t, b, s) == PlanTrade(t, b', s')
    ensures TermsAgree(t, b, s) <==> TermsAgree(t, b', s')
  {
    assert b.price == Terms(b).price == b'.price && b.kind == Terms(b).kind == b'.kind;
    assert b.user == Terms(b).user == b'.user && s.user == Terms(s).user == s'.user;
    assert b.side == Terms(b).side == b'.side && s.side == Terms(s).side == s'.side;
    assert b.symbol == Terms(b).symbol == b'.symbol && s.symbol == Terms(s).symbol == s'.symbol;
  }

  // ------------------------------------------------------------ the simulation

  /** After `i` items, the state `m` of the one-by-one run and the batch's working
      state say the same thing. */
  ghost predicate Mirrors(
    base: Store, items: seq<Item>, i: nat, m: Store,
    copies: map<nat, Order>, l: LedgerState, averages: map<(nat, string), real>)
    requires i <= |items|
  {
    && CopiesKeepTerms(base.orders, copies)
    && m.orders == Overlay(base.orders, copies)
    && m.trades == base.trades + NewTrades(base.trades, Prepared(items)[..i])
    && SameBooks(m.ledger, l)
    && m.averages == averages
    && m.outbox == MarkEach(base.outbox, items[..i])
  }

  lemma LookupWhileSettling(base: Store, items: seq<Item>, i: nat, m: Store)
    requires i < |items|
    requires NewKeysDistinct(base.trades, Prepared(items))
    requires m.trades == base.trades + NewTrades(base.trades, Prepared(items)[..i])
    ensures FindTrade(m.trades, Prepared(items)[i].key) == FindTrade(base.trades, Prepared(items)[i].key)
  {
    var ts := Prepared(items);
    var more := NewTrades(base.trades, ts[..i]);
    NewTradesAreNew(base.trades, ts[..i]);
    forall k | 0 <= k < |more| ensures more[k].key != ts[i].key {
      assert more[k] in more;
      assert more[k] in ts[..i];
      var e :| 0 <= e < i && ts[e] == more[k];
      if IsNew(base.trades, ts[i]) {
        assert ts[e].key != ts[i].key;
      } else {
        assert IsNew(base.trades, more[k]);
      }
    }
    FindTradeExtended(base.trades, more, ts[i].key);
  }

  /** A duplicate leaves the working state alone. */
  lemma MirrorsDuplicate(
    base: Store, items: seq<Item>, i: nat, m: Store,
    copies: map<nat, Order>, l: LedgerState, averages: map<(nat, string), real>)
    requires i < |items| && NewKeysDistinct(base.trades, Prepared(items))
    requires Mirrors(base, items, i, m, copies, l, averages)
    requires WellFormed(items[i].trade)
    requires !IsNew(base.trades, Prepared(items)[i])
    ensures var t := Prepared(items)[i];
      var at := FindTrade(base.trades, t.key).value;
      var r := SettleTrade(m, items[i]);
      && (r.Ok? <==> base.trades[at] == t)
      && (r.Ok? ==> r.value.1 == Settled(false, true, at + 1)
                    && Mirrors(base, items, i + 1, r.value.0, copies, l, averages))
  {
    LookupWhileSettling(base, items, i, m);
    var ts := Prepared(items);
    assert ts[..i + 1][..i] == ts[..i];
    assert items[..i + 1][..i] == items[..i];
  }

  /** Settling one new trade on the in-memory copies. */
  function SettleCopies(
    copies: map<nat, Order>, l: LedgerState, averages: map<(nat, string), real>, t: Trade, id: nat, plan: Plan
  ): Result<(map<nat, Order>, LedgerState, map<(nat, string), real>)>
    requires t.buyOrder in copies && t.sellOrder in copies
  {
    var b, s := copies[t.buyOrder], copies[t.sellOrder];
    if !IsOpen(b) || !IsOpen(s) then Err(Conflict)
    else
      match (Fill(b, t.quantity, Quote(t)), Fill(s, t.quantity, Quote(t)))
      case (Ok(b'), Ok(s')) =>
        (match Book(l, averages, t, id, plan, b, s)
         case Err(e) => Err(e)
         case Ok((l', averages')) => Ok((copies[t.buyOrder := b'][t.sellOrder := s'], l', averages')))
      case _ => Err(Conflict)
  }

  /** The same trade on a store and on copies of its orders with a ledger of equal
      balances: both go through or neither does, and the results still correspond. */
  lemma CopiesFollowStore(
    orders: seq<Order>, m: Store, copies: map<nat, Order>, l: LedgerState, t: Trade, plan: Plan)
    requires CopiesKeepTerms(orders, copies) && m.orders == Overlay(orders, copies) && SameBooks(m.ledger, l)
    requires t.buyOrder in copies && t.sellOrder in copies
    requires TermsAgree(t, orders[t.buyOrder - 1], orders[t.sellOrder - 1])
    requires PlanTrade(t, orders[t.buyOrder - 1], orders[t.sellOrder - 1]) == Ok(plan)
    ensures var r := ApplyTrade(m, t);
      var step := SettleCopies(copies, l, m.averages, t, |m.trades| + 1, plan);
      && (r.Ok? <==> step.Ok?)
      && (r.Ok? ==>
            && CopiesKeepTerms(orders, step.value.0)
            && r.value.orders == Overlay(orders, step.value.0)
            && r.value.trades == m.trades + [t]
            && SameBooks(r.value.ledger, step.value.1)
            && r.value.averages == step.value.2
            && r.value.outbox == m.outbox)
  {
    hide Book, Fill, PlanTrade;
    var b, s := copies[t.buyOrder], copies[t.sellOrder];
    assert m.orders[t.buyOrder - 1] == b && m.orders[t.sellOrder - 1] == s;
    PlanIgnoresFills(t, b, s, orders[t.buyOrder - 1], orders[t.sellOrder - 1]);
    SameBooksBook(m.ledger, l, m.averages, t, |m.trades| + 1, plan, b, s);
    if IsOpen(b) && IsOpen(s) {
      var fb, fs := Fill(b, t.quantity, Quote(t)), Fill(s, t.quantity, Quote(t));
      if fb.Ok? && fs.Ok? {
        OverlayUpdate(orders, copies, t.buyOrder, t.sellOrder, fb.value, fs.value);
        assert Terms(fb.value) == Terms(b) && Terms(fs.value) == Terms(s);
      }
    }
  }

  lemma MirrorsNew(
    base: Store, items: seq<Item>, i: nat, m: Store,
    copies: map<nat, Order>, l: LedgerState, averages: map<(nat, string), real>, plan: Plan)
    requires i < |items| && NewKeysDistinct(base.trades, Prepared(items))
    requires Mirrors(base, items, i, m, copies, l, averages)
    requires WellFormed(items[i].trade)
    requires IsNew(base.trades, Prepared(items)[i])
    requires var t := Prepared(items)[i]; t.buyOrder in copies && t.sellOrder in copies
    requires var t := Prepared(items)[i];
      var b, s := base.orders[t.buyOrder - 1], base.orders[t.sellOrder - 1];
      TermsAgree(t, b, s) && PlanTrade(t, b, s) == Ok(plan)
    ensures var t := Prepared(items)[i];
      var step := SettleCopies(copies, l, averages, t, |m.trades| + 1, plan);
      var r := SettleTrade(m, items[i]);
      && (r.Ok? <==> step.Ok?)
      && (r.Ok? ==> r.value.1 == Settled(true, false, |m.trades| + 1)
                    && Mirrors(base, items, i + 1, r.value.0, step.value.0, step.value.1, step.value.2))
  {
    hide SettleCopies, ApplyTrade, FindTrade;
    LookupWhileSettling(base, items, i, m);
    var ts := Prepared(items);
    CopiesFollowStore(base.orders, m, copies, l, ts[i], plan);
    assert ts[..i + 1][..i] == ts[..i];
    assert items[..i + 1][..i] == items[..i];
  }

  lemma OverlayUpdate(orders: seq<Order>, copies: map<nat, Order>, x: nat, y: nat, ox: Order, oy: Order)
    requires HasOrder(orders, x) && HasOrder(orders, y) && x != y
    ensures Overlay(orders, copies[x := ox][y := oy]) == Overlay(orders, copies)[x - 1 := ox][y - 1 := oy]
  {
  }
}
