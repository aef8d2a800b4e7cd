/** The settlement service as the program runs it: a transaction works on a copy of the
    tables and is committed by one assignment, or not at all. */
module SettlementServices {
  import opened Prelude
  import opened Ledger
  import opened Settlement
  import opened SettlementBatch
  import opened SettlementEffects
  import R = Reservation

  predicate PayloadAgrees(table: seq<Trade>, t: Trade) {
    var at := FindTrade(table, t.key);
    at.Some? ==> table[at.value] == t
  }

  predicate OrdersExist(orders: seq<Order>, t: Trade) {
    HasOrder(orders, t.buyOrder) && HasOrder(orders, t.sellOrder)
  }

  predicate Plannable(orders: seq<Order>, t: Trade) {
    OrdersExist(orders, t) &&
    var b, s := orders[t.buyOrder - 1], orders[t.sellOrder - 1];
    TermsAgree(t, b, s) && PlanTrade(t, b, s).Ok?
  }

  // --------------------------------------- what one-by-one settlement requires

  ghost predicate TermsKept(base: Store, m: Store) {
    |m.orders| == |base.orders| && forall i :: 0 <= i < |base.orders| ==> Terms(m.orders[i]) == Terms(base.orders[i])
  }

  lemma SettleTradeKeepsTerms(m: Store, item: Item)
    requires SettleTrade(m, item).Ok?
    ensures TermsKept(m, SettleTrade(m, item).value.0)
  {
    hide Book;
  }

  /** The table after a prefix of a successful run, and the orders' terms in it. */
  lemma {:induction false} EachKeepsTerms(base: Store, items: seq<Item>)
    requires SettleEach(base, items).Ok? && NewKeysDistinct(base.trades, Prepared(items))
    ensures var m := SettleEach(base, items).value.0;
      TermsKept(base, m) && m.trades == base.trades + NewTrades(base.trades, Prepared(items))
  {
    hide SettleTrade;
    if items != [] {
      var n := |items| - 1;
      var ts := Prepared(items);
      assert Prepared(items[..n]) == ts[..n];
      EachKeepsTerms(base, items[..n]);
      var m := SettleEach(base, items[..n]).value.0;
      SettleTradeKeepsTerms(m, items[n]);
      TableAfter(base, items, m);
    }
  }

  lemma TableAfter(base: Store, items: seq<Item>, m: Store)
    requires items != [] && NewKeysDistinct(base.trades, Prepared(items))
    requires m.trades == base.trades + NewTrades(base.trades, Prepared(items)[..|items| - 1])
    requires SettleTrade(m, items[|items| - 1]).Ok?
    ensures SettleTrade(m, items[|items| - 1]).value.0.trades
         == base.trades + NewTrades(base.trades, Prepared(items))
  {
    hide Book, FindTrade;
    LookupWhileSettling(base, items, |items| - 1, m);
  }

  lemma {:induction false} PrefixSettles(base: Store, items: seq<Item>, i: nat)
    requires i <= |items| && SettleEach(base, items).Ok?
    ensures SettleEach(base, items[..i]).Ok?
  {
    hide SettleTrade;
    if i < |items| {
      assert items[..|items| - 1][..i] == items[..i];
      PrefixSettles(base, items[..|items| - 1], i);
    } else {
      assert items[..i] == items;
    }
  }

  lemma PrefixKeysDistinct(table: seq<Trade>, items: seq<Item>, i: nat)
    requires i <= |items| && NewKeysDistinct(table, Prepared(items))
    ensures NewKeysDistinct(table, Prepared(items[..i]))
  {
    assert Prepared(items[..i]) == Prepared(items)[..i];
  }

  lemma SettledMeansChecked(base: Store, items: seq<Item>, i: nat, m: Store)
    requires i < |items| && NewKeysDistinct(base.trades, Prepared(items))
    requires TermsKept(base, m) && m.trades == base.trades + NewTrades(base.trades, Prepared(items)[..i])
    requires SettleTrade(m, items[i]).Ok?
    ensures PayloadAgrees(base.trades, Prepared(items)[i])
    ensures IsNew(base.trades, Prepared(items)[i]) ==> Plannable(base.orders, Prepared(items)[i])
  {
    hide Book, FindTrade, PlanTrade, Fill;
    LookupWhileSettling(base, items, i, m);
    var t := Prepared(items)[i];
    if IsNew(base.trades, t) {
      assert ApplyTrade(m, t).Ok?;
      PlanIgnoresFills(t, m.orders[t.buyOrder - 1], m.orders[t.sellOrder - 1],
                       base.orders[t.buyOrder - 1], base.orders[t.sellOrder - 1]);
    } else {
      var at := FindTrade(base.trades, t.key).value;
      assert m.trades[at] == base.trades[at];
    }
  }

  /** Every check the batch makes up front is one that the one-by-one run makes too. */
  lemma EachPassesChecks(base: Store, items: seq<Item>, i: nat)
    requires i < |items| && SettleEach(base, items).Ok?
    ensures WellFormed(items[i].trade)
    ensures NewKeysDistinct(base.trades, Prepared(items)) ==> PayloadAgrees(base.trades, Prepared(items)[i])
    ensures NewKeysDistinct(base.trades, Prepared(items)) && IsNew(base.trades, Prepared(items)[i]) ==>
              Plannable(base.orders, Prepared(items)[i])
  {
    hide ApplyTrade, FindTrade, PlanTrade;
    PrefixSettles(base, items, i + 1);
    assert items[..i + 1][..i] == items[..i];
    var m := SettleEach(base, items[..i]).value.0;
    assert SettleTrade(m, items[i]).Ok?;
    if NewKeysDistinct(base.trades, Prepared(items)) {
      PrefixKeysDistinct(base.trades, items, i);
      EachKeepsTerms(base, items[..i]);
      assert Prepared(items[..i]) == Prepared(items)[..i];
      SettledMeansChecked(base, items, i, m);
    }
  }

  // -------------------------------------------------------------- batch phases

  method PrepareAll(items: seq<Item>) returns (r: Result<seq<Trade>>)
    ensures r.Ok? <==> forall i :: 0 <= i < |items| ==> WellFormed(items[i].trade)
    ensures r.Ok? ==> r.value == Prepared(items)
  {
    var ts: seq<Trade> := [];
    for i := 0 to |items|
      invariant forall k :: 0 <= k < i ==> WellFormed(items[k].trade)
      invariant ts == Prepared(items)[..i]
    {
      var t := Prepare(items[i].trade);
      if t.Err? {
        return Err(Invalid);
      }
      ts := ts + [t.value];
    }
    return Ok(ts);
  }

  /** One lookup of all keys: where a key is known its payload must be the same. */
  method SplitDuplicates(table: seq<Trade>, ts: seq<Trade>) returns (r: Result<seq<Option<nat>>>)
    ensures r.Ok? <==> forall i :: 0 <= i < |ts| ==> PayloadAgrees(table, ts[i])
    ensures r.Ok? ==> |r.value| == |ts| && forall i :: 0 <= i < |ts| ==> r.value[i] == FindTrade(table, ts[i].key)
  {
    var found: seq<Option<nat>> := [];
    for i := 0 to |ts|
      invariant |found| == i
      invariant forall k :: 0 <= k < i ==> found[k] == FindTrade(table, ts[k].key) && PayloadAgrees(table, ts[k])
    {
      var at := FindTrade(table, ts[i].key);
      if at.Some? && table[at.value] != ts[i] {
        assert !PayloadAgrees(table, ts[i]);
        return Err(Conflict);
      }
      found := found + [at];
    }
    return Ok(found);
  }

  /** Inserts the new trades, skipping a key that is already there, and gives up when
      fewer rows went in than were offered. */
  method InsertNew(table: seq<Trade>, ts: seq<Trade>, found: seq<Option<nat>>) returns (r: Result<seq<Trade>>)
    requires |found| == |ts| && forall i :: 0 <= i < |ts| ==> found[i] == FindTrade(table, ts[i].key)
    ensures r.Ok? <==> NewKeysDistinct(table, ts)
    ensures r.Ok? ==> r.value == table + NewTrades(table, ts)
  {
    hide FindTrade;
    var rows := table;
    var offered, inserted := 0, 0;
    for i := 0 to |ts|
      invariant inserted <= offered
      invariant inserted == offered ==>
                  NewKeysDistinct(table, ts[..i]) && rows == table + NewTrades(table, ts[..i])
      invariant inserted < offered ==> !NewKeysDistinct(table, ts)
    {
      var t := ts[i];
      assert ts[..i + 1][..i] == ts[..i];
      if found[i].None? {
        if inserted == offered {
          NewKeyOrRepeat(table, ts, i);
        }
        offered := offered + 1;
        if FindTrade(rows, t.key).None? {
          rows := rows + [t];
          inserted := inserted + 1;
        }
      } else {
        assert !IsNew(table, t);
        assert ts[..i + 1] == ts[..i] + [t];
      }
    }
    assert ts[..|ts|] == ts;
    if inserted != offered {
      return Err(Constraint);
    }
    return Ok(rows);
  }

  lemma {:induction false} NewTradesComplete(table: seq<Trade>, ts: seq<Trade>, e: nat)
    requires e < |ts| && IsNew(table, ts[e])
    ensures ts[e] in NewTrades(table, ts)
  {
    if e < |ts| - 1 {
      NewTradesComplete(table, ts[..|ts| - 1], e);
    }
  }

  /** A new key is found among the rows inserted so far exactly when it repeats. */
  lemma NewKeyOrRepeat(table: seq<Trade>, ts: seq<Trade>, i: nat)
    requires i < |ts| && IsNew(table, ts[i]) && NewKeysDistinct(table, ts[..i])
    ensures var rows := table + NewTrades(table, ts[..i]);
      && (FindTrade(rows, ts[i].key).None? ==> NewKeysDistinct(table, ts[..i + 1]))
      && (FindTrade(rows, ts[i].key).Some? ==> !NewKeysDistinct(table, ts))
  {
    hide FindTrade;
    var more := NewTrades(table, ts[..i]);
    var rows := table + more;
    NewTradesAreNew(table, ts[..i]);
    var at := FindTrade(rows, ts[i].key);
    assert forall q :: 0 <= q < |table| ==> rows[q] == table[q];
    assert forall q :: 0 <= q < |more| ==> rows[|table| + q] == more[q];
    if at.Some? {
      assert rows[at.value] in more;
      var e :| 0 <= e < i && ts[e] == rows[at.value];
      assert ts[e].key == ts[i].key;
    } else {
      forall e | 0 <= e < i ensures ts[e].key != ts[i].key {
        if ts[e].key == ts[i].key {
          NewTradesComplete(table, ts[..i], e);
        }
      }
    }
  }

  /** Reads and locks every order a new trade touches; a missing one fails the batch. */
  method LockOrders(orders: seq<Order>, ts: seq<Trade>, found: seq<Option<nat>>) returns (r: Result<map<nat, Order>>)
    requires |found| == |ts|
    ensures r.Ok? <==> forall i :: 0 <= i < |ts| && found[i].None? ==> OrdersExist(orders, ts[i])
    ensures r.Ok? ==> forall i :: 0 <= i < |ts| && found[i].None? ==>
                        ts[i].buyOrder in r.value && ts[i].sellOrder in r.value
    ensures r.Ok? ==> forall id :: id in r.value ==> HasOrder(orders, id) && r.value[id] == orders[id - 1]
  {
    var copies: map<nat, Order> := map[];
    for i := 0 to |ts|
      invariant forall k :: 0 <= k < i && found[k].None? ==>
                  && OrdersExist(orders, ts[k])
                  && ts[k].buyOrder in copies && ts[k].sellOrder in copies
      invariant forall id :: id in copies ==> HasOrder(orders, id) && copies[id] == orders[id - 1]
    {
      if found[i].None? {
        var t := ts[i];
        if !OrdersExist(orders, t) {
          return Err(NotFound);
        }
        copies := copies[t.buyOrder := orders[t.buyOrder - 1]][t.sellOrder := orders[t.sellOrder - 1]];
      }
    }
    return Ok(copies);
  }

  /** Checks the terms and makes the plan of every new trade, and gathers the accounts
      the plans touch. */
  method PlanAll(orders: seq<Order>, copies: map<nat, Order>, ts: seq<Trade>, found: seq<Option<nat>>)
    returns (r: Result<(map<nat, Plan>, set<Account>)>)
    requires |found| == |ts|
    requires forall id :: id in copies ==> HasOrder(orders, id) && copies[id] == orders[id - 1]
    requires forall i :: 0 <= i < |ts| && found[i].None? ==>
               ts[i].buyOrder in copies && ts[i].sellOrder in copies
    ensures r.Ok? <==> forall i :: 0 <= i < |ts| && found[i].None? ==> Plannable(orders, ts[i])
    ensures r.Ok? ==> forall i :: 0 <= i < |ts| && found[i].None? ==>
              i in r.value.0 && PlanTrade(ts[i], copies[ts[i].buyOrder], copies[ts[i].sellOrder]) == Ok(r.value.0[i])
    ensures r.Ok? ==>
              (r.value.1 == set i, p | 0 <= i < |ts| && found[i].None? && p in PostingsOf(orders, ts[i]) :: AccountOf(p))
  {
    hide PlanTrade;
    var plans: map<nat, Plan> := map[];
    var accounts: set<Account> := {};
    for i := 0 to |ts|
      invariant forall k :: 0 <= k < i && found[k].None? ==>
                  && Plannable(orders, ts[k])
                  && k in plans
                  && PlanTrade(ts[k], copies[ts[k].buyOrder], copies[ts[k].sellOrder]) == Ok(plans[k])
      invariant accounts ==
                  set k, p | 0 <= k < i && found[k].None? && p in PostingsOf(orders, ts[k]) :: AccountOf(p)
    {
      if found[i].None? {
        var b, s := copies[ts[i].buyOrder], copies[ts[i].sellOrder];
        var plan := PlanTrade(ts[i], b, s);
        if !TermsAgree(ts[i], b, s) || plan.Err? {
          assert !Plannable(orders, ts[i]);
          return Err(Invalid);
        }
        plans := plans[i := plan.value];
        accounts := accounts + Touched(plan.value.postings);
        assert PostingsOf(orders, ts[i]) == plan.value.postings;
      }
    }
    return Ok((plans, accounts));
  }

  /** Balance rows at zero for accounts that have none. */
  function Provision(l: LedgerState, accounts: set<Account>): LedgerState {
    l.(balances := map a | a in l.balances.Keys + accounts :: Balance(l, a))
  }

  /** Settles the new trades in queue order on the in-memory orders. */
  method SettleInOrder(
    base: Store, items: seq<Item>, ts: seq<Trade>, found: seq<Option<nat>>,
    locked: map<nat, Order>, plans: map<nat, Plan>, provisioned: LedgerState)
    returns (r: Result<(map<nat, Order>, LedgerState, map<(nat, string), real>, seq<Settled>)>, ghost m: Store)
    requires ts == Prepared(items) && |found| == |ts| && NewKeysDistinct(base.trades, ts)
    requires forall i :: 0 <= i < |ts| ==>
               WellFormed(items[i].trade) && PayloadAgrees(base.trades, ts[i]) && found[i] == FindTrade(base.trades, ts[i].key)
    requires forall id :: id in locked ==> HasOrder(base.orders, id) && locked[id] == base.orders[id - 1]
    requires forall i :: 0 <= i < |ts| && found[i].None? ==>
               && Plannable(base.orders, ts[i])
               && ts[i].buyOrder in locked && ts[i].sellOrder in locked
               && i in plans && PlanTrade(ts[i], locked[ts[i].buyOrder], locked[ts[i].sellOrder]) == Ok(plans[i])
    requires SameBooks(base.ledger, provisioned)
    requires forall i :: 0 <= i < |ts| && found[i].None? ==> Touched(plans[i].postings) <= provisioned.balances.Keys
    ensures r.Ok? <==> SettleEach(base, items).Ok?
    ensures r.Ok? ==>
      && SettleEach(base, items) == Ok((m, r.value.3))
      && Mirrors(base, items, |items|, m, r.value.0, r.value.1, r.value.2)
      && r.value.0.Keys == locked.Keys
      && r.value.1.balances.Keys == provisioned.balances.Keys
  {
    hide SettleTrade, SettleCopies, PlanTrade, FindTrade, Mirrors, Touched, TermsAgree, NewKeysDistinct;
    var copies, l, averages := locked, provisioned, base.averages;
    var results: seq<Settled> := [];
    var nextId := |base.trades| + 1;
    m := base;
    MirrorsStart(base, items, locked, provisioned);
    for i := 0 to |items|
      invariant Mirrors(base, items, i, m, copies, l, averages)
      invariant SettleEach(base, items[..i]) == Ok((m, results))
      invariant copies.Keys == locked.Keys && l.balances.Keys == provisioned.balances.Keys
      invariant nextId == |m.trades| + 1
    {
      assert items[..i + 1][..i] == items[..i];
      var t := ts[i];
      ghost var settled := SettleTrade(m, items[i]);
      if found[i].Some? {
        MirrorsDuplicate(base, items, i, m, copies, l, averages);
        results := results + [Settled(false, true, found[i].value + 1)];
        TableUnchanged(m, items[i]);
      } else {
        MirrorsNew(base, items, i, m, copies, l, averages, plans[i]);
        var step := SettleCopies(copies, l, averages, t, nextId, plans[i]);
        if step.Err? {
          ErrorIsFinal(base, items, i + 1);
          return Err(step.error), m;
        }
        CopiesKeepKeys(copies, l, averages, t, nextId, plans[i]);
        TableGrows(m, items[i]);
        copies, l, averages := step.value.0, step.value.1, step.value.2;
        results := results + [Settled(true, false, nextId)];
        nextId := nextId + 1;
      }
      m := settled.value.0;
    }
    assert items[..|items|] == items;
    return Ok((copies, l, averages, results)), m;
  }

  lemma MirrorsStart(base: Store, items: seq<Item>, locked: map<nat, Order>, provisioned: LedgerState)
    requires forall id :: id in locked ==> HasOrder(base.orders, id) && locked[id] == base.orders[id - 1]
    requires SameBooks(base.ledger, provisioned)
    ensures Mirrors(base, items, 0, base, locked, provisioned, base.averages)
  {
    assert Overlay(base.orders, locked) == base.orders;
    assert NewTrades(base.trades, Prepared(items)[..0]) == [];
  }

  lemma TableUnchanged(m: Store, item: Item)
    requires SettleTrade(m, item).Ok? && SettleTrade(m, item).value.1.duplicate
    ensures SettleTrade(m, item).value.0.trades == m.trades
  {
    hide ApplyTrade, FindTrade;
  }

  lemma TableGrows(m: Store, item: Item)
    requires SettleTrade(m, item).Ok? && SettleTrade(m, item).value.1.applied
    ensures |SettleTrade(m, item).value.0.trades| == |m.trades| + 1
  {
    hide Book, FindTrade;
  }

  lemma CopiesKeepKeys(
    copies: map<nat, Order>, l: LedgerState, averages: map<(nat, string), real>, t: Trade, id: nat, plan: Plan)
    requires t.buyOrder in copies && t.sellOrder in copies
    requires Touched(plan.postings) <= l.balances.Keys
    requires SettleCopies(copies, l, averages, t, id, plan).Ok?
    ensures SettleCopies(copies, l, averages, t, id, plan).value.0.Keys == copies.Keys
    ensures SettleCopies(copies, l, averages, t, id, plan).value.1.balances.Keys == l.balances.Keys
  {
    hide Fill, FindKey, SameJournal, ValidJournal, RaiseAverage, ClearAverage;
  }

  /** The accounts locked before the loop are exactly those whose postings the loop
      will record: each plan made from the orders as they stood at the start is the
      plan of the moment its trade is settled. */
  lemma PrelockIsExact(st: Store, items: seq<Item>)
    requires Batchable(st, items)
    ensures var ts := Prepared(items);
      && (forall i :: 0 <= i < |ts| && IsNew(st.trades, ts[i]) ==>
            && SettleEach(st, items[..i]).Ok?
            && OrdersExist(SettleEach(st, items[..i]).value.0.orders, ts[i])
            && OrdersExist(st.orders, ts[i])
            && PostingsOf(SettleEach(st, items[..i]).value.0.orders, ts[i]) == PostingsOf(st.orders, ts[i]))
      && (PlannedAccounts(st, ts) == set i, p | 0 <= i < |ts| && IsNew(st.trades, ts[i])
            && p in PostingsOf(SettleEach(st, items[..i]).value.0.orders, ts[i]) :: AccountOf(p))
  {
    hide SettleEach, FindTrade, PlanTrade;
    var ts := Prepared(items);
    forall i | 0 <= i < |ts| && IsNew(st.trades, ts[i])
      ensures SettleEach(st, items[..i]).Ok?
      ensures OrdersExist(SettleEach(st, items[..i]).value.0.orders, ts[i]) && OrdersExist(st.orders, ts[i])
      ensures PostingsOf(SettleEach(st, items[..i]).value.0.orders, ts[i]) == PostingsOf(st.orders, ts[i])
    {
      PrefixSettles(st, items, i);
      PrefixKeysDistinct(st.trades, items, i);
      EachKeepsTerms(st, items[..i]);
      EachPassesChecks(st, items, i);
      var m := SettleEach(st, items[..i]).value.0;
      PlanIgnoresFills(ts[i], m.orders[ts[i].buyOrder - 1], m.orders[ts[i].sellOrder - 1],
                       st.orders[ts[i].buyOrder - 1], st.orders[ts[i].sellOrder - 1]);
    }
  }

  lemma ErrorIsFinal(base: Store, items: seq<Item>, i: nat)
    requires i <= |items| && SettleEach(base, items[..i]).Err?
    ensures SettleEach(base, items).Err?
  {
    hide SettleTrade;
    if SettleEach(base, items).Ok? {
      PrefixSettles(base, items, i);
    }
  }

  /** Writes the in-memory orders back. */
  method WriteOrders(orders: seq<Order>, copies: map<nat, Order>) returns (written: seq<Order>)
    requires forall id :: id in copies ==> HasOrder(orders, id)
    ensures written == Overlay(orders, copies)
  {
    written := orders;
    var ids := copies.Keys;
    while ids != {}
      invariant ids <= copies.Keys
      invariant |written| == |orders|
      invariant forall i :: 0 <= i < |orders| ==>
                  written[i] == if i + 1 in copies && i + 1 !in ids then copies[i + 1] else orders[i]
      decreases |ids|
    {
      var id :| id in ids;
      written := written[id - 1 := copies[id]];
      ids := ids - {id};
    }
  }

  function NonzeroIds(items: seq<Item>): set<nat> {
    set i | 0 <= i < |items| && items[i].outboxId != 0 :: items[i].outboxId
  }

  /** The outbox rows of a batch, each once, in first-seen order. */
  method CollectOutboxIds(items: seq<Item>) returns (ids: seq<nat>)
    ensures forall i, k :: 0 <= i < k < |ids| ==> ids[i] != ids[k]
    ensures (set id | id in ids) == NonzeroIds(items)
  {
    ids := [];
    var seen: set<nat> := {};
    for i := 0 to |items|
      invariant forall e, k :: 0 <= e < k < |ids| ==> ids[e] != ids[k]
      invariant seen == set id | id in ids
      invariant seen == NonzeroIds(items[..i])
    {
      assert items[..i + 1] == items[..i] + [items[i]];
      assert NonzeroIds(items[..i + 1]) ==
        NonzeroIds(items[..i]) + (if items[i].outboxId == 0 then {} else {items[i].outboxId}) by {
        assert forall k :: 0 <= k < i ==> items[..i + 1][k] == items[..i][k];
        assert items[..i + 1][i] == items[i];
      }
      if items[i].outboxId != 0 && items[i].outboxId !in seen {
        seen := seen + {items[i].outboxId};
        ids := ids + [items[i].outboxId];
      }
    }
    assert items[..|items|] == items;
  }

  /** Marks all rows, or none when one is missing. */
  method MarkRows(outbox: map<nat, bool>, ids: seq<nat>) returns (r: Result<map<nat, bool>>)
    requires forall i, k :: 0 <= i < k < |ids| ==> ids[i] != ids[k]
    ensures r.Ok? <==> forall i :: 0 <= i < |ids| ==> ids[i] in outbox
    ensures r.Ok? ==> r.value == map k | k in outbox :: outbox[k] || k in ids
  {
    var marked := outbox;
    var affected := 0;
    for i := 0 to |ids|
      invariant affected <= i
      invariant affected == i <==> forall k :: 0 <= k < i ==> ids[k] in outbox
      invariant marked == map k | k in outbox :: outbox[k] || k in ids[..i]
    {
      assert ids[..i + 1] == ids[..i] + [ids[i]];
      if ids[i] in marked {
        marked := marked[ids[i] := true];
        affected := affected + 1;
      }
    }
    assert ids[..|ids|] == ids;
    if affected != |ids| {
      return Err(Constraint);
    }
    return Ok(marked);
  }

  lemma {:induction false} MarkEachAtOnce(outbox: map<nat, bool>, items: seq<Item>)
    ensures MarkEach(outbox, items) == map k | k in outbox :: outbox[k] || k in NonzeroIds(items)
  {
    if items != [] {
      var n := |items| - 1;
      MarkEachAtOnce(outbox, items[..n]);
      assert forall k :: k in NonzeroIds(items) <==>
        (k in NonzeroIds(items[..n]) || (k != 0 && k == items[n].outboxId)) by {
        forall k | k in NonzeroIds(items[..n]) ensures k in NonzeroIds(items) {
          var i :| 0 <= i < n && items[..n][i].outboxId == k;
          assert items[i].outboxId == k;
        }
        forall k | k in NonzeroIds(items) && k != items[n].outboxId ensures k in NonzeroIds(items[..n]) {
          var i :| 0 <= i < |items| && items[i].outboxId == k;
          assert items[..n][i].outboxId == k;
        }
      }
    }
  }

  lemma MarksAgree(outbox: map<nat, bool>, items: seq<Item>, ids: seq<nat>)
    requires (set id | id in ids) == NonzeroIds(items)
    ensures (forall i :: 0 <= i < |ids| ==> ids[i] in outbox) <==> OutboxRowsExist(outbox, items)
    ensures MarkEach(outbox, items) == map k | k in outbox :: outbox[k] || k in ids
  {
    MarkEachAtOnce(outbox, items);
    assert forall k :: k in ids <==> k in NonzeroIds(items) by {
      assert forall k :: k in ids <==> k in (set id | id in ids);
    }
    if forall i :: 0 <= i < |ids| ==> ids[i] in outbox {
      forall i | 0 <= i < |items| && items[i].outboxId != 0 ensures items[i].outboxId in outbox {
        assert items[i].outboxId in NonzeroIds(items);
      }
    }
    if OutboxRowsExist(outbox, items) {
      forall i | 0 <= i < |ids| ensures ids[i] in outbox {
        assert ids[i] in NonzeroIds(items);
      }
    }
  }

  lemma MirrorsEnd(
    base: Store, items: seq<Item>, m: Store,
    copies: map<nat, Order>, l: LedgerState, averages: map<(nat, string), real>)
    requires Mirrors(base, items, |items|, m, copies, l, averages)
    ensures forall id :: id in copies ==> HasOrder(base.orders, id)
    ensures SameStore(
      Store(Overlay(base.orders, copies), base.trades + NewTrades(base.trades, Prepared(items)), l,
            MarkEach(base.outbox, items), averages), m)
  {
    assert items[..|items|] == items;
    assert Prepared(items)[..|items|] == Prepared(items);
  }

  /** The rows made up front are those of the plans, and they cover every plan. */
  lemma ProvisionCovers(
    st: Store, ts: seq<Trade>, found: seq<Option<nat>>, locked: map<nat, Order>,
    plans: map<nat, Plan>, accounts: set<Account>)
    requires |found| == |ts| && forall i :: 0 <= i < |ts| ==> found[i] == FindTrade(st.trades, ts[i].key)
    requires forall id :: id in locked ==> HasOrder(st.orders, id) && locked[id] == st.orders[id - 1]
    requires forall i :: 0 <= i < |ts| && found[i].None? ==>
               && OrdersExist(st.orders, ts[i])
               && ts[i].buyOrder in locked && ts[i].sellOrder in locked
               && i in plans && PlanTrade(ts[i], locked[ts[i].buyOrder], locked[ts[i].sellOrder]) == Ok(plans[i])
    requires accounts == set i, p | 0 <= i < |ts| && found[i].None? && p in PostingsOf(st.orders, ts[i]) :: AccountOf(p)
    ensures accounts == PlannedAccounts(st, ts)
    ensures SameBooks(st.ledger, Provision(st.ledger, accounts))
    ensures forall i :: 0 <= i < |ts| && found[i].None? ==>
              Touched(plans[i].postings) <= Provision(st.ledger, accounts).balances.Keys
  {
    hide PlanTrade, FindTrade;
    forall i | 0 <= i < |ts| && found[i].None?
      ensures Touched(plans[i].postings) <= Provision(st.ledger, accounts).balances.Keys
    {
      assert PostingsOf(st.orders, ts[i]) == plans[i].postings;
    }
  }

  lemma BatchablePassesChecks(st: Store, items: seq<Item>)
    ensures Batchable(st, items) ==>
      forall i :: 0 <= i < |items| ==>
        && WellFormed(items[i].trade)
        && PayloadAgrees(st.trades, Prepared(items)[i])
        && (IsNew(st.trades, Prepared(items)[i]) ==> Plannable(st.orders, Prepared(items)[i]))
  {
    hide SettleEach;
    if Batchable(st, items) {
      forall i | 0 <= i < |items|
        ensures WellFormed(items[i].trade) && PayloadAgrees(st.trades, Prepared(items)[i])
        ensures IsNew(st.trades, Prepared(items)[i]) ==> Plannable(st.orders, Prepared(items)[i])
      {
        EachPassesChecks(st, items, i);
      }
    }
  }

  /** A trade is applied exactly if its key is new, the item's outbox row and no other is
      marked, and keys stay unique. */
  ghost predicate Marks(st: Store, item: Item, st': Store, r: Settled) {
    && (TradeKeysUnique(st.trades) ==> TradeKeysUnique(st'.trades))
    && (r.applied <==> forall i :: 0 <= i < |st.trades| ==> st.trades[i].key != item.trade.key) && r.duplicate == !r.applied
    && st'.outbox.Keys == st.outbox.Keys
    && forall k :: k in st.outbox ==> (st'.outbox[k] <==> st.outbox[k] || (k == item.outboxId && k != 0))
  }

  /** What the settlement of one item means to whoever asked for it. */
  ghost predicate SettleMeans(st: Store, item: Item, st': Store, r: Settled) {
    && Settlement.SettleTrade(st', item) == Ok((st', Settled(false, true, r.tradeId)))
    && (r.duplicate ==> st' == st.(outbox := st'.outbox))
    && (r.applied && R.KeysAccounted(st) ==> Exchanged(st, st', WithFees(item.trade)))
    && Marks(st, item, st', r)
    && (Sound(st.ledger) ==> Sound(st'.ledger))
    && forall x: R.Exchange :: x.store == st && R.Inv(x) && R.Enabled(x, R.Settle(item)) ==> R.Inv(x.(store := st'))
  }

  lemma SettleFacts(st: Store, item: Item)
    ensures Settlement.SettleTrade(st, item).Ok? ==>
      var (st', r) := Settlement.SettleTrade(st, item).value;
      SettleMeans(st, item, st', r)
  {
    hide Settlement.SettleTrade, R.Inv, R.Enabled, R.KeysAccounted, Sound, Exchanged;
    if Settlement.SettleTrade(st, item).Ok? {
      SettledOnce(st, item);
      SettleMarks(st, item);
      AppliedExchanges(st, item);
      if Sound(st.ledger) {
        SettleStaysSound(st, item);
      }
      SettleStaysReserved(st, item);
    }
  }

  lemma AppliedExchanges(st: Store, item: Item)
    requires Settlement.SettleTrade(st, item).Ok?
    ensures var (st', r) := Settlement.SettleTrade(st, item).value;
      && (r.duplicate ==> st' == st.(outbox := st'.outbox))
      && (r.applied && R.KeysAccounted(st) ==> Exchanged(st, st', WithFees(item.trade)))
  {
    hide ApplyTrade, R.KeysAccounted, Exchanged;
    var t := WithFees(item.trade);
    if FindTrade(st.trades, t.key).None? && R.KeysAccounted(st) {
      ApplyExchanges(st, t);
      OutboxApart(st, ApplyTrade(st, t).value, Settlement.SettleTrade(st, item).value.0, t);
    }
  }

  lemma MalformedIsRefused(st: Store, item: Item)
    ensures !WellFormed(item.trade) ==> Settlement.SettleTrade(st, item) == Err(Invalid)
  {
  }

  lemma OutboxApart(st: Store, st': Store, st'': Store, t: Trade)
    requires Exchanged(st, st', t) && st'' == st'.(outbox := st''.outbox)
    ensures Exchanged(st, st'', t)
  {
    hide TradeEffect, Advanced, ReservedDebit, Parties;
    var b, s := st.orders[t.buyOrder - 1], st.orders[t.sellOrder - 1];
    assert Averaged(st, st', t, b.user, s.user);
  }

  lemma SettleStaysSound(st: Store, item: Item)
    requires Settlement.SettleTrade(st, item).Ok? && Sound(st.ledger)
    ensures Sound(Settlement.SettleTrade(st, item).value.0.ledger)
  {
    hide ApplyTrade, Sound, Record;
    var t := WithFees(item.trade);
    if FindTrade(st.trades, t.key).None? {
      R.ApplyParts(st, t);
      RecordKeepsSound(st.ledger, TradeJournal(t, |st.trades| + 1,
        PlanTrade(t, st.orders[t.buyOrder - 1], st.orders[t.sellOrder - 1]).value.postings));
    }
  }

  lemma SettleStaysReserved(st: Store, item: Item)
    requires Settlement.SettleTrade(st, item).Ok?
    ensures forall x: R.Exchange :: x.store == st && R.Inv(x) && R.Enabled(x, R.Settle(item)) ==>
      R.Inv(x.(store := Settlement.SettleTrade(st, item).value.0))
  {
    hide R.Inv, R.Enabled, Settlement.SettleTrade;
    forall x: R.Exchange | x.store == st && R.Inv(x) && R.Enabled(x, R.Settle(item))
      ensures R.Inv(x.(store := Settlement.SettleTrade(st, item).value.0))
    {
      R.SettleKeepsInv(x, item);
    }
  }

  class SettlementService {
    var store: Store

    constructor (initial: Store)
      ensures store == initial
    {
      store := initial;
    }

    /** One trade in one transaction. A new trade fills both orders and moves the money of
        both sides and the fees, nothing else; a known one only marks its outbox row; and
        after success the same call again finds it done. The books stay sound and locked
        stays exactly what is reserved. */
    method SettleTrade(item: Item) returns (r: Result<Settled>)
      modifies this
      ensures match Settlement.SettleTrade(old(store), item)
        case Ok((st, settled)) => r == Ok(settled) && store == st
        case Err(e) => r == Err(e) && store == old(store)
      ensures r.Ok? ==> Settlement.SettleTrade(store, item) == Ok((store, Settled(false, true, r.value.tradeId)))
      ensures r.Ok? && r.value.duplicate ==> store == old(store).(outbox := store.outbox)
      ensures r.Ok? ==> Marks(old(store), item, store, r.value)
      ensures var t := item.trade;
        t.symbol == "" || t.buyOrder == 0 || t.sellOrder == 0 || t.price <= 0.0 || t.quantity <= 0.0 || t.sequence < 0 ==> r == Err(Invalid)
      ensures forall i :: 0 <= i < |old(store).trades| && old(store).trades[i].key == item.trade.key
                          && TradeKeysUnique(old(store).trades) && WellFormed(item.trade) ==>
        r == if old(store).trades[i] == WithFees(item.trade) then Ok(Settled(false, true, i + 1)) else Err(Conflict)
      ensures r.Ok? && r.value.applied && R.KeysAccounted(old(store)) ==> Exchanged(old(store), store, WithFees(item.trade))
      ensures Sound(old(store).ledger) ==> Sound(store.ledger)
      ensures forall x: R.Exchange ::
        x.store == old(store) && R.Inv(x) && R.Enabled(x, R.Settle(item)) ==> R.Inv(x.(store := store))
    {
      hide Settlement.SettleTrade, R.KeysAccounted, R.Inv, R.Enabled, Sound, Exchanged, Marks, TradeKeysUnique;
      SettleFacts(store, item);
      MalformedIsRefused(store, item);
      forall i | 0 <= i < |store.trades| && store.trades[i].key == item.trade.key && TradeKeysUnique(store.trades) && WellFormed(item.trade)
        ensures if store.trades[i] == WithFees(item.trade)
          then Settlement.SettleTrade(store, item).Ok? && Settlement.SettleTrade(store, item).value.1 == Settled(false, true, i + 1)
          else Settlement.SettleTrade(store, item) == Err(Conflict)
      {
        KnownTradeIsAnswered(store, item, i);
      }
      r := RunTransaction(item);
    }

    method RunTransaction(item: Item) returns (r: Result<Settled>)
      modifies this
      ensures match Settlement.SettleTrade(old(store), item)
        case Ok((st, settled)) => r == Ok(settled) && store == st
        case Err(e) => r == Err(e) && store == old(store)
    {
      hide ApplyTrade;
      if !WellFormed(item.trade) {
        return Err(Invalid);
      }
      var t := WithFees(item.trade);
      var known := FindTrade(store.trades, t.key);
      if known.Some? {
        if store.trades[known.value] != t {
          return Err(Conflict);
        }
        store := store.(outbox := MarkOutbox(store.outbox, item.outboxId));
        return Ok(Settled(false, true, known.value + 1));
      }
      var applied := ApplyNew(t);
      if applied.Err? {
        return Err(applied.error);
      }
      store := store.(outbox := MarkOutbox(store.outbox, item.outboxId));
      return Ok(Settled(true, false, applied.value));
    }

    /** The row of a new trade, the two orders, the journal and the buyer's average. */
    method ApplyNew(t: Trade) returns (r: Result<nat>)
      modifies this
      ensures match ApplyTrade(old(store), t)
        case Ok(st) => store == st && r == Ok(|old(store).trades| + 1)
        case Err(e) => store == old(store) && r == Err(e)
    {
      hide Record, Fill, PlanTrade, RaiseAverage, ClearAverage;
      if !HasOrder(store.orders, t.buyOrder) || !HasOrder(store.orders, t.sellOrder) {
        return Err(NotFound);
      }
      var b, s := store.orders[t.buyOrder - 1], store.orders[t.sellOrder - 1];
      if !TermsAgree(t, b, s) {
        return Err(Invalid);
      }
      if !IsOpen(b) || !IsOpen(s) {
        return Err(Conflict);
      }
      var id := |store.trades| + 1;
      var bought, sold := Fill(b, t.quantity, Quote(t)), Fill(s, t.quantity, Quote(t));
      var plan := PlanTrade(t, b, s);
      if bought.Err? || sold.Err? || plan.Err? {
        return Err(Conflict);
      }
      var recorded := Record(store.ledger, TradeJournal(t, id, plan.value.postings));
      if recorded.Err? {
        return Err(recorded.error);
      }
      var ledger := recorded.value.ledger;
      var raised := RaiseAverage(store.averages, ledger, b.user, t.symbol, t.quantity, plan.value.cost);
      if raised.Err? {
        return Err(raised.error);
      }
      var averages := ClearAverage(raised.value, ledger, s.user, t.symbol);
      var orders := store.orders[t.buyOrder - 1 := bought.value][t.sellOrder - 1 := sold.value];
      store := Store(orders, store.trades + [t], ledger, store.outbox, averages);
      return Ok(id);
    }

    /** The batch commits exactly when one-by-one settlement would get through with no
        new key repeated and no outbox row missing; then every table ends as that run
        leaves it and each item gets the answer it would have got. Otherwise nothing
        changes. */
    method SettleTradeBatch(items: seq<Item>) returns (r: Result<seq<Settled>>)
      modifies this
      ensures r.Ok? <==> Batchable(old(store), items)
      ensures r.Ok? ==>
        && SameStore(store, SettleEach(old(store), items).value.0)
        && r.value == SettleEach(old(store), items).value.1
        && store.ledger.balances.Keys == old(store.ledger.balances.Keys) + PlannedAccounts(old(store), Prepared(items))
      ensures r.Err? ==> store == old(store)
    {
      hide SettleEach, FindTrade, PlanTrade, PayloadAgrees, NewKeysDistinct, PlannedAccounts, Mirrors, SameBooks, OutboxRowsExist;
      BatchablePassesChecks(store, items);
      var prepared := PrepareAll(items);
      if prepared.Err? {
        return Err(prepared.error);
      }
      var ts := prepared.value;
      var split := SplitDuplicates(store.trades, ts);
      if split.Err? {
        return Err(split.error);
      }
      var found := split.value;
      var inserted := InsertNew(store.trades, ts, found);
      if inserted.Err? {
        return Err(inserted.error);
      }
      var locked := LockOrders(store.orders, ts, found);
      if locked.Err? {
        return Err(locked.error);
      }
      var planned := PlanAll(store.orders, locked.value, ts, found);
      if planned.Err? {
        return Err(planned.error);
      }
      var provisioned := Provision(store.ledger, planned.value.1);
      ProvisionCovers(store, ts, found, locked.value, planned.value.0, planned.value.1);
      var settled, m := SettleInOrder(store, items, ts, found, locked.value, planned.value.0, provisioned);
      if settled.Err? {
        return Err(settled.error);
      }
      var orders := WriteOrders(store.orders, settled.value.0);
      var ids := CollectOutboxIds(items);
      var marked := MarkRows(store.outbox, ids);
      MarksAgree(store.outbox, items, ids);
      if marked.Err? {
        return Err(marked.error);
      }
      MirrorsEnd(store, items, m, settled.value.0, settled.value.1, settled.value.2);
      store := Store(orders, inserted.value, settled.value.1, marked.value, settled.value.2);
      return Ok(settled.value.3);
    }
  }
}
