/** From the scheduler to the ledger: whatever a started engine has emitted so far, for any
    number of symbols, settles in any order. */
module EngineSettlement {
  import opened Prelude
  import opened OrderBooks
  import opened Matching
  import opened BookRuns
  import opened EngineLogs
  import opened MatchingEngines
  import E = EngineTrades
  import T = BookTrades
  import L = Ledger
  import S = Settlement
  import R = Reservation
  import P = SettlementOrder

  /** The order table holds every order the engine has admitted. */
  predicate OrdersBacked(st: S.Store, orders: seq<BookOrder>) {
    forall i :: 0 <= i < |orders| ==> E.Backed(st, map[orders[i].id := orders[i]])
  }

  /** What was done to the book of every symbol that has traded. */
  ghost function Runs(e: MatchingEngine): map<string, seq<Action>>
    reads e`emitted, e`marks
  {
    map s | s in (set t | t in TradesIn(e.emitted) :: t.symbol) :: e.HistoryOf(s)
  }

  lemma RunsHas(e: MatchingEngine, s: string)
    requires s in Runs(e)
    ensures Runs(e)[s] == e.HistoryOf(s)
  {
  }

  lemma TraceIs(e: MatchingEngine, s: string)
    requires e.Valid() && DistinctIds(Admitted(e.marks))
    ensures Traces(e.HistoryOf(s), s, e.BookAt(s), e.sweep, e.emitted, Admitted(e.marks))
  {
    hide MatchingEngine.Core, MatchingEngine.IntakeOk, Traces, Deeds, TradesIn, Admitted, DistinctIds, MatchingEngine.BookAt, Consecutive, Truthful;
  }

  /** Everything an engine ever emitted are the trades of one run per symbol, the run its
      scheduler's marks tell of. */
  lemma EmittedTradesAreMade(e: MatchingEngine)
    requires e.Valid() && DistinctIds(Admitted(e.marks))
    ensures E.Made(TradesIn(e.emitted), Runs(e))
  {
    hide MatchingEngine.Valid, MatchingEngine.HistoryOf, T.IsShift, T.Shift, TradesIn, Admitted, DistinctIds, MatchingEngine.BookAt, Told, Enlisted;
    var all := TradesIn(e.emitted);
    forall s | s in Runs(e)
      ensures T.IsShift(Runs(e)[s], s) && T.Shift(T.OPENING, Runs(e)[s]).trades == T.OfSymbol(all, s)
    {
      RunsHas(e, s);
      TraceIs(e, s);
    }
    forall i | 0 <= i < |all| ensures all[i].symbol in Runs(e) {
      assert all[i] in all;
    }
  }

  /** In every state a started engine can be in, each book is where the marks of the
      scheduler lead, every cancel processed so far was answered as its book stood, and the
      events are numbered without a gap. */
  lemma StateFollowsFromMarks(e: MatchingEngine, symbol: string)
    requires e.Valid() && DistinctIds(Admitted(e.marks))
    ensures e.BookAt(symbol) == BookBy(e.marks, symbol, e.maxMatches)
    ensures Truthful(e.marks, e.maxMatches) && Consecutive(e.emitted, e.tradeSeq)
  {
    hide MatchingEngine.Core, MatchingEngine.IntakeOk, Traces, Deeds, TradesIn, Admitted, DistinctIds, MatchingEngine.BookAt, BookBy,
         Consecutive, Truthful;
    TraceIs(e, symbol);
    TracedBook(e.marks, symbol, e.maxMatches, e.BookAt(symbol), e.sweep, e.emitted, Admitted(e.marks));
  }

  // ------------------------------------------------------- what became of every order

  /** The order is the one being swept. */
  predicate BeingSwept(e: MatchingEngine, o: BookOrder)
    reads e`sweep
  {
    e.sweep.Some? && e.sweep.value.symbol == o.symbol && e.sweep.value.id == o.id
  }

  /** Whatever trades under an admitted order's id trades its symbol. */
  lemma {:induction false} TradesKeepToSymbol(e: MatchingEngine, o: BookOrder, s: string, id: nat)
    requires e.Valid() && DistinctIds(Admitted(e.marks)) && o in Admitted(e.marks) && o.id == id
    requires id in T.Shift(T.OPENING, e.HistoryOf(s)).submitted
    ensures s == o.symbol
  {
    hide MatchingEngine.Valid, MatchingEngine.HistoryOf, T.Shift, TradesIn, Admitted, MatchingEngine.BookAt, OnDesk, Told;
    TraceIs(e, s);
    var f := T.Shift(T.OPENING, e.HistoryOf(s));
    SubmittedIsOfSymbol(e.HistoryOf(s), s);
    var i, j :| 0 <= i < |Admitted(e.marks)| && 0 <= j < |Admitted(e.marks)| && Admitted(e.marks)[i] == o && Admitted(e.marks)[j] == f.submitted[id];
    assert i == j;
  }

  lemma SubmittedIsOfSymbol(actions: seq<Action>, s: string)
    requires T.IsShift(actions, s)
    ensures T.OneSymbol(T.Shift(T.OPENING, actions).submitted, s) && T.AllFair(T.Shift(T.OPENING, actions).trades, T.Shift(T.OPENING, actions).submitted)
  {
    hide T.Shift, T.IsShift, T.OneSymbol, T.AllFair, Inv, T.Kept, T.Single, T.AllTied, T.Capped, T.Tied;
    T.EveryTradeIsCovered(actions, s);
  }

  lemma {:induction false} VolumeIsOfSymbol(e: MatchingEngine, o: BookOrder)
    requires e.Valid() && DistinctIds(Admitted(e.marks)) && o in Admitted(e.marks)
    ensures var f := T.Shift(T.OPENING, e.HistoryOf(o.symbol));
      && T.Volume(TradesIn(e.emitted), o.id) == T.Volume(f.trades, o.id)
      && T.Turnover(TradesIn(e.emitted), o.id) == T.Turnover(f.trades, o.id)
  {
    hide MatchingEngine.Valid, MatchingEngine.HistoryOf, T.IsShift, T.Shift, TradesIn, Admitted, MatchingEngine.BookAt, OnDesk, Told, Enlisted,
         T.OneSymbol, DistinctIds, T.Volume, T.Turnover, T.OfSymbol;
    var all := TradesIn(e.emitted);
    forall k | 0 <= k < |all| && (all[k].buyOrder == o.id || all[k].sellOrder == o.id) ensures all[k].symbol == o.symbol {
      var s := all[k].symbol;
      TraceIs(e, s);
      SubmittedIsOfSymbol(e.HistoryOf(s), s);
      E.OfSymbolHas(all, k);
      assert T.Fair(all[k], T.Shift(T.OPENING, e.HistoryOf(s)).submitted);
      TradesKeepToSymbol(e, o, s, o.id);
    }
    T.VolumeOfSymbol(all, o.symbol, o.id);
    TraceIs(e, o.symbol);
  }

  /** In every state a started engine can be in: an admitted limit order that is not being
      swept and of which no cancel was told stands in the queue of its side and price with
      its amount less all it has traded, whenever that is positive, and otherwise nothing of
      it is left on the book. */
  lemma {:induction false} AdmittedOrdersWait(e: MatchingEngine, o: BookOrder)
    requires e.Valid() && DistinctIds(Admitted(e.marks)) && o in Admitted(e.marks) && o.kind == Limit
    ensures var left := o.amount - T.Volume(TradesIn(e.emitted), o.id);
      if left > 0.0 && !BeingSwept(e, o) && !SaysCancelled(e.emitted, o.symbol, o.id)
      then T.Waiting(e.BookAt(o.symbol), o, left)
      else forall x: BookOrder :: x in Queue(e.BookAt(o.symbol).On(x.side), x.price) ==> x.id != o.id
  {
    hide MatchingEngine.Valid, MatchingEngine.HistoryOf, T.IsShift, T.Shift, TradesIn, Admitted, MatchingEngine.BookAt, DistinctIds,
         T.Volume, T.Turnover, T.Waiting, Queue, SaysCancelled, T.OfSymbol;
    var s := o.symbol;
    TraceIs(e, s);
    VolumeIsOfSymbol(e, o);
    T.WhatIsLeftWaits(e.HistoryOf(s), s, o.id);
  }

  /** What the engine says of a market order when it is done with it. */
  ghost function ReportOn(e: MatchingEngine, o: BookOrder): ExecutionEvent
    reads e`emitted
  {
    var volume, turnover := T.Volume(TradesIn(e.emitted), o.id), T.Turnover(TradesIn(e.emitted), o.id);
    MarketDone(o.id, o.symbol, o.side, o.filled + volume, o.filledQuote + turnover,
               if o.side == Buy then o.amount else o.amount - volume, if o.side == Buy then o.quote - turnover else o.quote)
  }

  /** Every admitted market order whose sweep is over has been reported, and what any report
      says is what the order has traded in all the trades emitted so far. */
  lemma {:induction false} MarketOrdersAreReported(e: MatchingEngine, o: BookOrder)
    requires e.Valid() && DistinctIds(Admitted(e.marks)) && o in Admitted(e.marks) && o.kind == Market
    ensures (o.side == Buy || o.amount > 0.0) && !BeingSwept(e, o) ==> ReportOn(e, o) in e.emitted
    ensures forall r :: r in e.emitted && r.MarketDone? && r.order == o.id ==> r == ReportOn(e, o)
  {
    hide MatchingEngine.Valid, MatchingEngine.HistoryOf, T.IsShift, T.Shift, TradesIn, Admitted, MatchingEngine.BookAt, DistinctIds,
         T.Volume, T.Turnover, SaysCancelled, T.OfSymbol;
    var s := o.symbol;
    TraceIs(e, s);
    VolumeIsOfSymbol(e, o);
    T.EveryReportIsFinal(e.HistoryOf(s), s);
    forall r | r in e.emitted && r.MarketDone? && r.order == o.id ensures r == ReportOn(e, o) {
      TraceIs(e, r.symbol);
      T.EveryReportIsFinal(e.HistoryOf(r.symbol), r.symbol);
      TradesKeepToSymbol(e, o, r.symbol, o.id);
    }
  }

  lemma AdmittedAreBacked(e: MatchingEngine, st: S.Store)
    requires e.Valid() && DistinctIds(Admitted(e.marks)) && OrdersBacked(st, Admitted(e.marks))
    ensures E.AllBacked(st, Runs(e))
  {
    hide MatchingEngine.Valid, MatchingEngine.HistoryOf, T.IsShift, T.Shift, TradesIn, Admitted, DistinctIds, MatchingEngine.BookAt;
    forall s | s in Runs(e) ensures E.Backed(st, T.Shift(T.OPENING, Runs(e)[s]).submitted) {
      RunsHas(e, s);
      var submitted := T.Shift(T.OPENING, e.HistoryOf(s)).submitted;
      TraceIs(e, s);
      forall id | id in submitted ensures E.Backed(st, map[id := submitted[id]]) {
        var i :| 0 <= i < |Admitted(e.marks)| && Admitted(e.marks)[i] == submitted[id];
      }
      OneByOne(st, submitted);
    }
  }

  lemma OneByOne(st: S.Store, submitted: map<nat, BookOrder>)
    requires forall id :: id in submitted ==> E.Backed(st, map[id := submitted[id]])
    ensures E.Backed(st, submitted)
  {
    forall id | id in submitted ensures id in map[id := submitted[id]] && map[id := submitted[id]][id] == submitted[id] {
      assert E.Backed(st, map[id := submitted[id]]);
    }
  }

  /** End to end: in every state a started engine can be in, the trades it has emitted for
      limit buyers, of all symbols together, settle completely in whatever order the
      workers take them, with the same fills, statuses and balances. */
  lemma EmittedTradesSettleInAnyOrder(e: MatchingEngine, base: R.Exchange, keys: seq<string>, us: seq<S.Trade>)
    requires e.Valid() && DistinctIds(Admitted(e.marks)) && OrdersBacked(base.store, Admitted(e.marks))
    requires |keys| == |TradesIn(e.emitted)| && E.NewKeys(base.store, keys)
    requires R.Inv(base) && L.Sound(base.store.ledger)
    requires P.PartiesSolvent(base.store, E.Settling(base.store, TradesIn(e.emitted), keys, |keys|))
    requires multiset(us) == multiset(E.Settling(base.store, TradesIn(e.emitted), keys, |keys|))
    ensures var ts := E.Settling(base.store, TradesIn(e.emitted), keys, |keys|);
      && P.SettleAll(base.store, ts).Ok? && P.SettleAll(base.store, us).Ok?
      && var a, b := P.SettleAll(base.store, ts).value, P.SettleAll(base.store, us).value;
         a.orders == b.orders && forall x :: L.Balance(a.ledger, x) == L.Balance(b.ledger, x)
  {
    hide MatchingEngine.Valid, R.Inv, L.Sound, P.PartiesSolvent, E.Settling, E.NewKeys, E.Made, E.AllBacked, P.SettleAll,
         TradesIn, Admitted, DistinctIds, OrdersBacked;
    EmittedTradesAreMade(e);
    AdmittedAreBacked(e, base.store);
    E.EngineTradesSettleInAnyOrder(base, TradesIn(e.emitted), Runs(e), keys, us);
  }
}
