/** What the engine says and what it has done: the events it emits, the marks of its
    scheduler, and how the two amount to one run per book. */
module EngineLogs {
  import opened Prelude
  import opened OrderBooks
  import opened Matching
  import opened BookRuns
  import T = BookTrades

  /** Sides are a type here, so a command cannot name a side that does not exist. */
  datatype CancelCommand = CancelCommand(commandId: nat, symbol: string, order: nat, side: Side, price: real)

  datatype CancelReply = Removed | InvalidCommand | OrderNotFound | Backpressured

  datatype ExecutionEvent =
    | TradeEvent(sequence: nat, trade: EngineTrade)
    | MarketDone(order: nat, symbol: string, side: Side,
                 filled: real, filledQuote: real, remaining: real, remainingQuote: real)
    | OrderCancelled(sequence: nat, commandId: nat, order: nat, symbol: string, side: Side)

  /** What is said of a market order when its sweep is over. */
  function DoneEvent(o: BookOrder): ExecutionEvent {
    MarketDone(o.id, o.symbol, o.side, o.filled, o.filledQuote, o.amount, o.quote)
  }

  /** Orders the engine can match: they name a symbol, and a limit order a price. */
  predicate Submittable(o: BookOrder) {
    o.symbol != "" && (o.kind == Limit ==> o.price > 0.0)
  }

  /** Orders the services submit have no negative amount or budget either. */
  predicate Offerable(o: BookOrder) {
    Submittable(o) && o.amount >= 0.0 && o.quote >= 0.0
  }

  /** The events of a run of trades, numbered on from `from`. */
  function Numbered(ts: seq<EngineTrade>, from: nat): seq<ExecutionEvent> {
    seq(|ts|, i requires 0 <= i < |ts| => TradeEvent(from + i + 1, ts[i]))
  }

  lemma NumberedNext(ts: seq<EngineTrade>, t: EngineTrade, from: nat)
    ensures Numbered(ts + [t], from) == Numbered(ts, from) + [TradeEvent(from + |ts| + 1, t)]
  {
  }

  // -------------------------------------------------------------------- turn marks

  /** What the scheduler did, in order: it answered a cancel, made progress (ran a slice on
      the book of a symbol, or gave admission its chance), or admitted an order. */
  datatype Mark = Answer(cmd: CancelCommand, reply: CancelReply) | Progress(ran: Option<string>) | Admission(order: BookOrder)

  /** Cancels processed since the last progress; a refusal is not processing. */
  function Streak(marks: seq<Mark>): nat {
    if marks == [] then 0
    else
      var before := marks[..|marks| - 1];
      match marks[|marks| - 1]
      case Progress(_) => 0
      case Admission(_) => Streak(before)
      case Answer(_, reply) => Streak(before) + if reply == Backpressured then 0 else 1
  }

  /** At no moment were more than `most` cancels processed since the last progress. */
  predicate WithinQuota(marks: seq<Mark>, most: nat) {
    marks == [] || (WithinQuota(marks[..|marks| - 1], most) && Streak(marks) <= most)
  }

  function ProgressCount(marks: seq<Mark>): nat {
    if marks == [] then 0
    else ProgressCount(marks[..|marks| - 1]) + if marks[|marks| - 1].Progress? then 1 else 0
  }

  lemma {:induction false} MarkNext(marks: seq<Mark>, m: Mark, most: nat)
    ensures Streak(marks + [m]) == match m
      case Progress(_) => 0
      case Admission(_) => Streak(marks)
      case Answer(_, reply) => Streak(marks) + if reply == Backpressured then 0 else 1
    ensures ProgressCount(marks + [m]) == ProgressCount(marks) + if m.Progress? then 1 else 0
    ensures WithinQuota(marks + [m], most) <==> WithinQuota(marks, most) && Streak(marks + [m]) <= most
  {
    assert (marks + [m])[..|marks|] == marks;
  }

  /** The counter agrees with the marks, and the quota was always kept. */
  predicate Counted(marks: seq<Mark>, count: nat, most: nat) {
    count == Streak(marks) && count <= most && WithinQuota(marks, most)
  }

  /** What a mark does to the counter. */
  function Next(count: nat, m: Mark): nat {
    match m
    case Progress(_) => 0
    case Admission(_) => count
    case Answer(_, reply) => count + if reply == Backpressured then 0 else 1
  }

  lemma CountNext(marks: seq<Mark>, count: nat, m: Mark, most: nat)
    requires Counted(marks, count, most) && (m.Answer? && m.reply != Backpressured ==> count < most)
    ensures Counted(marks + [m], Next(count, m), most)
    ensures ProgressCount(marks + [m]) == ProgressCount(marks) + if m.Progress? then 1 else 0
  {
    MarkNext(marks, m, most);
  }

  // ------------------------------------------------------------------------- turns

  /** What one turn did: the marks before and after it, whether it started with a sweep,
      with how much room, how many cancels into its quota and with which cancel latched,
      and the room found when a slice was due. */
  datatype Turn = Turn(
    before: seq<Mark>, after: seq<Mark>, swept: bool, room: int, streak: nat, free: int, latched: Option<CancelCommand>)

  /** Nothing happened between two moments but answers to cancels. */
  predicate OnlyAnswers(before: seq<Mark>, after: seq<Mark>) {
    before <= after && forall i :: |before| <= i < |after| ==> after[i].Answer?
  }

  /** No order was admitted between two moments. */
  predicate NoAdmission(before: seq<Mark>, after: seq<Mark>) {
    before <= after && forall i :: |before| <= i < |after| ==> !after[i].Admission?
  }

  /** The last thing that happened was a slice. */
  predicate EndsWithSlice(marks: seq<Mark>) {
    marks != [] && marks[|marks| - 1].Progress? && marks[|marks| - 1].ran.Some?
  }

  predicate Answered(before: seq<Mark>, after: seq<Mark>, cmd: CancelCommand) {
    |before| < |after| && after[|before|].Answer? && after[|before|].cmd == cmd
  }

  /** A slice may start with this much free room. */
  predicate RoomForSlice(free: int, maxMatches: int, maxCancels: int) {
    free - 1 - maxCancels >= maxMatches
  }

  predicate Starved(t: Turn, maxMatches: int, maxCancels: int) {
    t.swept && !RoomForSlice(t.free, maxMatches, maxCancels)
  }

  /** One progress unless the sweep found no room; the room found is what was free at the
      start, less a place for each cancel processed, and those are within the quota and
      among the marks; a sweep is not overtaken and with room has its slice; with the quota fresh a latched cancel is
      answered. */
  predicate FairTurn(t: Turn, maxMatches: int, maxCancels: int) {
    && t.before <= t.after
    && t.free >= t.room - (maxCancels - t.streak) && t.free >= t.room - (|t.after| - |t.before|)
    && ProgressCount(t.after) == ProgressCount(t.before) + (if Starved(t, maxMatches, maxCancels) then 0 else 1)
    && (t.swept ==> NoAdmission(t.before, t.after))
    && (t.swept && !Starved(t, maxMatches, maxCancels) ==> EndsWithSlice(t.after))
    && (t.latched.Some? && t.streak == 0 ==> Answered(t.before, t.after, t.latched.value))
  }

  /** A turn that leaves its latched cancel unanswered leaves it latched, the quota fresh. */
  predicate Waits(t: Turn, latched: Option<CancelCommand>, streak: nat) {
    t.latched.Some? && !Answered(t.before, t.after, t.latched.value) ==> latched == t.latched && streak == 0
  }

  function StarvedTurns(log: seq<Turn>, maxMatches: int, maxCancels: int): nat {
    if log == [] then 0
    else StarvedTurns(log[..|log| - 1], maxMatches, maxCancels) + if Starved(log[|log| - 1], maxMatches, maxCancels) then 1 else 0
  }

  /** Fair turns one after another, in which a latched cancel is answered in its turn or in
      the next. */
  predicate FairRun(log: seq<Turn>, from: seq<Mark>, to: seq<Mark>, maxMatches: int, maxCancels: int) {
    && (forall i :: 0 <= i < |log| ==> FairTurn(log[i], maxMatches, maxCancels))
    && (if log == [] then from == to else log[0].before == from && log[|log| - 1].after == to)
    && (forall i :: 0 <= i < |log| - 1 ==> log[i].after == log[i + 1].before)
    && (forall i :: 0 <= i < |log| - 1 && log[i].latched.Some? ==>
          || Answered(log[i].before, log[i].after, log[i].latched.value)
          || Answered(log[i + 1].before, log[i + 1].after, log[i].latched.value))
  }

  lemma NoTurns(marks: seq<Mark>, maxMatches: int, maxCancels: int)
    ensures FairRun([], marks, marks, maxMatches, maxCancels) && StarvedTurns([], maxMatches, maxCancels) == 0
  {
  }

  lemma FairRunNext(log: seq<Turn>, t: Turn, from: seq<Mark>, maxMatches: int, maxCancels: int)
    requires FairRun(log, from, t.before, maxMatches, maxCancels) && FairTurn(t, maxMatches, maxCancels)
    requires log != [] ==> Waits(log[|log| - 1], t.latched, t.streak)
    ensures FairRun(log + [t], from, t.after, maxMatches, maxCancels)
    ensures StarvedTurns(log + [t], maxMatches, maxCancels) ==
      StarvedTurns(log, maxMatches, maxCancels) + if Starved(t, maxMatches, maxCancels) then 1 else 0
    ensures ProgressCount(t.after) == ProgressCount(t.before) + 1 - if Starved(t, maxMatches, maxCancels) then 1 else 0
  {
    hide FairTurn, Answered, Starved, FairRun, Waits;
    assert (log + [t])[..|log|] == log;
    FairProgress(t, maxMatches, maxCancels);
    LongerRunIsFair(log, t, from, maxMatches, maxCancels);
  }

  lemma LongerRunIsFair(log: seq<Turn>, t: Turn, from: seq<Mark>, maxMatches: int, maxCancels: int)
    requires FairRun(log, from, t.before, maxMatches, maxCancels) && FairTurn(t, maxMatches, maxCancels)
    requires log != [] ==> Waits(log[|log| - 1], t.latched, t.streak)
    ensures FairRun(log + [t], from, t.after, maxMatches, maxCancels)
  {
    hide FairTurn, Answered, Starved, StarvedTurns, ProgressCount;
    var longer, n := log + [t], |log|;
    if n > 0 {
      assert longer[n - 1] == log[n - 1] && longer[n] == t;
      LatchIsAnswered(log[n - 1], t, maxMatches, maxCancels);
    }
    forall i | 0 <= i < n ensures longer[i] == log[i] {
    }
  }

  lemma FairProgress(t: Turn, maxMatches: int, maxCancels: int)
    requires FairTurn(t, maxMatches, maxCancels)
    ensures ProgressCount(t.after) == ProgressCount(t.before) + 1 - if Starved(t, maxMatches, maxCancels) then 1 else 0
  {
    hide NoAdmission, Answered, ProgressCount, Starved;
  }

  lemma LatchIsAnswered(t: Turn, u: Turn, maxMatches: int, maxCancels: int)
    requires FairTurn(u, maxMatches, maxCancels) && Waits(t, u.latched, u.streak)
    ensures t.latched.Some? ==>
      Answered(t.before, t.after, t.latched.value) || Answered(u.before, u.after, t.latched.value)
  {
    hide NoAdmission, ProgressCount, Starved;
  }

  // ------------------------------------------------------------------------ intake

  /** The orders admitted, in order. */
  function Admitted(marks: seq<Mark>): seq<BookOrder> {
    if marks == [] then []
    else
      var m := marks[|marks| - 1];
      Admitted(marks[..|marks| - 1]) + if m.Admission? then [m.order] else []
  }

  /** The cancels answered, in order. */
  function Replied(marks: seq<Mark>): seq<CancelCommand> {
    if marks == [] then []
    else
      var m := marks[|marks| - 1];
      Replied(marks[..|marks| - 1]) + if m.Answer? then [m.cmd] else []
  }

  lemma IntakeNext(marks: seq<Mark>, m: Mark)
    ensures Admitted(marks + [m]) == if m.Admission? then Admitted(marks) + [m.order] else Admitted(marks)
    ensures Replied(marks + [m]) == if m.Answer? then Replied(marks) + [m.cmd] else Replied(marks)
  {
    assert (marks + [m])[..|marks|] == marks;
  }

  /** What the scheduler has taken and not dealt with yet. */
  datatype Hand = Hand(order: Option<BookOrder>, cancel: Option<CancelCommand>)

  function Latched<A>(latch: Option<A>): seq<A> {
    if latch.Some? then [latch.value] else []
  }

  predicate DistinctIds(orders: seq<BookOrder>) {
    forall i, j :: 0 <= i < j < |orders| ==> orders[i].id != orders[j].id
  }

  // ------------------------------------------------------------------ one run per book

  /** The trades among the events, in order. */
  function TradesIn(events: seq<ExecutionEvent>): seq<EngineTrade> {
    if events == [] then []
    else
      var e := events[|events| - 1];
      TradesIn(events[..|events| - 1]) + if e.TradeEvent? then [e.trade] else []
  }

  lemma TradesInNext(events: seq<ExecutionEvent>, e: ExecutionEvent)
    ensures TradesIn(events + [e]) == if e.TradeEvent? then TradesIn(events) + [e.trade] else TradesIn(events)
  {
    assert (events + [e])[..|events|] == events;
  }

  lemma {:induction false} TradesInNumbered(events: seq<ExecutionEvent>, ts: seq<EngineTrade>, from: nat)
    ensures TradesIn(events + Numbered(ts, from)) == TradesIn(events) + ts
  {
    hide TradesIn;
    if ts == [] {
      assert events + Numbered(ts, from) == events && TradesIn(events) + [] == TradesIn(events);
    } else {
      var before, t := ts[..|ts| - 1], ts[|ts| - 1];
      assert ts == before + [t];
      TradesInNumbered(events, before, from);
      NumberedNext(before, t, from);
      var e := TradeEvent(from + |before| + 1, t);
      assert events + Numbered(ts, from) == events + Numbered(before, from) + [e];
      TradesInNext(events + Numbered(before, from), e);
    }
  }

  lemma {:induction false} OfSymbolAppend(trades: seq<EngineTrade>, ts: seq<EngineTrade>, symbol: string, s: string)
    requires forall i :: 0 <= i < |ts| ==> ts[i].symbol == symbol
    ensures T.OfSymbol(trades + ts, s) == if s == symbol then T.OfSymbol(trades, s) + ts else T.OfSymbol(trades, s)
  {
    hide T.OfSymbol;
    if ts == [] {
      assert trades + ts == trades && T.OfSymbol(trades, s) + [] == T.OfSymbol(trades, s);
    } else {
      var before, t := ts[..|ts| - 1], ts[|ts| - 1];
      assert trades + ts == trades + before + [t];
      OfSymbolAppend(trades, before, symbol, s);
      T.OfSymbolNext(trades + before, t, s);
    }
  }

  lemma TradeSymbol(book: Book, o: BookOrder)
    requires TradeOnce(book, o).Some?
    ensures TradeOnce(book, o).value.trade.symbol == o.symbol && TradeOnce(book, o).value.order.symbol == o.symbol
  {
    hide Best, Take, Capacity;
  }

  lemma {:induction false} SliceSymbols(book: Book, o: BookOrder, n: nat)
    ensures forall i :: 0 <= i < |Slice(book, o, n).trades| ==> Slice(book, o, n).trades[i].symbol == o.symbol
    ensures Slice(book, o, n).order.symbol == o.symbol
    decreases n
  {
    hide TradeOnce;
    if TradeOnce(book, o).Some? && n > 0 {
      var t := TradeOnce(book, o).value;
      TradeSymbol(book, o);
      SliceSymbols(t.book, t.order, n - 1);
    }
  }

  /** What a mark means for the book of a symbol. */
  function Deed(m: Mark, symbol: string, n: nat): seq<Action> {
    match m
    case Admission(o) => if o.symbol == symbol then [Admit(o)] else []
    case Progress(ran) => if ran == Some(symbol) then [RunSlice(n)] else []
    case Answer(cmd, reply) =>
      if reply == Removed && cmd.symbol == symbol then [Cancel(cmd.side, cmd.price, cmd.order)] else []
  }

  /** What the marks say was done to a book, with slices of `n` trades. */
  function Deeds(marks: seq<Mark>, symbol: string, n: nat): seq<Action> {
    if marks == [] then [] else Deeds(marks[..|marks| - 1], symbol, n) + Deed(marks[|marks| - 1], symbol, n)
  }

  lemma DeedsNext(marks: seq<Mark>, m: Mark, symbol: string, n: nat)
    ensures Deeds(marks + [m], symbol, n) == Deeds(marks, symbol, n) + Deed(m, symbol, n)
  {
    assert (marks + [m])[..|marks|] == marks;
  }

  /** The right answer to a cancel, as the book stands. */
  ghost function Verdict(book: Book, cmd: CancelCommand): CancelReply {
    if cmd.order == 0 || cmd.symbol == "" || cmd.price < 0.0 then InvalidCommand
    else if exists x :: x in Queue(book.On(cmd.side), cmd.price) && x.id == cmd.order then Removed
    else OrderNotFound
  }

  lemma VerdictOnRest(book: Book, cmd: CancelCommand)
    requires !(cmd.order == 0 || cmd.symbol == "" || cmd.price < 0.0)
    ensures Verdict(book, cmd) == if Remove(book.On(cmd.side), cmd.price, cmd.order).Some? then Removed else OrderNotFound
  {
    var q := Queue(book.On(cmd.side), cmd.price);
    var i := IndexOf(q, cmd.order);
    if i < |q| {
      assert q[i] in q;
    }
  }

  ghost function BookBy(marks: seq<Mark>, symbol: string, n: nat): Book {
    T.Shift(T.OPENING, Deeds(marks, symbol, n)).desk.book
  }

  /** Every cancel that was processed got the right answer, for the book as it stood when it
      was answered. */
  ghost predicate Truthful(marks: seq<Mark>, n: nat) {
    forall i :: 0 <= i < |marks| && marks[i].Answer? && marks[i].reply != Backpressured ==>
      marks[i].reply == Verdict(BookBy(marks[..i], marks[i].cmd.symbol, n), marks[i].cmd)
  }

  lemma TruthfulNext(marks: seq<Mark>, m: Mark, n: nat)
    requires Truthful(marks, n)
    requires m.Answer? && m.reply != Backpressured ==> m.reply == Verdict(BookBy(marks, m.cmd.symbol, n), m.cmd)
    ensures Truthful(marks + [m], n)
  {
    hide Verdict, BookBy;
    var longer := marks + [m];
    forall i | 0 <= i < |longer| && longer[i].Answer? && longer[i].reply != Backpressured
      ensures longer[i].reply == Verdict(BookBy(longer[..i], longer[i].cmd.symbol, n), longer[i].cmd)
    {
      if i < |marks| {
        assert longer[..i] == marks[..i] && longer[i] == marks[i];
      } else {
        assert longer[..i] == marks;
      }
    }
  }

  // ---------------------------------------------------------------- sequence numbers

  /** The numbers given to trades and cancels, in order; a report has none. */
  function Sequences(events: seq<ExecutionEvent>): seq<nat> {
    if events == [] then []
    else
      var e := events[|events| - 1];
      Sequences(events[..|events| - 1]) + if e.MarketDone? then [] else [e.sequence]
  }

  /** Numbered from one to `last` without a gap. */
  predicate Consecutive(events: seq<ExecutionEvent>, last: nat) {
    |Sequences(events)| == last && forall i :: 0 <= i < last ==> Sequences(events)[i] == i + 1
  }

  lemma ConsecutiveNext(events: seq<ExecutionEvent>, last: nat, e: ExecutionEvent)
    requires Consecutive(events, last) && (!e.MarketDone? ==> e.sequence == last + 1)
    ensures Consecutive(events + [e], if e.MarketDone? then last else last + 1)
  {
    assert (events + [e])[..|events|] == events;
  }

  lemma {:induction false} ConsecutiveTrades(events: seq<ExecutionEvent>, ts: seq<EngineTrade>, from: nat)
    requires Consecutive(events, from)
    ensures Consecutive(events + Numbered(ts, from), from + |ts|)
  {
    hide Consecutive;
    if ts == [] {
      assert events + Numbered(ts, from) == events;
    } else {
      var before, t := ts[..|ts| - 1], ts[|ts| - 1];
      assert ts == before + [t];
      ConsecutiveTrades(events, before, from);
      NumberedNext(before, t, from);
      var e := TradeEvent(from + |before| + 1, t);
      assert events + Numbered(ts, from) == events + Numbered(before, from) + [e];
      ConsecutiveNext(events + Numbered(before, from), from + |before|, e);
    }
  }

  lemma ConsecutiveSlice(events: seq<ExecutionEvent>, ts: seq<EngineTrade>, from: nat, report: Option<ExecutionEvent>)
    requires Consecutive(events, from) && (report.Some? ==> report.value.MarketDone?)
    ensures Consecutive(events + Numbered(ts, from) + Latched(report), from + |ts|)
  {
    hide Consecutive;
    ConsecutiveTrades(events, ts, from);
    if report.Some? {
      ConsecutiveNext(events + Numbered(ts, from), from + |ts|, report.value);
    } else {
      assert events + Numbered(ts, from) + [] == events + Numbered(ts, from);
    }
  }

  /** So no two events share a number, and a later event has the larger one. */
  lemma {:induction false} NumbersIncrease(events: seq<ExecutionEvent>, last: nat, i: nat, j: nat)
    requires Consecutive(events, last) && i < j < |events| && !events[i].MarketDone? && !events[j].MarketDone?
    ensures 1 <= events[i].sequence < events[j].sequence <= last
    decreases |events|
  {
    hide Consecutive;
    var n := |events| - 1;
    var before := ConsecutiveBefore(events, last);
    if j < n {
      NumbersIncrease(events[..n], before, i, j);
    } else {
      NumberIsBelow(events[..n], before, i);
    }
  }

  lemma {:induction false} NumberIsBelow(events: seq<ExecutionEvent>, last: nat, i: nat)
    requires Consecutive(events, last) && i < |events| && !events[i].MarketDone?
    ensures 1 <= events[i].sequence <= last
    decreases |events|
  {
    hide Consecutive;
    var n := |events| - 1;
    var before := ConsecutiveBefore(events, last);
    if i < n {
      NumberIsBelow(events[..n], before, i);
    }
  }

  lemma ConsecutiveBefore(events: seq<ExecutionEvent>, last: nat) returns (before: nat)
    requires Consecutive(events, last) && events != []
    ensures Consecutive(events[..|events| - 1], before) && before <= last
    ensures var e := events[|events| - 1]; !e.MarketDone? ==> e.sequence == last == before + 1
  {
    var e := events[|events| - 1];
    var some := Sequences(events[..|events| - 1]);
    before := |some|;
    assert Sequences(events) == some + if e.MarketDone? then [] else [e.sequence];
    assert forall i :: 0 <= i < |some| ==> some[i] == Sequences(events)[i];
    assert !e.MarketDone? ==> Sequences(events)[before] == e.sequence;
  }

  // ------------------------------------------------------------------ runs and events

  /** The sweep in hand is the one on this symbol's desk. */
  predicate OnDesk(active: Option<Active>, sweep: Option<BookOrder>, symbol: string) {
    if sweep.Some? && sweep.value.symbol == symbol then active.Some? && active.value.order == sweep.value else active.None?
  }

  ghost predicate SaysCancelled(events: seq<ExecutionEvent>, symbol: string, id: nat) {
    exists e :: e in events && e.OrderCancelled? && e.symbol == symbol && e.order == id
  }

  /** The events tell of exactly the cancelled orders and the finished market orders. */
  ghost predicate Told(f: T.Floor, symbol: string, events: seq<ExecutionEvent>) {
    && (forall id :: id in f.cancelled <==> SaysCancelled(events, symbol, id))
    && (forall e :: e in events && e.MarketDone? && e.symbol == symbol ==>
          e.order in f.reports && e == DoneEvent(f.reports[e.order]))
    && forall id :: id in f.reports ==> DoneEvent(f.reports[id]) in events
  }

  /** The orders submitted to a book are the admitted ones of its symbol. */
  predicate Enlisted(submitted: map<nat, BookOrder>, symbol: string, admitted: seq<BookOrder>) {
    && (forall id :: id in submitted ==> submitted[id] in admitted && submitted[id].id == id)
    && forall o :: o in admitted && o.symbol == symbol ==> o.id in submitted && submitted[o.id] == o
  }

  /** An event of another book, or a trade. */
  predicate Unrelated(e: ExecutionEvent, symbol: string) {
    e.TradeEvent? || e.symbol != symbol
  }

  lemma ToldMore(f: T.Floor, symbol: string, events: seq<ExecutionEvent>, more: seq<ExecutionEvent>)
    requires Told(f, symbol, events) && forall i :: 0 <= i < |more| ==> Unrelated(more[i], symbol)
    ensures Told(f, symbol, events + more)
  {
    forall id ensures SaysCancelled(events + more, symbol, id) <==> SaysCancelled(events, symbol, id) {
      if SaysCancelled(events, symbol, id) {
        var e :| e in events && e.OrderCancelled? && e.symbol == symbol && e.order == id;
        assert e in events + more;
      }
    }
  }

  lemma ToldReport(f: T.Floor, symbol: string, events: seq<ExecutionEvent>, o: BookOrder)
    requires Told(f, symbol, events) && o.symbol == symbol && o.id !in f.reports
    ensures Told(f.(reports := f.reports[o.id := o]), symbol, events + [DoneEvent(o)])
  {
    forall id ensures SaysCancelled(events + [DoneEvent(o)], symbol, id) <==> SaysCancelled(events, symbol, id) {
      if SaysCancelled(events, symbol, id) {
        var e :| e in events && e.OrderCancelled? && e.symbol == symbol && e.order == id;
        assert e in events + [DoneEvent(o)];
      }
    }
  }

  lemma ToldCancel(f: T.Floor, symbol: string, events: seq<ExecutionEvent>, event: ExecutionEvent)
    requires Told(f, symbol, events) && event.OrderCancelled? && event.symbol == symbol
    ensures Told(f.(cancelled := f.cancelled + {event.order}), symbol, events + [event])
  {
    assert event in events + [event];
    forall id ensures SaysCancelled(events + [event], symbol, id) <==> SaysCancelled(events, symbol, id) || id == event.order {
      if SaysCancelled(events, symbol, id) {
        var e :| e in events && e.OrderCancelled? && e.symbol == symbol && e.order == id;
        assert e in events + [event];
      }
    }
  }

  /** Only the cancels and the reports of a run are told. */
  lemma ToldAlike(f: T.Floor, g: T.Floor, symbol: string, events: seq<ExecutionEvent>)
    requires Told(f, symbol, events) && f.cancelled == g.cancelled && f.reports == g.reports
    ensures Told(g, symbol, events)
  {
  }

  /** A run of one book that leads to the engine's state: its book, its sweep, the trades
      among its events and the other things they tell, and the orders admitted. */
  ghost predicate Traces(
    actions: seq<Action>, symbol: string, book: Book, sweep: Option<BookOrder>, events: seq<ExecutionEvent>, admitted: seq<BookOrder>)
  {
    var f := T.Shift(T.OPENING, actions);
    && T.IsShift(actions, symbol)
    && f.desk.book == book && OnDesk(f.desk.active, sweep, symbol)
    && f.trades == T.OfSymbol(TradesIn(events), symbol) && Told(f, symbol, events)
    && Enlisted(f.submitted, symbol, admitted)
  }

  /** The book of a trace is the one its actions lead to. */
  lemma TracedBook(
    marks: seq<Mark>, symbol: string, n: nat, book: Book, sweep: Option<BookOrder>, events: seq<ExecutionEvent>, admitted: seq<BookOrder>)
    requires Traces(Deeds(marks, symbol, n), symbol, book, sweep, events, admitted)
    ensures BookBy(marks, symbol, n) == book
  {
    hide T.Shift, T.IsShift, Deeds, Told, Enlisted, OnDesk;
  }

  lemma ShiftNext(actions: seq<Action>, a: Action, symbol: string)
    requires T.IsShift(actions, symbol) && T.Permitted(T.Shift(T.OPENING, actions), a, symbol)
    ensures T.IsShift(actions + [a], symbol)
    ensures T.Shift(T.OPENING, actions + [a]) == T.Advance(T.Shift(T.OPENING, actions), a)
  {
    hide T.Permitted, T.Advance;
    var longer := actions + [a];
    assert longer[..|actions|] == actions;
    forall i | 0 <= i < |longer| ensures T.Permitted(T.Shift(T.OPENING, longer[..i]), longer[i], symbol) {
      if i < |actions| {
        assert longer[..i] == actions[..i];
      }
    }
  }

  lemma TracesStart(symbol: string)
    ensures Traces([], symbol, EMPTY, None, [], [])
  {
  }

  lemma TracesSlice(
    actions: seq<Action>, symbol: string, book: Book, o: BookOrder, n: nat,
    events: seq<ExecutionEvent>, from: nat, report: Option<ExecutionEvent>, admitted: seq<BookOrder>)
    requires Traces(actions, symbol, book, Some(o), events, admitted) && o.symbol == symbol
    requires var s := Slice(book, o, n);
      report == if s.done && o.kind == Market then Some(DoneEvent(s.order)) else None
    ensures var s := Slice(book, o, n);
      Traces(actions + [RunSlice(n)], symbol, if s.done then Finish(s.book, s.order) else s.book,
             if s.done then None else Some(s.order), events + Numbered(s.trades, from) + Latched(report), admitted)
  {
    hide T.Shift, T.IsShift, Slice, Finish, TradesIn, T.OfSymbol, Numbered, Told, Enlisted;
    var s := Slice(book, o, n);
    ShiftNext(actions, RunSlice(n), symbol);
    SliceSymbols(book, o, n);
    SliceIsTold(actions, symbol, book, o, n, events, from);
    TradesInNumbered(events, s.trades, from);
    OfSymbolAppend(TradesIn(events), s.trades, symbol, symbol);
    Reported(events + Numbered(s.trades, from), report);
  }

  lemma SliceIsTold(
    actions: seq<Action>, symbol: string, book: Book, o: BookOrder, n: nat, events: seq<ExecutionEvent>, from: nat)
    requires T.IsShift(actions, symbol) && o.symbol == symbol
    requires var f := T.Shift(T.OPENING, actions);
      f.desk.book == book && f.desk.active.Some? && f.desk.active.value.order == o && Told(f, symbol, events)
    ensures var s := Slice(book, o, n);
      var report := if s.done && o.kind == Market then Some(DoneEvent(s.order)) else None;
      Told(T.Advance(T.Shift(T.OPENING, actions), RunSlice(n)), symbol, events + Numbered(s.trades, from) + Latched(report))
  {
    hide T.Shift, T.IsShift, Slice, Finish, Told, T.FloorInv, T.Reports, DoneEvent;
    var f, s := T.Shift(T.OPENING, actions), Slice(book, o, n);
    var traded := events + Numbered(s.trades, from);
    SliceSymbols(book, o, n);
    SliceTerms(actions, symbol, n);
    T.EveryReportIsFinal(actions, symbol);
    ToldMore(f, symbol, events, Numbered(s.trades, from));
    var g := T.Advance(f, RunSlice(n));
    if s.done && o.kind == Market {
      ToldReport(f, symbol, traded, s.order);
      ToldAlike(f.(reports := f.reports[s.order.id := s.order]), g, symbol, traded + [DoneEvent(s.order)]);
    } else {
      assert traded + [] == traded;
      ToldAlike(f, g, symbol, traded);
    }
  }

  lemma SliceTerms(actions: seq<Action>, symbol: string, n: nat)
    requires T.IsShift(actions, symbol) && T.Shift(T.OPENING, actions).desk.active.Some?
    ensures var d := T.Shift(T.OPENING, actions).desk;
      var o, s := d.active.value.order, Slice(d.book, d.active.value.order, n);
      s.order.id == o.id && s.order.kind == o.kind
  {
    hide T.Shift, T.IsShift, Slice, BookOk, Accounted, T.Kept, T.AllTied, T.Single, T.AllFair, T.Tied, T.Capped;
    T.EveryTradeIsCovered(actions, symbol);
    var d := T.Shift(T.OPENING, actions).desk;
    T.BookFaces(d.book, d.active.value.order);
    SliceKeeps(d.book, d.active.value.order, n);
  }

  lemma Reported(events: seq<ExecutionEvent>, report: Option<ExecutionEvent>)
    requires report.Some? ==> !report.value.TradeEvent?
    ensures TradesIn(events + Latched(report)) == TradesIn(events)
  {
    if report.Some? {
      TradesInNext(events, report.value);
    } else {
      assert events + [] == events;
    }
  }

  /** Nothing changes for the other books. */
  lemma TracesElsewhere(
    actions: seq<Action>, symbol: string, book: Book, sweep: Option<BookOrder>, sweep': Option<BookOrder>,
    events: seq<ExecutionEvent>, ts: seq<EngineTrade>, from: nat, report: Option<ExecutionEvent>,
    admitted: seq<BookOrder>, admitted': seq<BookOrder>)
    requires Traces(actions, symbol, book, sweep, events, admitted) && admitted <= admitted'
    requires forall active :: OnDesk(active, sweep, symbol) ==> OnDesk(active, sweep', symbol)
    requires forall i :: 0 <= i < |ts| ==> ts[i].symbol != symbol && ts[i].symbol == ts[0].symbol
    requires report.Some? ==> !report.value.TradeEvent? && report.value.symbol != symbol
    requires forall i :: |admitted| <= i < |admitted'| ==> admitted'[i].symbol != symbol
    ensures Traces(actions, symbol, book, sweep', events + Numbered(ts, from) + Latched(report), admitted')
  {
    hide T.Shift, T.IsShift, TradesIn, T.OfSymbol, OnDesk, Told;
    ToldMore(T.Shift(T.OPENING, actions), symbol, events, Numbered(ts, from) + Latched(report));
    assert events + Numbered(ts, from) + Latched(report) == events + (Numbered(ts, from) + Latched(report));
    hide Numbered;
    TradesInNumbered(events, ts, from);
    if ts == [] {
      assert TradesIn(events) + ts == TradesIn(events);
    } else {
      OfSymbolAppend(TradesIn(events), ts, ts[0].symbol, symbol);
    }
    Reported(events + Numbered(ts, from), report);
    assert forall o :: o in admitted ==> o in admitted';
  }

  lemma TracesCancel(
    actions: seq<Action>, symbol: string, book: Book, sweep: Option<BookOrder>,
    events: seq<ExecutionEvent>, side: Side, price: real, id: nat, event: ExecutionEvent, admitted: seq<BookOrder>)
    requires Traces(actions, symbol, book, sweep, events, admitted)
    requires event.OrderCancelled? && event.symbol == symbol && event.order == id
    requires Remove(book.On(side), price, id).Some?
    ensures Traces(actions + [Cancel(side, price, id)], symbol, book.With(side, Remove(book.On(side), price, id).value),
                   sweep, events + [event], admitted)
  {
    hide T.Shift, T.IsShift, TradesIn, T.OfSymbol, Remove, OnDesk, Told, Enlisted;
    var f := T.Shift(T.OPENING, actions);
    ShiftNext(actions, Cancel(side, price, id), symbol);
    TradesInNext(events, event);
    ToldCancel(f, symbol, events, event);
    ToldAlike(f.(cancelled := f.cancelled + {id}), T.Advance(f, Cancel(side, price, id)), symbol, events + [event]);
  }

  lemma TracesAdmit(
    actions: seq<Action>, symbol: string, book: Book, o: BookOrder, events: seq<ExecutionEvent>, admitted: seq<BookOrder>)
    requires Traces(actions, symbol, book, None, events, admitted) && o.symbol == symbol && Offerable(o)
    requires forall i :: 0 <= i < |admitted| ==> admitted[i].id != o.id
    ensures Traces(actions + [Admit(o)], symbol, book, if Admissible(o) then Some(o) else None, events, admitted + [o])
  {
    hide T.Shift, T.IsShift, TradesIn, T.OfSymbol, Told;
    var f := T.Shift(T.OPENING, actions);
    ShiftNext(actions, Admit(o), symbol);
    ToldAlike(f, T.Advance(f, Admit(o)), symbol, events);
  }
}
