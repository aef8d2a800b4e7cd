/** The settlement dispatcher of one partition: it batches queued trades into jobs for a
    shared worker pool, holds each order's terminal event back until the order's trades
    have been settled, and broadcasts results in dispatch order. Workers finish jobs in
    any order and at any time. */
module Dispatcher {
  import opened Prelude

  /** A committed event: a trade of two orders, or the end of one order. */
  datatype Event = Trade(row: nat, buy: nat, sell: nat) | Terminal(row: nat, order: nat)

  predicate Touches(e: Event, order: nat) {
    e.Trade? && (e.buy == order || e.sell == order)
  }

  /** `place` is where the terminal stood among the events taken from the queue. */
  datatype Job = TradeJob(id: nat, number: nat, batch: seq<Event>) | TerminalJob(id: nat, place: nat, event: Event)

  datatype Waiting = Waiting(place: nat, event: Event, order: nat)

  datatype Report = Report(job: Job, messages: seq<string>, undurable: set<nat>)

  predicate JobTouches(j: Job, order: nat) {
    j.TradeJob? && exists i :: 0 <= i < |j.batch| && Touches(j.batch[i], order)
  }

  /** The dispatcher, the queue it reads and the pool it feeds, and what has happened so
      far: the events taken and the job each trade went to, the orders whose terminal has
      left the waiting list, what each received job reported, and what was broadcast. */
  datatype State = State(
    most: nat, maxBatch: nat,
    nextJob: nat, nextNumber: nat, nextBroadcast: nat,
    pending: map<nat, seq<string>>, waiting: seq<Waiting>, ready: Option<Job>,
    queueOpen: bool, carry: Option<Event>,
    inFlight: map<nat, Job>, unsafe: set<nat>,
    selecting: bool, exited: bool,
    queue: seq<Event>, closed: bool, completions: seq<Report>,
    taken: seq<Event>, homes: seq<nat>, gone: set<nat>, sent: set<nat>, dropped: set<nat>,
    reported: map<nat, set<nat>>, received: map<nat, seq<string>>, out: seq<string>)

  function Start(concurrency: int, maxBatch: nat): State {
    State(2 * (if concurrency < 1 then 1 else concurrency), maxBatch, 1, 1, 1, map[], [], None, true, None, map[], {},
          false, false, [], false, [], [], [], {}, {}, {}, map[], map[], [])
  }

  /** Jobs handed to the pool and not heard of yet. */
  function Outstanding(d: State): nat {
    |d.inFlight|
  }

  /** No job in flight touches the order. */
  predicate IsReady(d: State, order: nat) {
    forall id :: id in d.inFlight ==> !JobTouches(d.inFlight[id], order)
  }

  // ------------------------------------------------------------------- preparation

  function FirstReady(d: State, from: nat := 0): (k: nat)
    requires from <= |d.waiting|
    ensures from <= k <= |d.waiting| && (k < |d.waiting| ==> IsReady(d, d.waiting[k].order))
    ensures forall j :: from <= j < k ==> !IsReady(d, d.waiting[j].order)
    decreases |d.waiting| - from
  {
    if from == |d.waiting| || IsReady(d, d.waiting[from].order) then from else FirstReady(d, from + 1)
  }

  /** The first waiting terminal whose order is ready leaves the list: as the next job, or,
      if its order is quarantined, for good. */
  function TakeReadyTerminal(d: State): (r: State)
    ensures r.inFlight == d.inFlight && r.most == d.most && r.selecting == d.selecting && r.closed == d.closed
    ensures r.carry == d.carry && r.queueOpen == d.queueOpen && r.queue == d.queue
    ensures d.ready.Some? ==> r.ready.Some?
    ensures r.completions == d.completions && r.exited == d.exited && (d.unsafe == {} ==> r.unsafe == {} && r.dropped == d.dropped)
  {
    var i := FirstReady(d);
    if i == |d.waiting| then d
    else
      var w := d.waiting[i];
      var left := d.(waiting := d.waiting[..i] + d.waiting[i + 1..], gone := d.gone + {w.order});
      if w.order in d.unsafe then left.(unsafe := d.unsafe - {w.order}, dropped := d.dropped + {w.place})
      else left.(ready := Some(TerminalJob(d.nextJob, w.place, w.event)), nextJob := d.nextJob + 1)
  }

  predicate AlreadyWaits(d: State, order: nat) {
    exists i :: 0 <= i < |d.waiting| && d.waiting[i].order == order
  }

  /** A terminal joins the list, unless its order already waits. */
  function AppendWaiting(d: State, e: Event): (r: State)
    requires e.Terminal?
    ensures r.inFlight == d.inFlight && r.selecting == d.selecting && r.ready == d.ready
    ensures r.unsafe == d.unsafe && r.dropped == d.dropped && r.completions == d.completions && r.exited == d.exited
    ensures r.queueOpen == d.queueOpen && r.closed == d.closed && r.queue == d.queue
  {
    var placed := d.(homes := d.homes + [0]);
    if AlreadyWaits(d, e.order) then placed
    else placed.(waiting := d.waiting + [Waiting(|d.homes|, e, e.order)])
  }

  /** How many trades stand at the head of a queue, up to `most`. */
  function LeadingTrades(queue: seq<Event>, most: nat): (n: nat)
    ensures n <= |queue| && n <= most && forall i :: 0 <= i < n ==> queue[i].Trade?
    ensures n < most && n < |queue| ==> queue[n].Terminal?
  {
    if queue == [] || most == 0 || queue[0].Terminal? then 0 else 1 + LeadingTrades(queue[1..], most - 1)
  }

  /** Takes one event out of hand or off the queue without waiting; a closed and empty
      queue is noticed. */
  function TakeFirst(d: State): (r: (State, Option<Event>))
    ensures r.0.inFlight == d.inFlight && r.0.most == d.most && r.0.selecting == d.selecting
    ensures r.0.ready == d.ready && r.0.waiting == d.waiting && r.0.carry.None?
    ensures r.1.None? <==> d.carry.None? && (!d.queueOpen || d.queue == [])
    ensures r.1.None? ==> r.0.queueOpen == (d.queueOpen && !d.closed)
    ensures r.0.unsafe == d.unsafe && r.0.dropped == d.dropped && r.0.completions == d.completions && r.0.exited == d.exited
    ensures r.0.closed == d.closed && (r.1.None? ==> r.0.queue == d.queue) && (!d.queueOpen ==> r.0.queueOpen == d.queueOpen)
    ensures r.1.Some? ==> r.0.queueOpen == d.queueOpen && (d.carry.Some? ==> r.0.queue == d.queue)
  {
    if d.carry.Some? then (d.(carry := None), d.carry)
    else if !d.queueOpen then (d, None)
    else if d.queue != [] then (d.(queue := d.queue[1..], taken := d.taken + [d.queue[0]]), Some(d.queue[0]))
    else (d.(queueOpen := !d.closed), None)
  }

  function Repeat(x: nat, n: nat): (xs: seq<nat>)
    ensures |xs| == n && forall i :: 0 <= i < n ==> xs[i] == x
  {
    seq(n, i => x)
  }

  /** The trades queued right behind the one just taken, as many as fit its batch. */
  function Behind(d: State): nat {
    LeadingTrades(d.queue, if d.maxBatch == 0 then 0 else d.maxBatch - 1)
  }

  /** A terminal that ends a batch before it is full is taken off the queue too. */
  function Reach(d: State): (m: nat)
    ensures Behind(d) <= m <= |d.queue| && m <= Behind(d) + 1
  {
    if Behind(d) + 1 < d.maxBatch && Behind(d) < |d.queue| then Behind(d) + 1 else Behind(d)
  }

  /** A batch of the trade just taken and the trades behind it; the terminal that ended it
      is kept in hand, and a closed queue found empty is noticed. */
  function TakeBatch(d: State, first: Event): State
  {
    var n, m := Behind(d), Reach(d);
    d.(queue := d.queue[m..], taken := d.taken + d.queue[..m], homes := d.homes + Repeat(d.nextJob, n + 1),
       ready := Some(TradeJob(d.nextJob, d.nextNumber, [first] + d.queue[..n])),
       nextJob := d.nextJob + 1, nextNumber := d.nextNumber + 1,
       carry := if m > n then Some(d.queue[n]) else d.carry,
       queueOpen := d.queueOpen && !(n + 1 < d.maxBatch && n == |d.queue| && d.closed))
  }

  /** One pass of the loop up to its select: a ready terminal goes first, then the next
      batch; with nothing left anywhere the loop ends. A terminal put on the list starts
      the pass over. */
  function Prepare(d: State): State {
    var d1 := if d.ready.None? && Outstanding(d) < d.most then TakeReadyTerminal(d) else d;
    if d1.ready.None? && Outstanding(d1) < d1.most then
      var (d2, first) := TakeFirst(d1);
      if first.None? then Settle(d2)
      else if first.value.Terminal? then AppendWaiting(d2, first.value)
      else Settle(TakeBatch(d2, first.value))
    else Settle(d1)
  }

  function Settle(d: State): (r: State)
    ensures r.inFlight == d.inFlight && r.most == d.most && r.ready == d.ready && r.carry == d.carry && r.queueOpen == d.queueOpen
    ensures var idle := !d.queueOpen && d.ready.None? && Outstanding(d) == 0 && d.carry.None? && d.waiting == [];
      r.selecting == (d.selecting || !idle) && r.exited == (d.exited || idle)
    ensures r.unsafe == d.unsafe && r.dropped == d.dropped && r.completions == d.completions
    ensures r.closed == d.closed && r.queue == d.queue && r.waiting == d.waiting
  {
    if !d.queueOpen && d.ready.None? && Outstanding(d) == 0 && d.carry.None? && d.waiting == []
    then
      var l := FlushLine(Line(d.pending, d.nextBroadcast, d.out));
      d.(pending := l.pending, nextBroadcast := l.next, out := l.out, exited := true)
    else d.(selecting := true)
  }

  datatype Line = Line(pending: map<nat, seq<string>>, next: nat, out: seq<string>)

  /** Broadcasts the results that are next in line, until one is missing. */
  function FlushLine(l: Line): Line
    decreases |l.pending|
  {
    if l.next !in l.pending then l
    else
      var rest := l.pending - {l.next};
      assert rest.Keys == l.pending.Keys - {l.next};
      assert |rest.Keys| < |l.pending.Keys|;
      FlushLine(Line(rest, l.next + 1, l.out + l.pending[l.next]))
  }

  function Flush(d: State): State {
    var l := FlushLine(Line(d.pending, d.nextBroadcast, d.out));
    d.(pending := l.pending, nextBroadcast := l.next, out := l.out)
  }

  predicate InputEnabled(d: State) {
    d.queueOpen && d.ready.None? && d.carry.None? && Outstanding(d) < d.most
  }

  // ------------------------------------------------------------------------- steps

  datatype Step =
    | Produce(event: Event)
    | CloseQueue
    | Finish(id: nat, messages: seq<string>, undurable: set<nat>)
    | Pass
    | Dispatch
    | Receive
    | Input

  /** What can happen. Producers write each order's terminal once and never after closing;
      a worker reports a job once, and its report needs room among the completions. */
  predicate Enabled(d: State, s: Step) {
    match s
    case Produce(e) =>
      !d.closed && (e.Terminal? ==> forall f :: f in d.taken + d.queue && f.Terminal? ==> f.order != e.order)
    case CloseQueue => true
    case Finish(id, _, _) =>
      id in d.inFlight && forall i :: 0 <= i < |d.completions| ==> d.completions[i].job.id != id
    case Pass => !d.selecting && !d.exited
    case Dispatch => d.selecting && d.ready.Some?
    case Receive => d.selecting && d.completions != []
    case Input => d.selecting && InputEnabled(d) && (d.queue != [] || d.closed)
  }

  function Do(d: State, s: Step): State
    requires Enabled(d, s)
  {
    match s
    case Produce(e) => d.(queue := d.queue + [e])
    case CloseQueue => d.(closed := true)
    case Finish(id, messages, undurable) =>
      d.(completions := d.completions + [Report(d.inFlight[id], messages, undurable)])
    case Pass => Prepare(d)
    case Dispatch =>
      var j := d.ready.value;
      d.(inFlight := d.inFlight[j.id := j], ready := None, selecting := false,
         sent := if j.TerminalJob? then d.sent + {j.place} else d.sent)
    case Receive =>
      var r := d.completions[0];
      var retired := d.(
        completions := d.completions[1..], inFlight := d.inFlight - {r.job.id}, unsafe := d.unsafe + r.undurable,
        reported := d.reported[r.job.id := r.undurable], selecting := false);
      if r.job.TerminalJob? then retired
      else Flush(retired.(pending := d.pending[r.job.number := r.messages], received := d.received[r.job.number := r.messages]))
    case Input =>
      if d.queue != [] then
        d.(carry := Some(d.queue[0]), queue := d.queue[1..], taken := d.taken + [d.queue[0]], selecting := false)
      else d.(queueOpen := false, selecting := false)
  }
}
