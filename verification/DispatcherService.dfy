/** The dispatcher's loop as it runs: the fence counters of the dependency tracker, and
    the loop variables, kept in step with the transitions of the dispatcher. */
module DispatcherServices {
  import opened Prelude
  import opened Dispatcher

  // ------------------------------------------------------------- dependency tracker

  predicate Distinct(xs: seq<nat>) {
    forall i, j :: 0 <= i < j < |xs| ==> xs[i] != xs[j]
  }

  function At(counts: map<nat, nat>, order: nat): nat {
    if order in counts then counts[order] else 0
  }

  function Touching(dispatched: map<nat, seq<nat>>, order: nat): set<nat> {
    set id | id in dispatched && order in dispatched[id]
  }

  /** Each counter is the number of jobs in flight that touch the order, and none is kept
      at zero. */
  ghost predicate Counts(counts: map<nat, nat>, dispatched: map<nat, seq<nat>>) {
    && (forall order :: At(counts, order) == |Touching(dispatched, order)|)
    && (forall order :: order in counts ==> counts[order] > 0)
  }

  /** The orders a batch touches, each once. */
  method TouchedOrderIDs(batch: seq<Event>) returns (orders: seq<nat>)
    ensures Distinct(orders)
    ensures forall order :: order in orders <==> exists i :: 0 <= i < |batch| && Touches(batch[i], order)
  {
    orders := [];
    var seen: set<nat> := {};
    for i := 0 to |batch|
      invariant Distinct(orders) && (forall order :: order in orders <==> order in seen)
      invariant forall order :: order in seen <==> exists k :: 0 <= k < i && Touches(batch[k], order)
    {
      if batch[i].Trade? {
        var buy, sell := batch[i].buy, batch[i].sell;
        assert Touches(batch[i], buy) && Touches(batch[i], sell);
        if buy !in seen {
          seen, orders := seen + {buy}, orders + [buy];
        }
        if sell !in seen {
          seen, orders := seen + {sell}, orders + [sell];
        }
      }
    }
  }

  method CountUp(counts: map<nat, nat>, orders: seq<nat>) returns (after: map<nat, nat>)
    requires Distinct(orders) && forall order :: order in counts ==> counts[order] > 0
    ensures forall order :: At(after, order) == At(counts, order) + if order in orders then 1 else 0
    ensures forall order :: order in after ==> after[order] > 0
  {
    after := counts;
    for i := 0 to |orders|
      invariant forall order :: At(after, order) == At(counts, order) + if order in orders[..i] then 1 else 0
      invariant forall order :: order in after ==> after[order] > 0
    {
      assert orders[i] !in orders[..i];
      assert orders[..i + 1] == orders[..i] + [orders[i]];
      after := after[orders[i] := At(after, orders[i]) + 1];
    }
    assert orders[..|orders|] == orders;
  }

  method CountDown(counts: map<nat, nat>, orders: seq<nat>) returns (after: map<nat, nat>)
    requires Distinct(orders) && (forall i :: 0 <= i < |orders| ==> At(counts, orders[i]) >= 1)
    requires forall order :: order in counts ==> counts[order] > 0
    ensures forall order :: At(after, order) == At(counts, order) - if order in orders then 1 else 0
    ensures forall order :: order in after ==> after[order] > 0
  {
    after := counts;
    for i := 0 to |orders|
      invariant forall order :: At(after, order) == At(counts, order) - if order in orders[..i] then 1 else 0
      invariant forall order :: order in after ==> after[order] > 0
    {
      var order := orders[i];
      assert order !in orders[..i];
      assert orders[..i + 1] == orders[..i] + [order];
      after := after[order := after[order] - 1];
      if after[order] <= 0 {
        after := after - {order};
      }
    }
    assert orders[..|orders|] == orders;
  }

  lemma RegisterCounts(dispatched: map<nat, seq<nat>>, id: nat, orders: seq<nat>, order: nat)
    requires id !in dispatched
    ensures |Touching(dispatched[id := orders], order)| == |Touching(dispatched, order)| + if order in orders then 1 else 0
  {
    assert Touching(dispatched[id := orders], order) == Touching(dispatched, order) + if order in orders then {id} else {};
  }

  lemma RetireCounts(dispatched: map<nat, seq<nat>>, id: nat, order: nat)
    requires id in dispatched
    ensures |Touching(dispatched - {id}, order)| == |Touching(dispatched, order)| - if order in dispatched[id] then 1 else 0
  {
    assert Touching(dispatched - {id}, order) == Touching(dispatched, order) - {id};
  }

  /** Counts, per order, the jobs in flight that touch it. */
  class DependencyTracker {
    var inFlight: map<nat, nat>
    var dispatched: map<nat, seq<nat>>
    var unsafeOrders: set<nat>
    var jobs: int

    ghost predicate Valid()
      reads this
    {
      && jobs == |dispatched| && Counts(inFlight, dispatched)
      && forall id :: id in dispatched ==> Distinct(dispatched[id])
    }

    constructor ()
      ensures Valid() && dispatched == map[] && unsafeOrders == {}
    {
      inFlight, dispatched, unsafeOrders, jobs := map[], map[], {}, 0;
    }

    /** Enters a job that has just been sent. */
    method Register(id: nat, orders: seq<nat>)
      requires Valid() && id !in dispatched && Distinct(orders)
      modifies this
      ensures Valid() && dispatched == old(dispatched)[id := orders] && unsafeOrders == old(unsafeOrders)
    {
      hide Touching;
      forall order
        ensures |Touching(dispatched[id := orders], order)| == |Touching(dispatched, order)| + if order in orders then 1 else 0
      {
        RegisterCounts(dispatched, id, orders, order);
      }
      dispatched := dispatched[id := orders];
      jobs := jobs + 1;
      inFlight := CountUp(inFlight, orders);
    }

    /** Takes a job out again. Orders it left undurable are quarantined before any counter
        falls; a job nobody knows changes nothing. */
    method Retire(id: nat, undurable: set<nat>) returns (known: bool)
      requires Valid()
      modifies this
      ensures Valid() && known == (id in old(dispatched)) && dispatched == old(dispatched) - {id}
      ensures unsafeOrders == old(unsafeOrders) + if known then undurable else {}
    {
      if id !in dispatched {
        return false;
      }
      hide Touching;
      var orders := dispatched[id];
      unsafeOrders := unsafeOrders + undurable;
      forall order
        ensures |Touching(dispatched - {id}, order)| == |Touching(dispatched, order)| - if order in orders then 1 else 0
      {
        RetireCounts(dispatched, id, order);
      }
      dispatched := dispatched - {id};
      jobs := jobs - 1;
      assert dispatched.Keys == old(dispatched).Keys - {id};
      assert |dispatched.Keys| == |old(dispatched).Keys| - 1;
      inFlight := CountDown(inFlight, orders);
      return true;
    }

    /** The fence of an order is open exactly when no job in flight touches it. */
    method Ready(order: nat) returns (ready: bool)
      requires Valid()
      ensures ready <==> forall id :: id in dispatched ==> order !in dispatched[id]
    {
      ready := At(inFlight, order) == 0;
      if !ready {
        var id :| id in Touching(dispatched, order);
        assert order in dispatched[id];
      } else {
        assert Touching(dispatched, order) == {};
        forall id | id in dispatched
          ensures order !in dispatched[id]
        {
          assert id !in Touching(dispatched, order);
        }
      }
    }
  }

  // ----------------------------------------------------------------------- the loop

  lemma LeadingNext(queue: seq<Event>, k: nat, most: nat)
    requires k <= |queue| && most > 0
    ensures LeadingTrades(queue[k..], most) ==
      if k == |queue| || queue[k].Terminal? then 0 else 1 + LeadingTrades(queue[k + 1..], most - 1)
  {
    if k < |queue| {
      assert queue[k..][0] == queue[k] && queue[k..][1..] == queue[k + 1..];
    }
  }

  /** Collects the trades already queued behind `first` without waiting. A terminal ends
      the batch and is handed back. */
  method CollectTradeBatch(first: Event, queue: seq<Event>, closed: bool, maxBatch: nat)
    returns (batch: seq<Event>, taken: nat, pending: Option<Event>, open: bool)
    ensures var n := LeadingTrades(queue, if maxBatch == 0 then 0 else maxBatch - 1);
      var met := n + 1 < maxBatch && n < |queue|;
      && batch == Gathered(first, queue, n) && taken == (if met then n + 1 else n)
      && pending == (if met then Some(queue[n]) else None)
      && open == !(n + 1 < maxBatch && n == |queue| && closed)
  {
    hide LeadingTrades, Gathered;
    batch, taken, pending, open := [first], 0, None, true;
    ghost var most := if maxBatch == 0 then 0 else maxBatch - 1;
    NothingGathered(first, queue, most);
    while |batch| < maxBatch
      invariant taken <= |queue| && taken <= most && |batch| == taken + 1 && batch == Gathered(first, queue, taken)
      invariant LeadingTrades(queue, most) == taken + LeadingTrades(queue[taken..], most - taken)
      invariant pending.None? && open
    {
      LeadingNext(queue, taken, most - taken);
      if taken == |queue| {
        open := !closed;
        return;
      }
      if queue[taken].Terminal? {
        pending := Some(queue[taken]);
        taken := taken + 1;
        return;
      }
      GatheredNext(first, queue, taken);
      batch := batch + [queue[taken]];
      taken := taken + 1;
    }
  }

  /** The first trade and `n` more from the queue. */
  function Gathered(first: Event, queue: seq<Event>, n: nat): seq<Event>
    requires n <= |queue|
  {
    [first] + queue[..n]
  }

  lemma NothingGathered(first: Event, queue: seq<Event>, most: nat)
    ensures Gathered(first, queue, 0) == [first] && LeadingTrades(queue[0..], most) == LeadingTrades(queue, most)
  {
    assert queue[0..] == queue;
  }

  lemma GatheredNext(first: Event, queue: seq<Event>, n: nat)
    requires n < |queue|
    ensures Gathered(first, queue, n + 1) == Gathered(first, queue, n) + [queue[n]]
  {
  }

  /** Broadcasts results while the next one in line has arrived. */
  method FlushBroadcasts(l: Line) returns (after: Line)
    ensures after == FlushLine(l)
  {
    after := l;
    while after.next in after.pending
      invariant FlushLine(after) == FlushLine(l)
      decreases |after.pending|
    {
      var rest := after.pending - {after.next};
      assert rest.Keys == after.pending.Keys - {after.next};
      assert |rest.Keys| < |after.pending.Keys|;
      after := Line(rest, after.next + 1, after.out + after.pending[after.next]);
    }
  }

  /** The tracker's jobs are the jobs in flight, with the orders they touch. */
  ghost predicate Mirrors(dispatched: map<nat, seq<nat>>, inFlight: map<nat, Job>) {
    && dispatched.Keys == inFlight.Keys
    && forall id, order :: id in dispatched ==> (order in dispatched[id] <==> JobTouches(inFlight[id], order))
  }

  lemma MirrorsKeys(dispatched: map<nat, seq<nat>>, inFlight: map<nat, Job>)
    requires Mirrors(dispatched, inFlight)
    ensures dispatched.Keys == inFlight.Keys
  {
  }

  lemma MirrorsAdd(dispatched: map<nat, seq<nat>>, inFlight: map<nat, Job>, j: Job, orders: seq<nat>)
    requires Mirrors(dispatched, inFlight) && forall order :: order in orders <==> JobTouches(j, order)
    ensures Mirrors(dispatched[j.id := orders], inFlight[j.id := j])
  {
  }

  lemma MirrorsDrop(dispatched: map<nat, seq<nat>>, inFlight: map<nat, Job>, id: nat)
    requires Mirrors(dispatched, inFlight)
    ensures Mirrors(dispatched - {id}, inFlight - {id})
  {
  }

  lemma MirrorsReady(dispatched: map<nat, seq<nat>>, d: State, order: nat)
    requires Mirrors(dispatched, d.inFlight)
    ensures (forall id :: id in dispatched ==> order !in dispatched[id]) <==> IsReady(d, order)
    ensures |dispatched| == |d.inFlight|
  {
    assert |dispatched| == |dispatched.Keys| && |d.inFlight| == |d.inFlight.Keys|;
  }

  /** The loop variables. */
  datatype Vars = Vars(
    nextJob: nat, nextNumber: nat, line: Line, waiting: seq<Waiting>, ready: Option<Job>,
    queueOpen: bool, carry: Option<Event>, queue: seq<Event>, closed: bool, placed: nat)

  function VarsOf(d: State): Vars {
    Vars(d.nextJob, d.nextNumber, Line(d.pending, d.nextBroadcast, d.out), d.waiting, d.ready,
         d.queueOpen, d.carry, d.queue, d.closed, |d.homes|)
  }

  lemma BatchVars(d: State, first: Event)
    ensures var r, v, n, m := TakeBatch(d, first), VarsOf(d), Behind(d), Reach(d);
      && r.inFlight == d.inFlight && r.unsafe == d.unsafe && r.most == d.most && r.maxBatch == d.maxBatch
      && n <= m <= |v.queue| && (m > n ==> n < |v.queue|)
      && VarsOf(r) == v.(
           nextJob := v.nextJob + 1, nextNumber := v.nextNumber + 1, queue := v.queue[m..], placed := v.placed + n + 1,
           ready := Some(TradeJob(v.nextJob, v.nextNumber, [first] + v.queue[..n])),
           carry := if m > n then Some(v.queue[n]) else v.carry,
           queueOpen := v.queueOpen && !(n + 1 < d.maxBatch && n == |v.queue| && v.closed))
  {
    hide Behind, Reach, Repeat;
  }

  lemma HeardVars(d: State)
    requires Enabled(d, Receive)
    ensures var r, report, v := Do(d, Receive), d.completions[0], VarsOf(d);
      && r.inFlight == d.inFlight - {report.job.id} && r.unsafe == d.unsafe + report.undurable
      && r.most == d.most && r.maxBatch == d.maxBatch
      && VarsOf(r) == v.(line := if report.job.TerminalJob? then v.line
                                 else FlushLine(v.line.(pending := v.line.pending[report.job.number := report.messages])))
  {
    hide FlushLine;
  }

  class PartitionDispatcher {
    const most: nat
    const maxBatch: nat
    const tracker: DependencyTracker

    var nextJob: nat
    var nextNumber: nat
    var line: Line
    var waiting: seq<Waiting>
    var ready: Option<Job>
    var queueOpen: bool
    var carry: Option<Event>
    var queue: seq<Event>
    var closed: bool

    /** How many events have found their place; it numbers the terminals. */
    var placed: nat

    /** The transition system's view of this dispatcher, its queue and its pool. */
    ghost var view: State

    /** The tracker holds exactly the jobs in flight, with the orders they touch. */
    ghost predicate Fence(inFlight: map<nat, Job>, unsafe: set<nat>)
      reads tracker
    {
      tracker.Valid() && tracker.unsafeOrders == unsafe && Mirrors(tracker.dispatched, inFlight)
    }

    function Current(): Vars
      reads this
    {
      Vars(nextJob, nextNumber, line, waiting, ready, queueOpen, carry, queue, closed, placed)
    }

    ghost predicate Agrees()
      reads this, tracker
    {
      && Fence(view.inFlight, view.unsafe) && Current() == VarsOf(view)
      && view.most == most && view.maxBatch == maxBatch
    }

    constructor (concurrency: int, maxBatch: nat)
      ensures Agrees() && view == Start(concurrency, maxBatch) && fresh(tracker)
    {
      this.most, this.maxBatch := 2 * (if concurrency < 1 then 1 else concurrency), maxBatch;
      tracker := new DependencyTracker();
      nextJob, nextNumber, line := 1, 1, Line(map[], 1, []);
      waiting, ready, queueOpen, carry, queue, closed, placed := [], None, true, None, [], false, 0;
      view := Start(concurrency, maxBatch);
    }

    lemma OutstandingAgrees()
      requires Fence(view.inFlight, view.unsafe)
      ensures tracker.jobs == Outstanding(view)
    {
      MirrorsReady(tracker.dispatched, view, 0);
    }

    /** Looks down the list for a terminal whose fence is open. */
    method FirstOpen() returns (i: nat)
      requires Agrees()
      ensures i == FirstReady(view)
    {
      hide Mirrors, IsReady;
      i := 0;
      while i < |waiting|
        invariant i <= |waiting| && FirstReady(view, i) == FirstReady(view)
      {
        MirrorsReady(tracker.dispatched, view, waiting[i].order);
        var open := tracker.Ready(waiting[i].order);
        if open {
          return;
        }
        i := i + 1;
      }
    }

    method TakeReady()
      requires Agrees() && ready.None?
      modifies this, tracker
      ensures Agrees() && view == TakeReadyTerminal(old(view))
    {
      hide Mirrors, IsReady, FirstReady;
      var i := FirstOpen();
      view := TakeReadyTerminal(view);
      if i == |waiting| {
        return;
      }
      var w := waiting[i];
      waiting := waiting[..i] + waiting[i + 1..];
      if w.order in tracker.unsafeOrders {
        tracker.unsafeOrders := tracker.unsafeOrders - {w.order};
        return;
      }
      ready := Some(TerminalJob(nextJob, w.place, w.event));
      nextJob := nextJob + 1;
    }
  
    method IsListed(order: nat) returns (there: bool)
      requires view.waiting == waiting
      ensures there == AlreadyWaits(view, order)
    {
      for i := 0 to |waiting|
        invariant forall k :: 0 <= k < i ==> waiting[k].order != order
      {
        if waiting[i].order == order {
          return true;
        }
      }
      return false;
    }

    /** Puts a terminal on the list unless its order is already there. */
    method ListTerminal(e: Event)
      requires Agrees() && e.Terminal?
      modifies this
      ensures Agrees() && view == AppendWaiting(old(view), e)
    {
      hide Fence, AlreadyWaits;
      var there := IsListed(e.order);
      view := AppendWaiting(view, e);
      if !there {
        waiting := waiting + [Waiting(placed, e, e.order)];
      }
      placed := placed + 1;
    }

    /** Takes the event in hand or the head of the queue, without waiting. */
    method NextEvent() returns (first: Option<Event>)
      requires Agrees()
      modifies this
      ensures Agrees() && (view, first) == TakeFirst(old(view))
    {
      hide Fence;
      view := TakeFirst(view).0;
      first := None;
      if carry.Some? {
        first, carry := carry, None;
      } else if queueOpen {
        if queue != [] {
          first, queue := Some(queue[0]), queue[1..];
        } else if closed {
          queueOpen := false;
        }
      }
    }

    /** What a collected batch is: the trades behind the first, and the terminal met. */
    ghost predicate Collected(first: Event, batch: seq<Event>, taken: nat, next: Option<Event>, open: bool)
      reads this
    {
      && Behind(view) <= taken == Reach(view) <= |queue|
      && batch == [first] + queue[..Behind(view)] && |batch| == Behind(view) + 1
      && next == (if Reach(view) > Behind(view) then Some(queue[Behind(view)]) else None)
      && open == !(Behind(view) + 1 < maxBatch && Behind(view) == |queue| && closed)
    }

    method Collect(first: Event) returns (batch: seq<Event>, taken: nat, next: Option<Event>, open: bool)
      requires Current() == VarsOf(view) && view.maxBatch == maxBatch
      ensures Collected(first, batch, taken, next, open)
    {
      hide LeadingTrades;
      batch, taken, next, open := CollectTradeBatch(first, queue, closed, maxBatch);
    }

    method StoreBatch(first: Event, batch: seq<Event>, taken: nat, next: Option<Event>, open: bool)
      requires Agrees() && carry.None? && Collected(first, batch, taken, next, open)
      modifies this
      ensures Agrees() && view == TakeBatch(old(view), first)
    {
      hide Fence, Behind, Reach, TakeBatch, VarsOf;
      BatchVars(view, first);
      ghost var after := TakeBatch(view, first);
      var job := TradeJob(nextJob, nextNumber, batch);
      queue, carry, queueOpen := queue[taken..], if next.Some? then next else None, queueOpen && open;
      ready, placed := Some(job), placed + |batch|;
      nextJob, nextNumber := nextJob + 1, nextNumber + 1;
      assert Current() == VarsOf(after);
      view := after;
    }

    /** Makes the next job out of a batch of trades. */
    method MakeBatch(first: Event)
      requires Agrees() && carry.None?
      modifies this
      ensures Agrees() && view == TakeBatch(old(view), first)
    {
      hide Fence, Behind, Reach, TakeBatch, VarsOf, Collected;
      var batch, taken, next, open := Collect(first);
      StoreBatch(first, batch, taken, next, open);
    }

    /** The end of a pass: the loop is over, or goes on to its select. */
    method EndPass() returns (over: bool)
      requires Agrees()
      modifies this
      ensures Agrees() && view == Settle(old(view)) && (over ==> view.exited)
    {
      hide Fence, FlushLine;
      OutstandingAgrees();
      over := !queueOpen && ready.None? && tracker.jobs == 0 && carry.None? && waiting == [];
      view := Settle(view);
      if over {
        line := FlushBroadcasts(line);
      }
    }

    /** One pass of the loop up to its select. */
    method Prepares() returns (over: bool)
      requires Agrees()
      modifies this, tracker
      ensures Agrees() && view == Prepare(old(view)) && (over ==> view.exited)
    {
      hide TakeReadyTerminal, TakeFirst, AppendWaiting, TakeBatch, Settle, Fence;
      over := false;
      OutstandingAgrees();
      if ready.None? && tracker.jobs < most {
        TakeReady();
      }
      OutstandingAgrees();
      if ready.None? && tracker.jobs < most {
        var first := NextEvent();
        if first.Some? {
          if first.value.Terminal? {
            ListTerminal(first.value);
            return;
          }
          MakeBatch(first.value);
        }
      }
      over := EndPass();
    }

    /** Hands the ready job to the pool, and only then enters it in the tracker. */
    method SendJob() returns (job: Job)
      requires Agrees() && Enabled(view, Dispatch) && ready.value.id !in view.inFlight
      modifies this, tracker
      ensures Agrees() && view == Do(old(view), Dispatch) && Some(job) == old(ready)
    {
      hide Mirrors;
      job := ready.value;
      var orders: seq<nat> := [];
      if job.TradeJob? {
        orders := TouchedOrderIDs(job.batch);
      }
      assert tracker.dispatched.Keys == view.inFlight.Keys by {
        MirrorsKeys(tracker.dispatched, view.inFlight);
      }
      MirrorsAdd(tracker.dispatched, view.inFlight, job, orders);
      view := Do(view, Dispatch);
      tracker.Register(job.id, orders);
      ready := None;
    }

    /** Hears of a job: its slot is returned whatever it reports, and a trade job's
        messages wait for their turn. */
    method Hear(report: Report)
      requires Agrees() && Enabled(view, Receive) && report == view.completions[0] && report.job.id in view.inFlight
      modifies this, tracker
      ensures Agrees() && view == Do(old(view), Receive)
    {
      hide FlushLine, Do, Mirrors, VarsOf;
      HeardVars(view);
      MirrorsKeys(tracker.dispatched, view.inFlight);
      MirrorsDrop(tracker.dispatched, view.inFlight, report.job.id);
      view := Do(view, Receive);
      var _ := tracker.Retire(report.job.id, report.undurable);
      if report.job.TradeJob? {
        line := FlushBroadcasts(line.(pending := line.pending[report.job.number := report.messages]));
      }
    }

    /** Takes an event that arrived while waiting, or notices the end of the queue. */
    method TakeInput()
      requires Agrees() && Enabled(view, Input)
      modifies this
      ensures Agrees() && view == Do(old(view), Input)
    {
      hide Fence;
      view := Do(view, Input);
      if queue != [] {
        carry, queue := Some(queue[0]), queue[1..];
      } else {
        queueOpen := false;
      }
    }

    /** A producer writes an event, before the queue is closed. */
    method Enqueue(e: Event)
      requires Agrees() && Enabled(view, Produce(e))
      modifies this
      ensures Agrees() && view == Do(old(view), Produce(e))
    {
      hide Fence;
      view := Do(view, Produce(e));
      queue := queue + [e];
    }

    /** The producers are done. */
    method CloseInput()
      requires Agrees()
      modifies this
      ensures Agrees() && view == Do(old(view), CloseQueue)
    {
      hide Fence;
      view := Do(view, CloseQueue);
      closed := true;
    }

    /** A worker of the pool finishes the job it was handed; its report waits to be heard. */
    method Complete(job: Job, messages: seq<string>, undurable: set<nat>) returns (report: Report)
      requires Agrees() && Enabled(view, Finish(job.id, messages, undurable)) && view.inFlight[job.id] == job
      modifies this
      ensures Agrees() && view == Do(old(view), Finish(job.id, messages, undurable))
      ensures view.completions == old(view).completions + [report]
    {
      hide Fence;
      view := Do(view, Finish(job.id, messages, undurable));
      report := Report(job, messages, undurable);
    }
  }
}
