/** What every run of the dispatcher keeps, whatever the producers and workers do. The
    invariant is a conjunction of small ones, each about the few fields it names. */
module DispatcherProofs {
  import opened Prelude
  import opened Dispatcher

  type Jobs = map<nat, Job>
  type Reports = map<nat, set<nat>>

  // -------------------------------------------------------------------- invariants

  /** Job ids are handed out once; what is ready, in flight and reported are apart. */
  predicate Ids(nextJob: nat, ready: Option<Job>, inFlight: Jobs, reported: Reports) {
    && (forall id :: id in inFlight ==> inFlight[id].id == id && id < nextJob && id !in reported)
    && (forall id :: id in reported ==> id < nextJob)
    && (ready.Some? ==> ready.value.id < nextJob && ready.value.id !in inFlight && ready.value.id !in reported)
  }

  /** A completion belongs to one job in flight, and to no other completion. */
  predicate Completions(completions: seq<Report>, inFlight: Jobs) {
    && (forall i :: 0 <= i < |completions| ==>
          completions[i].job.id in inFlight && inFlight[completions[i].job.id] == completions[i].job)
    && (forall i, j :: 0 <= i < j < |completions| ==> completions[i].job.id != completions[j].job.id)
  }

  /** Never more jobs outstanding than completion slots, and a slot is kept for the job
      about to be sent. */
  predicate Bounded(most: nat, ready: Option<Job>, inFlight: Jobs) {
    most >= 2 && |inFlight| <= most && (ready.Some? ==> |inFlight| < most)
  }

  predicate Holds(j: Job, e: Event) {
    j.TradeJob? && e in j.batch
  }

  /** A trade is in the job it was given to, or that job has been heard of. */
  predicate Placed(e: Event, home: nat, ready: Option<Job>, inFlight: Jobs, reported: Reports) {
    || (ready.Some? && ready.value.id == home && Holds(ready.value, e))
    || (home in inFlight && Holds(inFlight[home], e))
    || home in reported
  }

  /** Every event taken but the one in hand has its place. */
  predicate Hand(taken: seq<Event>, homes: seq<nat>, carry: Option<Event>) {
    && |homes| + (if carry.Some? then 1 else 0) == |taken|
    && (carry.Some? ==> carry.value == taken[|homes|])
  }

  predicate Places(taken: seq<Event>, homes: seq<nat>, ready: Option<Job>, inFlight: Jobs, reported: Reports) {
    && |homes| <= |taken|
    && forall p :: 0 <= p < |homes| && taken[p].Trade? ==> Placed(taken[p], homes[p], ready, inFlight, reported)
  }

  /** Every earlier trade of the order has been settled and none left it undurable. */
  predicate Fenced(place: nat, taken: seq<Event>, homes: seq<nat>, reported: Reports) {
    && place < |homes| <= |taken| && taken[place].Terminal?
    && forall q :: 0 <= q < place && Touches(taken[q], taken[place].order) ==>
         homes[q] in reported && taken[place].order !in reported[homes[q]]
  }

  predicate ReadyFenced(ready: Option<Job>, taken: seq<Event>, homes: seq<nat>, reported: Reports) {
    ready.Some? && ready.value.TerminalJob? ==> Fenced(ready.value.place, taken, homes, reported)
  }

  predicate AllFenced(sent: set<nat>, taken: seq<Event>, homes: seq<nat>, reported: Reports) {
    forall p :: p in sent ==> Fenced(p, taken, homes, reported)
  }

  /** A terminal on the list stands where it was taken, after trades already sent. */
  predicate Listed(w: Waiting, taken: seq<Event>, homes: seq<nat>, inFlight: Jobs, reported: Reports) {
    && w.place < |homes| <= |taken| && w.event.Terminal? && taken[w.place] == w.event && w.order == w.event.order
    && forall q :: 0 <= q < w.place && taken[q].Trade? ==> homes[q] in inFlight || homes[q] in reported
  }

  predicate AllListed(waiting: seq<Waiting>, taken: seq<Event>, homes: seq<nat>, inFlight: Jobs, reported: Reports) {
    forall i :: 0 <= i < |waiting| ==> Listed(waiting[i], taken, homes, inFlight, reported)
  }

  predicate TerminalOf(e: Event, order: nat) {
    e.Terminal? && e.order == order
  }

  /** Producers end an order once. */
  predicate Once(events: seq<Event>) {
    forall i, j :: 0 <= i < j < |events| && events[i].Terminal? && events[j].Terminal? ==> events[i].order != events[j].order
  }

  /** Orders whose terminal left the list had one, and have none on the list now. */
  predicate Gone(gone: set<nat>, waiting: seq<Waiting>, taken: seq<Event>, n: nat) {
    && n <= |taken|
    && (forall o :: o in gone ==> exists p :: 0 <= p < n && TerminalOf(taken[p], o))
    && (forall i :: 0 <= i < |waiting| ==> waiting[i].order !in gone)
    && (forall i, j :: 0 <= i < j < |waiting| ==> waiting[i].order != waiting[j].order)
  }

  /** An order reported undurable is quarantined until its terminal has left the list. */
  predicate Quarantine(reported: Reports, unsafe: set<nat>, gone: set<nat>) {
    forall id, o :: id in reported && o in reported[id] ==> o in unsafe || o in gone
  }

  predicate IsAt(ready: Option<Job>, place: nat) {
    ready.Some? && ready.value.TerminalJob? && ready.value.place == place
  }

  predicate WaitsAt(waiting: seq<Waiting>, place: nat) {
    exists i :: 0 <= i < |waiting| && waiting[i].place == place
  }

  /** No terminal is lost: it waits, is ready, was sent, or was dropped. */
  predicate Accounted(taken: seq<Event>, n: nat, waiting: seq<Waiting>, ready: Option<Job>, sent: set<nat>, dropped: set<nat>) {
    && n <= |taken|
    && forall p :: 0 <= p < n && taken[p].Terminal? ==> WaitsAt(waiting, p) || IsAt(ready, p) || p in sent || p in dropped
  }

  /** The messages of the results numbered below `n`, in order. */
  function Messages(received: map<nat, seq<string>>, n: nat): seq<string> {
    if n <= 1 then []
    else Messages(received, n - 1) + if n - 1 in received then received[n - 1] else []
  }

  /** Results not yet broadcast are exactly those from the next number on, and everything
      before it has been broadcast, in order and without a gap. */
  predicate InLine(pending: map<nat, seq<string>>, received: map<nat, seq<string>>, next: nat, out: seq<string>) {
    && next >= 1
    && (forall n :: n in pending ==> n in received && pending[n] == received[n] && n >= next)
    && (forall n :: n in received && n >= next ==> n in pending)
    && (forall n :: 1 <= n < next ==> n in received)
    && out == Messages(received, next)
  }

  predicate HasNumber(j: Job, n: nat) {
    j.TradeJob? && j.number == n
  }

  /** Batches are numbered as they are made, each number once. */
  predicate Numbers(next: nat, received: map<nat, seq<string>>, ready: Option<Job>, inFlight: Jobs) {
    && next >= 1
    && (forall n :: n in received ==> 1 <= n < next)
    && (forall id :: id in inFlight && inFlight[id].TradeJob? ==> 1 <= inFlight[id].number < next && inFlight[id].number !in received)
    && (forall a, b :: a in inFlight && b in inFlight && a != b && inFlight[a].TradeJob? && inFlight[b].TradeJob? ==>
          inFlight[a].number != inFlight[b].number)
    && (ready.Some? && ready.value.TradeJob? ==>
          && 1 <= ready.value.number < next && ready.value.number !in received
          && forall id :: id in inFlight ==> !HasNumber(inFlight[id], ready.value.number))
  }

  predicate Coming(n: nat, ready: Option<Job>, inFlight: Jobs) {
    (ready.Some? && HasNumber(ready.value, n)) || exists id :: id in inFlight && HasNumber(inFlight[id], n)
  }

  /** Every batch made is on its way or has been received. */
  predicate NoneLost(next: nat, received: map<nat, seq<string>>, ready: Option<Job>, inFlight: Jobs) {
    forall n :: 1 <= n < next ==> n in received || Coming(n, ready, inFlight)
  }

  predicate Inv(d: State) {
    && Ids(d.nextJob, d.ready, d.inFlight, d.reported) && Completions(d.completions, d.inFlight)
    && Bounded(d.most, d.ready, d.inFlight)
    && Hand(d.taken, d.homes, d.carry) && Places(d.taken, d.homes, d.ready, d.inFlight, d.reported)
    && ReadyFenced(d.ready, d.taken, d.homes, d.reported) && AllFenced(d.sent, d.taken, d.homes, d.reported)
    && AllListed(d.waiting, d.taken, d.homes, d.inFlight, d.reported)
    && Once(d.taken + d.queue) && Gone(d.gone, d.waiting, d.taken, |d.homes|) && Quarantine(d.reported, d.unsafe, d.gone)
    && Accounted(d.taken, |d.homes|, d.waiting, d.ready, d.sent, d.dropped)
    && InLine(d.pending, d.received, d.nextBroadcast, d.out) && d.nextBroadcast !in d.pending
    && Numbers(d.nextNumber, d.received, d.ready, d.inFlight) && NoneLost(d.nextNumber, d.received, d.ready, d.inFlight)
  }

  lemma StartIsFine(concurrency: int, maxBatch: nat)
    ensures Inv(Start(concurrency, maxBatch))
  {
  }

  // ------------------------------------------------------------- taking a terminal

  /** The order of a ready terminal: every earlier trade of it has been reported. */
  lemma {:induction false} ReadyMeansSettled(d: State, w: Waiting)
    requires Places(d.taken, d.homes, d.ready, d.inFlight, d.reported) && d.ready.None? && IsReady(d, w.order)
    requires Listed(w, d.taken, d.homes, d.inFlight, d.reported)
    requires Quarantine(d.reported, d.unsafe, d.gone) && w.order !in d.unsafe && w.order !in d.gone
    ensures Fenced(w.place, d.taken, d.homes, d.reported)
  {
    forall q | 0 <= q < w.place && Touches(d.taken[q], w.order)
      ensures d.homes[q] in d.reported
    {
      assert Placed(d.taken[q], d.homes[q], d.ready, d.inFlight, d.reported);
      if d.homes[q] in d.inFlight {
        HeldIsTouched(d.inFlight[d.homes[q]], d.taken[q], w.order);
      }
    }
  }

  lemma HeldIsTouched(j: Job, e: Event, order: nat)
    requires Touches(e, order)
    ensures Holds(j, e) ==> JobTouches(j, order)
  {
  }

  /** One terminal leaves the list. */
  lemma {:induction false} LeaveList(waiting: seq<Waiting>, i: nat, taken: seq<Event>, homes: seq<nat>, inFlight: Jobs, reported: Reports,
                                     gone: set<nat>, n: nat)
    requires i < |waiting| && AllListed(waiting, taken, homes, inFlight, reported) && Gone(gone, waiting, taken, n) && n == |homes|
    ensures var left := waiting[..i] + waiting[i + 1..];
      AllListed(left, taken, homes, inFlight, reported) && Gone(gone + {waiting[i].order}, left, taken, n)
  {
    var left, w := waiting[..i] + waiting[i + 1..], waiting[i];
    assert Listed(w, taken, homes, inFlight, reported);
    assert TerminalOf(taken[w.place], w.order);
    forall k | 0 <= k < |left|
      ensures left[k] == waiting[if k < i then k else k + 1]
    {
    }
  }

  lemma {:induction false} LeaveAccounts(taken: seq<Event>, n: nat, waiting: seq<Waiting>, i: nat, ready: Option<Job>,
                                         sent: set<nat>, dropped: set<nat>)
    requires i < |waiting| && Accounted(taken, n, waiting, None, sent, dropped)
    ensures var left := waiting[..i] + waiting[i + 1..];
      && Accounted(taken, n, left, None, sent, dropped + {waiting[i].place})
      && (IsAt(ready, waiting[i].place) ==> Accounted(taken, n, left, ready, sent, dropped))
  {
    var left := waiting[..i] + waiting[i + 1..];
    forall p | 0 <= p < n && taken[p].Terminal? && WaitsAt(waiting, p)
      ensures WaitsAt(left, p) || p == waiting[i].place
    {
      var k :| 0 <= k < |waiting| && waiting[k].place == p;
      if k != i {
        assert left[if k < i then k else k - 1] == waiting[k];
      }
    }
  }

  lemma NewTerminalJob(nextJob: nat, inFlight: Jobs, reported: Reports, most: nat, taken: seq<Event>, homes: seq<nat>,
                       next: nat, received: map<nat, seq<string>>, j: Job)
    requires Ids(nextJob, None, inFlight, reported) && j.TerminalJob? && j.id == nextJob
    requires Bounded(most, None, inFlight) && |inFlight| < most
    requires Places(taken, homes, None, inFlight, reported) && Numbers(next, received, None, inFlight)
    requires NoneLost(next, received, None, inFlight)
    ensures Ids(nextJob + 1, Some(j), inFlight, reported) && Bounded(most, Some(j), inFlight)
    ensures Places(taken, homes, Some(j), inFlight, reported) && Numbers(next, received, Some(j), inFlight)
    ensures NoneLost(next, received, Some(j), inFlight)
  {
    forall n | 1 <= n < next
      ensures n in received || Coming(n, Some(j), inFlight)
    {
      assert n in received || Coming(n, None, inFlight);
    }
  }

  lemma {:induction false} ListedAt(d: State, i: nat)
    requires Inv(d) && i < |d.waiting|
    ensures Listed(d.waiting[i], d.taken, d.homes, d.inFlight, d.reported) && d.waiting[i].order !in d.gone
  {
  }

  lemma DropQuarantine(reported: Reports, unsafe: set<nat>, gone: set<nat>, order: nat)
    requires Quarantine(reported, unsafe, gone)
    ensures Quarantine(reported, unsafe - {order}, gone + {order}) && Quarantine(reported, unsafe, gone + {order})
  {
  }

  lemma {:induction false} TakeReadyKeeps(d: State)
    requires Inv(d) && d.ready.None? && |d.inFlight| < d.most
    ensures Inv(TakeReadyTerminal(d))
  {
    hide Inv;
    var i := FirstReady(d);
    if i < |d.waiting| {
      if d.waiting[i].order in d.unsafe {
        DropKeeps(d, i);
      } else {
        ReadyKeeps(d, i);
      }
    }
  }

  lemma {:induction false} DropKeeps(d: State, i: nat)
    requires Inv(d) && d.ready.None?
    requires i == FirstReady(d) && i < |d.waiting| && d.waiting[i].order in d.unsafe
    ensures Inv(TakeReadyTerminal(d))
  {
    hide Ids, Completions, Bounded, Hand, Places, ReadyFenced, AllFenced, Listed, AllListed, Once, Gone, Quarantine, Accounted, InLine;
    hide Numbers, NoneLost, FirstReady, IsReady;
    var w := d.waiting[i];
    LeaveList(d.waiting, i, d.taken, d.homes, d.inFlight, d.reported, d.gone, |d.homes|);
    LeaveAccounts(d.taken, |d.homes|, d.waiting, i, None, d.sent, d.dropped);
    DropQuarantine(d.reported, d.unsafe, d.gone, w.order);
  }

  lemma {:induction false} ReadyKeeps(d: State, i: nat)
    requires Inv(d) && d.ready.None? && |d.inFlight| < d.most
    requires i == FirstReady(d) && i < |d.waiting| && d.waiting[i].order !in d.unsafe
    ensures Inv(TakeReadyTerminal(d))
  {
    hide Ids, Completions, Bounded, Hand, Places, Fenced, AllFenced, Listed, AllListed, Once, Gone, Quarantine, Accounted, InLine;
    hide Numbers, NoneLost, FirstReady, IsReady;
    var w := d.waiting[i];
    var j := TerminalJob(d.nextJob, w.place, w.event);
    ListedAt(d, i);
    LeaveList(d.waiting, i, d.taken, d.homes, d.inFlight, d.reported, d.gone, |d.homes|);
    LeaveAccounts(d.taken, |d.homes|, d.waiting, i, Some(j), d.sent, d.dropped);
    DropQuarantine(d.reported, d.unsafe, d.gone, w.order);
    ReadyMeansSettled(d, w);
    NewTerminalJob(d.nextJob, d.inFlight, d.reported, d.most, d.taken, d.homes, d.nextNumber, d.received, j);
  }

  // ----------------------------------------------------------- taking from the queue

  lemma TakenGrows(d: State, more: seq<Event>)
    requires Inv(d)
    ensures var taken := d.taken + more;
      && Places(taken, d.homes, d.ready, d.inFlight, d.reported)
      && ReadyFenced(d.ready, taken, d.homes, d.reported) && AllFenced(d.sent, taken, d.homes, d.reported)
      && AllListed(d.waiting, taken, d.homes, d.inFlight, d.reported)
      && Gone(d.gone, d.waiting, taken, |d.homes|)
      && Accounted(taken, |d.homes|, d.waiting, d.ready, d.sent, d.dropped)
  {
    hide Quarantine, Once, InLine, Numbers, NoneLost, Ids, Completions;
    var taken := d.taken + more;
    assert forall p :: 0 <= p < |d.taken| ==> taken[p] == d.taken[p];
    forall o | o in d.gone
      ensures exists p :: 0 <= p < |d.homes| && TerminalOf(taken[p], o)
    {
      var p :| 0 <= p < |d.homes| && TerminalOf(d.taken[p], o);
      assert TerminalOf(taken[p], o);
    }
  }

  /** The head of the queue, taken in hand. */
  function TakeIn(d: State): State
    requires d.queue != []
  {
    d.(carry := Some(d.queue[0]), queue := d.queue[1..], taken := d.taken + [d.queue[0]])
  }

  lemma {:induction false} TakeInKeeps(d: State)
    requires Inv(d) && d.queue != [] && d.carry.None?
    ensures Inv(TakeIn(d))
  {
    hide Ids, Completions, Bounded, Places, Fenced, AllFenced, ReadyFenced, Listed, AllListed, Once, Gone, Quarantine, Accounted, InLine;
    hide Numbers, NoneLost;
    TakenGrows(d, [d.queue[0]]);
    assert d.taken + d.queue == d.taken + [d.queue[0]] + d.queue[1..];
  }

  // ------------------------------------------------------------- placing what is taken

  lemma HomesGrow(d: State, taken: seq<Event>, more: seq<nat>)
    requires |d.homes| + |more| <= |taken|
    requires ReadyFenced(d.ready, taken, d.homes, d.reported) && AllFenced(d.sent, taken, d.homes, d.reported)
    requires AllListed(d.waiting, taken, d.homes, d.inFlight, d.reported) && Gone(d.gone, d.waiting, taken, |d.homes|)
    ensures var homes := d.homes + more;
      && ReadyFenced(d.ready, taken, homes, d.reported) && AllFenced(d.sent, taken, homes, d.reported)
      && AllListed(d.waiting, taken, homes, d.inFlight, d.reported)
      && Gone(d.gone, d.waiting, taken, |homes|)
  {
    var homes := d.homes + more;
    assert forall p :: 0 <= p < |d.homes| ==> homes[p] == d.homes[p];
  }

  /** The terminal in hand joins the list: its order is new to it. */
  lemma {:induction false} PlaceTerminalKeeps(d: State)
    requires Inv(d) && d.ready.None? && d.carry.Some? && d.carry.value.Terminal?
    ensures Inv(AppendWaiting(d.(carry := None), d.carry.value))
  {
    hide Ids, Completions, Bounded, Fenced, ReadyFenced, AllFenced, InLine, Numbers, NoneLost, Quarantine, Placed, Once;
    var e, n := d.carry.value, |d.homes|;
    var homes := d.homes + [0];
    var w := Waiting(n, e, e.order);
    NewOrder(d);
    HomesGrow(d, d.taken, [0]);
    assert !AlreadyWaits(d.(carry := None), e.order);
    JoinsList(d, w, homes);
    var waiting := d.waiting + [w];
    forall p | 0 <= p <= n && d.taken[p].Terminal?
      ensures WaitsAt(waiting, p) || p in d.sent || p in d.dropped
    {
      if p == n {
        assert waiting[|d.waiting|].place == n;
      } else if WaitsAt(d.waiting, p) {
        var i :| 0 <= i < |d.waiting| && d.waiting[i].place == p;
        assert waiting[i].place == p;
      }
    }
  }

  lemma {:induction false} JoinsList(d: State, w: Waiting, homes: seq<nat>)
    requires Places(d.taken, d.homes, None, d.inFlight, d.reported) && homes == d.homes + [0] && |homes| <= |d.taken|
    requires w.place == |d.homes| && w.event == d.taken[w.place] && w.event.Terminal? && w.order == w.event.order
    ensures Listed(w, d.taken, homes, d.inFlight, d.reported)
  {
    forall q | 0 <= q < w.place && d.taken[q].Trade?
      ensures homes[q] in d.inFlight || homes[q] in d.reported
    {
      assert Placed(d.taken[q], d.homes[q], None, d.inFlight, d.reported);
    }
  }

  lemma {:induction false} NewOrder(d: State)
    requires Inv(d) && d.carry.Some? && d.carry.value.Terminal?
    ensures d.carry.value.order !in d.gone && !AlreadyWaits(d, d.carry.value.order)
  {
    hide Ids, Completions, Bounded, Fenced, InLine, Numbers, NoneLost, Quarantine, Places, Accounted;
    var all, n := d.taken + d.queue, |d.homes|;
    assert all[n] == d.carry.value;
    assert forall p :: 0 <= p < n ==> all[p] == d.taken[p];
    assert forall p :: 0 <= p < n ==> !TerminalOf(d.taken[p], d.carry.value.order);
    forall i | 0 <= i < |d.waiting|
      ensures d.waiting[i].order != d.carry.value.order
    {
      assert Listed(d.waiting[i], d.taken, d.homes, d.inFlight, d.reported);
    }
  }

  lemma NewTradeJob(nextJob: nat, inFlight: Jobs, reported: Reports, most: nat,
                    next: nat, received: map<nat, seq<string>>, j: Job)
    requires Ids(nextJob, None, inFlight, reported) && j.TradeJob? && j.id == nextJob && j.number == next
    requires Bounded(most, None, inFlight) && |inFlight| < most
    requires Numbers(next, received, None, inFlight) && NoneLost(next, received, None, inFlight)
    ensures Ids(nextJob + 1, Some(j), inFlight, reported) && Bounded(most, Some(j), inFlight)
    ensures Numbers(next + 1, received, Some(j), inFlight) && NoneLost(next + 1, received, Some(j), inFlight)
  {
    forall n | 1 <= n < next + 1
      ensures n in received || Coming(n, Some(j), inFlight)
    {
      assert n < next ==> n in received || Coming(n, None, inFlight);
    }
  }

  /** The trades of a batch are placed in its job. */
  lemma {:induction false} BatchPlaces(taken: seq<Event>, homes: seq<nat>, inFlight: Jobs, reported: Reports, j: Job,
                                       waiting: seq<Waiting>, sent: set<nat>, dropped: set<nat>)
    requires j.TradeJob? && |homes| + |j.batch| <= |taken| && taken[|homes|..|homes| + |j.batch|] == j.batch
    requires forall i :: 0 <= i < |j.batch| ==> j.batch[i].Trade?
    requires Places(taken, homes, None, inFlight, reported) && Accounted(taken, |homes|, waiting, None, sent, dropped)
    ensures Places(taken, homes + Repeat(j.id, |j.batch|), Some(j), inFlight, reported)
    ensures Accounted(taken, |homes| + |j.batch|, waiting, Some(j), sent, dropped)
  {
    var after := homes + Repeat(j.id, |j.batch|);
    forall p | 0 <= p < |after| && taken[p].Trade?
      ensures Placed(taken[p], after[p], Some(j), inFlight, reported)
    {
      if p < |homes| {
        assert Placed(taken[p], homes[p], None, inFlight, reported);
      } else {
        assert taken[p] == taken[|homes|..|homes| + |j.batch|][p - |homes|];
      }
    }
    forall p | |homes| <= p < |homes| + |j.batch|
      ensures taken[p].Trade?
    {
      assert taken[p] == taken[|homes|..|homes| + |j.batch|][p - |homes|];
    }
  }

  lemma {:induction false} PlaceBatchKeeps(d: State)
    requires Inv(d) && d.ready.None? && d.carry.Some? && d.carry.value.Trade? && |d.inFlight| < d.most
    ensures Inv(TakeBatch(d.(carry := None), d.carry.value))
  {
    hide Ids, Completions, Bounded, Places, Fenced, ReadyFenced, AllFenced, AllListed, Gone, Accounted, InLine, Numbers, NoneLost;
    hide Quarantine, Once, Behind, Reach, Repeat;
    var b := d.(carry := None);
    var n, m := Behind(b), Reach(b);
    var j := TradeJob(d.nextJob, d.nextNumber, [d.carry.value] + d.queue[..n]);
    var taken := d.taken + d.queue[..m];
    TakenGrows(d, d.queue[..m]);
    BehindAreTrades(b);
    assert taken[|d.homes|..|d.homes| + |j.batch|] == j.batch;
    BatchPlaces(taken, d.homes, d.inFlight, d.reported, j, d.waiting, d.sent, d.dropped);
    HomesGrow(d, taken, Repeat(j.id, n + 1));
    NoTerminalReady(j, taken, d.homes + Repeat(j.id, n + 1), d.reported);
    NewTradeJob(d.nextJob, d.inFlight, d.reported, d.most, d.nextNumber, d.received, j);
    assert taken + d.queue[m..] == d.taken + d.queue;
  }

  lemma NoTerminalReady(j: Job, taken: seq<Event>, homes: seq<nat>, reported: Reports)
    requires j.TradeJob?
    ensures ReadyFenced(Some(j), taken, homes, reported)
  {
  }

  lemma BehindAreTrades(d: State)
    ensures Behind(d) <= |d.queue| && forall i :: 0 <= i < Behind(d) ==> d.queue[i].Trade?
  {
  }

  // ------------------------------------------------------------------- broadcasting

  /** Broadcasting moves what is next in line out, and stops at the first gap. */
  lemma {:induction false} FlushKeepsLine(l: Line, received: map<nat, seq<string>>)
    requires InLine(l.pending, received, l.next, l.out)
    ensures var f := FlushLine(l);
      InLine(f.pending, received, f.next, f.out) && f.next !in f.pending
    decreases |l.pending|
  {
    hide InLine;
    if l.next in l.pending {
      NextInLine(l.pending, received, l.next, l.out);
      var rest := l.pending - {l.next};
      assert rest.Keys == l.pending.Keys - {l.next};
      assert |rest.Keys| < |l.pending.Keys|;
      FlushKeepsLine(Line(rest, l.next + 1, l.out + l.pending[l.next]), received);
    }
  }

  lemma {:induction false} NextInLine(pending: map<nat, seq<string>>, received: map<nat, seq<string>>, next: nat, out: seq<string>)
    requires InLine(pending, received, next, out) && next in pending
    ensures InLine(pending - {next}, received, next + 1, out + pending[next])
  {
  }

  // --------------------------------------------------------------------- one pass

  lemma {:induction false} PassKeeps(d: State)
    requires Inv(d)
    ensures Inv(Prepare(d))
  {
    hide Inv, TakeReadyTerminal, AppendWaiting, TakeBatch, Settle;
    var d1 := if d.ready.None? && Outstanding(d) < d.most then TakeReadyTerminal(d) else d;
    if d.ready.None? && Outstanding(d) < d.most {
      TakeReadyKeeps(d);
    }
    if d1.ready.None? && Outstanding(d1) < d1.most {
      var inHand := if d1.carry.None? && d1.queueOpen && d1.queue != [] then TakeIn(d1) else d1;
      if d1.carry.None? && d1.queueOpen && d1.queue != [] {
        TakeInKeeps(d1);
      }
      var (d2, first) := TakeFirst(d1);
      if first.None? {
        OpenKeeps(d1, d2.queueOpen);
        SettleKeeps(d2);
      } else {
        assert inHand.carry == first && d2 == inHand.(carry := None);
        if first.value.Terminal? {
          PlaceTerminalKeeps(inHand);
        } else {
          PlaceBatchKeeps(inHand);
          SettleKeeps(TakeBatch(d2, first.value));
        }
      }
    } else {
      SettleKeeps(d1);
    }
  }

  lemma OpenKeeps(d: State, open: bool)
    requires Inv(d)
    ensures Inv(d.(queueOpen := open))
  {
    hide Ids, Completions, Bounded, Hand, Places, ReadyFenced, AllFenced, AllListed, Gone, Accounted, InLine, Numbers, NoneLost;
    hide Quarantine, Once;
  }

  lemma {:induction false} SettleKeeps(d: State)
    requires Inv(d)
    ensures Inv(Settle(d))
  {
    hide Ids, Completions, Bounded, Hand, Places, ReadyFenced, AllFenced, AllListed, Gone, Accounted, InLine, Numbers, NoneLost;
    hide Quarantine, Once;
    assert FlushLine(Line(d.pending, d.nextBroadcast, d.out)) == Line(d.pending, d.nextBroadcast, d.out);
  }

  // ------------------------------------------------------------- sending and hearing

  lemma {:induction false} DispatchKeeps(d: State)
    requires Inv(d) && Enabled(d, Dispatch)
    ensures Inv(Do(d, Dispatch))
  {
    hide Fenced, Listed, Once, Gone, Quarantine, InLine, Hand, Numbers, NoneLost, Placed, Accounted, Completions;
    var j := d.ready.value;
    var inFlight := d.inFlight[j.id := j];
    SentPlaces(d, j, inFlight);
    SentNumbers(d, j, inFlight);
  }

  lemma {:induction false} SentPlaces(d: State, j: Job, inFlight: Jobs)
    requires Inv(d) && d.ready == Some(j) && inFlight == d.inFlight[j.id := j]
    ensures Places(d.taken, d.homes, None, inFlight, d.reported) && AllListed(d.waiting, d.taken, d.homes, inFlight, d.reported)
    ensures Completions(d.completions, inFlight)
    ensures Accounted(d.taken, |d.homes|, d.waiting, None, if j.TerminalJob? then d.sent + {j.place} else d.sent, d.dropped)
  {
    hide Fenced, Once, Gone, Quarantine, InLine, Numbers, NoneLost, Bounded;
    forall p | 0 <= p < |d.homes| && d.taken[p].Trade?
      ensures Placed(d.taken[p], d.homes[p], None, inFlight, d.reported)
    {
      assert Placed(d.taken[p], d.homes[p], d.ready, d.inFlight, d.reported);
    }
    forall i | 0 <= i < |d.waiting|
      ensures Listed(d.waiting[i], d.taken, d.homes, inFlight, d.reported)
    {
      assert Listed(d.waiting[i], d.taken, d.homes, d.inFlight, d.reported);
    }
  }

  lemma {:induction false} SentNumbers(d: State, j: Job, inFlight: Jobs)
    requires Inv(d) && d.ready == Some(j) && inFlight == d.inFlight[j.id := j]
    ensures Numbers(d.nextNumber, d.received, None, inFlight) && NoneLost(d.nextNumber, d.received, None, inFlight)
  {
    hide Fenced, Listed, Once, Gone, Quarantine, InLine, Hand, Placed, Places, Accounted, Completions;
    forall n | 1 <= n < d.nextNumber
      ensures n in d.received || Coming(n, None, inFlight)
    {
      if n !in d.received {
        assert Coming(n, d.ready, d.inFlight);
        if HasNumber(j, n) {
          assert inFlight[j.id] == j;
        } else {
          var id :| id in d.inFlight && HasNumber(d.inFlight[id], n);
          assert inFlight[id] == d.inFlight[id];
        }
      }
    }
  }

  /** Hearing of a job: its trades count as settled and what it reported is quarantined. */
  lemma {:induction false} HeardPlaces(d: State, id: nat, undurable: set<nat>)
    requires Inv(d) && id in d.inFlight
    ensures var inFlight, reported := d.inFlight - {id}, d.reported[id := undurable];
      && Ids(d.nextJob, d.ready, inFlight, reported)
      && Places(d.taken, d.homes, d.ready, inFlight, reported) && AllListed(d.waiting, d.taken, d.homes, inFlight, reported)
      && ReadyFenced(d.ready, d.taken, d.homes, reported) && AllFenced(d.sent, d.taken, d.homes, reported)
      && Quarantine(reported, d.unsafe + undurable, d.gone)
  {
    hide Once, Gone, InLine, Numbers, NoneLost, Bounded, Hand, Completions, Accounted;
    var inFlight, reported := d.inFlight - {id}, d.reported[id := undurable];
    forall p | 0 <= p < |d.homes| && d.taken[p].Trade?
      ensures Placed(d.taken[p], d.homes[p], d.ready, inFlight, reported)
    {
      assert Placed(d.taken[p], d.homes[p], d.ready, d.inFlight, d.reported);
    }
    forall i | 0 <= i < |d.waiting|
      ensures Listed(d.waiting[i], d.taken, d.homes, inFlight, reported)
    {
      assert Listed(d.waiting[i], d.taken, d.homes, d.inFlight, d.reported);
    }
    forall p | Fenced(p, d.taken, d.homes, d.reported)
      ensures Fenced(p, d.taken, d.homes, reported)
    {
    }
  }

  lemma {:induction false} HeardNumbers(d: State, j: Job, messages: seq<string>)
    requires Inv(d) && j.id in d.inFlight && d.inFlight[j.id] == j
    ensures var inFlight := d.inFlight - {j.id};
      && Bounded(d.most, d.ready, inFlight)
      && (j.TerminalJob? ==> Numbers(d.nextNumber, d.received, d.ready, inFlight) && NoneLost(d.nextNumber, d.received, d.ready, inFlight))
      && (j.TradeJob? ==>
            var received := d.received[j.number := messages];
            && Numbers(d.nextNumber, received, d.ready, inFlight) && NoneLost(d.nextNumber, received, d.ready, inFlight)
            && InLine(d.pending[j.number := messages], received, d.nextBroadcast, d.out))
  {
    hide Ids, Completions, Hand, Places, ReadyFenced, AllFenced, AllListed, Once, Gone, Quarantine, Accounted, InLine, Numbers, NoneLost;
    var inFlight := d.inFlight - {j.id};
    assert inFlight.Keys == d.inFlight.Keys - {j.id};
    assert |inFlight.Keys| < |d.inFlight.Keys|;
    HeardStillNumbered(d.nextNumber, d.received, d.ready, d.inFlight, j, messages);
    HeardNotLost(d.nextNumber, d.received, d.ready, d.inFlight, j, messages);
    if j.TradeJob? {
      HeardInLine(d.pending, d.received, d.nextBroadcast, d.out, j.number, messages);
    }
  }

  lemma {:induction false} HeardStillNumbered(next: nat, received: map<nat, seq<string>>, ready: Option<Job>, inFlight: Jobs,
                                              j: Job, messages: seq<string>)
    requires Numbers(next, received, ready, inFlight) && j.id in inFlight && inFlight[j.id] == j
    ensures Numbers(next, received, ready, inFlight - {j.id})
    ensures j.TradeJob? ==> j.number !in received && j.number >= 1 && Numbers(next, received[j.number := messages], ready, inFlight - {j.id})
  {
    if ready.Some? && ready.value.TradeJob? {
      assert !HasNumber(inFlight[j.id], ready.value.number);
    }
  }

  lemma {:induction false} HeardNotLost(next: nat, received: map<nat, seq<string>>, ready: Option<Job>, inFlight: Jobs,
                                        j: Job, messages: seq<string>)
    requires NoneLost(next, received, ready, inFlight) && j.id in inFlight && inFlight[j.id] == j
    ensures j.TerminalJob? ==> NoneLost(next, received, ready, inFlight - {j.id})
    ensures j.TradeJob? ==> NoneLost(next, received[j.number := messages], ready, inFlight - {j.id})
  {
    var left := inFlight - {j.id};
    forall n | 1 <= n < next
      ensures n in received || Coming(n, ready, left) || HasNumber(j, n)
    {
      assert n in received || Coming(n, ready, inFlight);
      if exists id :: id in inFlight && HasNumber(inFlight[id], n) {
        var id :| id in inFlight && HasNumber(inFlight[id], n);
        assert id != j.id ==> id in left && HasNumber(left[id], n);
      }
    }
  }

  lemma {:induction false} HeardInLine(pending: map<nat, seq<string>>, received: map<nat, seq<string>>, next: nat, out: seq<string>,
                                       number: nat, messages: seq<string>)
    requires InLine(pending, received, next, out) && number !in received && number >= 1
    ensures InLine(pending[number := messages], received[number := messages], next, out)
  {
    MessagesStay(received, number, messages, next);
  }

  lemma {:induction false} MessagesStay(received: map<nat, seq<string>>, number: nat, messages: seq<string>, n: nat)
    requires number !in received && forall k :: 1 <= k < n ==> k in received
    ensures Messages(received[number := messages], n) == Messages(received, n)
  {
    if n > 1 {
      MessagesStay(received, number, messages, n - 1);
    }
  }

  lemma {:induction false} ReceiveKeeps(d: State)
    requires Inv(d) && Enabled(d, Receive)
    ensures Inv(Do(d, Receive))
  {
    hide Ids, Bounded, Hand, Places, Fenced, ReadyFenced, AllFenced, AllListed, Gone, Accounted, InLine, Numbers, NoneLost;
    hide Quarantine, Once, FlushLine;
    var r := d.completions[0];
    HeardPlaces(d, r.job.id, r.undurable);
    HeardNumbers(d, r.job, r.messages);
    assert Completions(d.completions[1..], d.inFlight - {r.job.id});
    if r.job.TradeJob? {
      var retired := d.(
        completions := d.completions[1..], inFlight := d.inFlight - {r.job.id}, unsafe := d.unsafe + r.undurable,
        reported := d.reported[r.job.id := r.undurable], selecting := false,
        pending := d.pending[r.job.number := r.messages], received := d.received[r.job.number := r.messages]);
      FlushKeepsLine(Line(retired.pending, retired.nextBroadcast, retired.out), retired.received);
    }
  }

  lemma {:induction false} OtherStepsKeep(d: State, s: Step)
    requires Inv(d) && Enabled(d, s) && (s.Produce? || s.CloseQueue? || s.Finish? || s.Input?)
    ensures Inv(Do(d, s))
  {
    hide Ids, Bounded, Hand, Places, Fenced, ReadyFenced, AllFenced, AllListed, Gone, Accounted, InLine, Numbers, NoneLost;
    hide Quarantine;
    match s
    case Produce(e) =>
      assert d.taken + (d.queue + [e]) == d.taken + d.queue + [e];
    case CloseQueue =>
    case Finish(id, messages, undurable) =>
      FinishCompletes(d, id, messages, undurable);
    case Input =>
      if d.queue != [] {
        TakeInKeeps(d);
      }
  }

  lemma {:induction false} FinishCompletes(d: State, id: nat, messages: seq<string>, undurable: set<nat>)
    requires Completions(d.completions, d.inFlight) && Ids(d.nextJob, d.ready, d.inFlight, d.reported)
    requires Enabled(d, Finish(id, messages, undurable))
    ensures Completions(d.completions + [Report(d.inFlight[id], messages, undurable)], d.inFlight)
  {
  }

  lemma {:induction false} StepKeepsInv(d: State, s: Step)
    requires Inv(d) && Enabled(d, s)
    ensures Inv(Do(d, s))
  {
    hide Inv, Enabled, Do;
    match s
    case Pass => PassStep(d);
    case Dispatch => DispatchKeeps(d);
    case Receive => ReceiveKeeps(d);
    case _ => OtherStepsKeep(d, s);
  }

  lemma PassStep(d: State)
    requires Inv(d) && Enabled(d, Pass)
    ensures Inv(Do(d, Pass))
  {
    hide Inv, Prepare;
    PassKeeps(d);
  }

  // -------------------------------------------------------------------------- runs

  ghost predicate IsRun(start: State, steps: seq<Step>)
    decreases |steps|, 0
  {
    steps == [] || (IsRun(start, steps[..|steps| - 1]) && Enabled(Reached(start, steps[..|steps| - 1]), steps[|steps| - 1]))
  }

  ghost function Reached(start: State, steps: seq<Step>): State
    requires IsRun(start, steps)
    decreases |steps|, 1
  {
    if steps == [] then start else Do(Reached(start, steps[..|steps| - 1]), steps[|steps| - 1])
  }

  /** Over every interleaving of input, passes and completions. A terminal is sent only
      after every trade of its order queued before it was settled without leaving the
      order undurable; no more jobs are outstanding than there are completion slots; and
      what has been broadcast is exactly the results numbered so far, in the order their
      batches were made, without a gap. */
  lemma {:induction false} DispatcherIsSafe(concurrency: int, maxBatch: nat, steps: seq<Step>)
    requires IsRun(Start(concurrency, maxBatch), steps)
    ensures var d := Reached(Start(concurrency, maxBatch), steps);
      && Inv(d)
      && (forall p :: p in d.sent ==> Fenced(p, d.taken, d.homes, d.reported))
      && (Enabled(d, Dispatch) && d.ready.value.TerminalJob? ==> Fenced(d.ready.value.place, d.taken, d.homes, d.reported))
      && Outstanding(d) <= d.most
      && d.out == Messages(d.received, d.nextBroadcast) && (forall n :: 1 <= n < d.nextBroadcast ==> n in d.received)
  {
    hide Ids, Completions, Hand, Places, Fenced, AllListed, Gone, Accounted, Numbers, NoneLost, Quarantine, Once, Do;
    if steps == [] {
      StartIsFine(concurrency, maxBatch);
    } else {
      DispatcherIsSafe(concurrency, maxBatch, steps[..|steps| - 1]);
      StepKeepsInv(Reached(Start(concurrency, maxBatch), steps[..|steps| - 1]), steps[|steps| - 1]);
    }
  }

  /** A worker that reports finds a free completion slot. */
  lemma {:induction false} ReportFindsRoom(d: State, s: Step)
    requires Inv(d) && s.Finish? && Enabled(d, s)
    ensures |d.completions| < d.most
  {
    hide Ids, Hand, Places, ReadyFenced, AllFenced, AllListed, Gone, Accounted, Numbers, NoneLost, Quarantine, Once, InLine;
    ReportersInFlight(d.completions, d.inFlight, s.id);
  }

  lemma {:induction false} ReportersInFlight(completions: seq<Report>, inFlight: Jobs, id: nat)
    requires Completions(completions, inFlight) && id in inFlight
    requires forall i :: 0 <= i < |completions| ==> completions[i].job.id != id
    ensures |completions| < |inFlight|
    decreases |completions|
  {
    assert inFlight.Keys - {id} < inFlight.Keys;
    if completions != [] {
      var last := completions[|completions| - 1].job.id;
      var left := inFlight - {last};
      assert left.Keys == inFlight.Keys - {last};
      assert |left.Keys| < |inFlight.Keys|;
      ReportersInFlight(completions[..|completions| - 1], left, id);
    }
  }

  // ---------------------------------------------------------------------- progress

  /** The select waits for ever: there is nothing to send, nothing to hear of, and no
      input it listens to. */
  predicate Stuck(d: State) {
    d.selecting && d.ready.None? && d.inFlight == map[] && !InputEnabled(d)
  }

  /** A pass ends in a stuck select exactly when it drops a quarantined terminal at the
      head of the list while another one waits and nothing else is left. */
  lemma {:induction false} StuckOnlyAfterDrop(d: State)
    requires d.most >= 2 && Enabled(d, Pass)
    ensures Stuck(Prepare(d)) <==>
      && d.ready.None? && d.inFlight == map[] && |d.waiting| >= 2 && d.waiting[0].order in d.unsafe
      && d.carry.None? && (!d.queueOpen || (d.queue == [] && d.closed))
  {
    if d.ready.Some? || d.inFlight != map[] {
      BusyIsNotStuck(d);
    } else {
      assert |d.inFlight| == 0;
      if d.waiting == [] {
        IdleTurn(d);
      } else {
        assert IsReady(d, d.waiting[0].order);
        assert FirstReady(d) == 0;
        if d.waiting[0].order in d.unsafe {
          DropTurn(d);
        } else {
          ReadyTurn(d);
        }
      }
    }
  }

  lemma {:induction false} BusyIsNotStuck(d: State)
    requires d.ready.Some? || d.inFlight != map[]
    ensures !Stuck(Prepare(d))
  {
    hide TakeReadyTerminal, TakeFirst, AppendWaiting, Settle, Behind, Reach;
  }

  lemma {:induction false} IdleTurn(d: State)
    requires d.most >= 2 && Enabled(d, Pass) && d.ready.None? && |d.inFlight| == 0 && d.waiting == []
    ensures !Stuck(Prepare(d))
  {
    hide IsReady, TakeFirst, AppendWaiting, Settle, Behind, Reach;
  }

  lemma {:induction false} ReadyTurn(d: State)
    requires d.most >= 2 && d.ready.None? && |d.inFlight| == 0
    requires d.waiting != [] && FirstReady(d) == 0 && d.waiting[0].order !in d.unsafe
    ensures !Stuck(Prepare(d))
  {
    hide FirstReady, IsReady, TakeFirst, AppendWaiting, Settle, Behind, Reach;
  }

  lemma {:induction false} DropTurn(d: State)
    requires d.most >= 2 && Enabled(d, Pass) && d.ready.None? && |d.inFlight| == 0
    requires d.waiting != [] && FirstReady(d) == 0 && d.waiting[0].order in d.unsafe
    ensures Stuck(Prepare(d)) <==>
      |d.waiting| >= 2 && d.carry.None? && (!d.queueOpen || (d.queue == [] && d.closed))
  {
    hide FirstReady, IsReady, TakeFirst, AppendWaiting, Settle, Behind, Reach;
  }

  /** No worker has reported anything undurable. */
  predicate Clean(d: State) {
    d.unsafe == {} && d.dropped == {} && forall i :: 0 <= i < |d.completions| ==> d.completions[i].undurable == {}
  }

  /** The queue is given up only when closed and empty; the loop ends only with nothing
      left. */
  predicate Ended(d: State) {
    && (!d.queueOpen ==> d.closed && d.queue == [])
    && (d.exited ==> !d.queueOpen && d.ready.None? && d.inFlight == map[] && d.carry.None? && d.waiting == [])
  }

  lemma BatchFrame(d: State, first: Event)
    ensures var r := TakeBatch(d, first);
      && r.unsafe == d.unsafe && r.dropped == d.dropped && r.completions == d.completions && r.ready.Some?
  {
    hide Behind, Reach, Repeat;
  }

  lemma BatchQueue(d: State, first: Event)
    ensures var r := TakeBatch(d, first);
      && r.exited == d.exited && r.closed == d.closed && r.ready.Some?
      && (d.queueOpen && !r.queueOpen ==> d.closed && r.queue == []) && (d.queue == [] ==> r.queue == []) && (r.queueOpen ==> d.queueOpen)
  {
    hide Repeat;
  }

  lemma {:induction false} PassStaysClean(d: State)
    requires Clean(d)
    ensures Clean(Prepare(d))
  {
    hide TakeReadyTerminal, TakeFirst, AppendWaiting, TakeBatch, Settle;
    var d1 := if d.ready.None? && Outstanding(d) < d.most then TakeReadyTerminal(d) else d;
    var (d2, first) := TakeFirst(d1);
    if first.Some? {
      BatchFrame(d2, first.value);
    }
  }

  lemma {:induction false} PassEnds(d: State)
    requires Ended(d) && Enabled(d, Pass)
    ensures Ended(Prepare(d))
  {
    hide TakeReadyTerminal, TakeFirst, AppendWaiting, TakeBatch, Settle;
    var d1 := if d.ready.None? && Outstanding(d) < d.most then TakeReadyTerminal(d) else d;
    var (d2, first) := TakeFirst(d1);
    if first.Some? {
      BatchQueue(d2, first.value);
    }
  }

  lemma {:induction false} CleanStep(d: State, s: Step)
    requires Inv(d) && Clean(d) && Ended(d) && !Stuck(d) && Enabled(d, s) && (s.Finish? ==> s.undurable == {})
    ensures Clean(Do(d, s)) && Ended(Do(d, s)) && !Stuck(Do(d, s))
  {
    hide Ids, Completions, Hand, Places, ReadyFenced, AllFenced, AllListed, Gone, Accounted, InLine, Numbers, NoneLost, Quarantine, Once;
    hide FlushLine, Prepare;
    if s == Pass {
      PassStaysClean(d);
      PassEnds(d);
      StuckOnlyAfterDrop(d);
    }
  }

  /** When no worker reports anything undurable, the dispatcher never gets stuck, and when
      it ends, every event ever queued was taken, every terminal was sent and every result
      was broadcast. */
  lemma {:induction false} CleanRunsFinish(concurrency: int, maxBatch: nat, steps: seq<Step>)
    requires IsRun(Start(concurrency, maxBatch), steps)
    requires forall i :: 0 <= i < |steps| && steps[i].Finish? ==> steps[i].undurable == {}
    ensures var d := Reached(Start(concurrency, maxBatch), steps);
      && Clean(d) && Ended(d) && !Stuck(d)
      && (d.exited ==>
            && d.closed && d.queue == [] && d.nextBroadcast == d.nextNumber
            && forall p :: 0 <= p < |d.taken| && d.taken[p].Terminal? ==> p in d.sent)
  {
    hide Inv, Do, Clean, Ended, Stuck;
    var start := Start(concurrency, maxBatch);
    if steps == [] {
      StartIsClean(concurrency, maxBatch);
    } else {
      var before := steps[..|steps| - 1];
      CleanRunsFinish(concurrency, maxBatch, before);
      DispatcherIsSafe(concurrency, maxBatch, before);
      CleanStep(Reached(start, before), steps[|steps| - 1]);
    }
    DispatcherIsSafe(concurrency, maxBatch, steps);
    if Reached(start, steps).exited {
      NothingLeft(Reached(start, steps));
    }
  }

  lemma StartIsClean(concurrency: int, maxBatch: nat)
    ensures var d := Start(concurrency, maxBatch);
      Clean(d) && Ended(d) && !Stuck(d)
  {
  }

  lemma {:induction false} NothingLeft(d: State)
    requires Inv(d) && Clean(d) && Ended(d) && d.exited
    ensures d.closed && d.queue == [] && d.nextBroadcast == d.nextNumber
    ensures forall p :: 0 <= p < |d.taken| && d.taken[p].Terminal? ==> p in d.sent
  {
    hide Ids, Completions, Places, ReadyFenced, AllFenced, AllListed, Gone, Quarantine, Once;
    assert forall n :: 1 <= n < d.nextNumber ==> n in d.received by {
      forall n: nat | 1 <= n < d.nextNumber
        ensures n in d.received
      {
        assert n in d.received || Coming(n, d.ready, d.inFlight);
      }
    }
  }

  // --------------------------------------------------------------- a stranded terminal

  /** One trade of orders 7 and 8, then the end of each, then a closed queue. */
  const FILL := Trade(1, 7, 8)
  const END7 := Terminal(2, 7)
  const END8 := Terminal(3, 8)

  function Queued(): State {
    Start(1, 32).(queue := [FILL, END7, END8], closed := true)
  }

  /** Both terminals wait for the one trade, which is with a worker. */
  function BothWait(): State {
    Queued().(queue := [], queueOpen := false, selecting := true, nextJob := 2, nextNumber := 2,
              inFlight := map[1 := TradeJob(1, 1, [FILL])], taken := [FILL, END7, END8], homes := [1, 0, 0],
              waiting := [Waiting(1, END7, 7), Waiting(2, END8, 8)])
  }

  lemma Extend(start: State, steps: seq<Step>, s: Step)
    requires IsRun(start, steps) && Enabled(Reached(start, steps), s)
    ensures IsRun(start, steps + [s]) && Reached(start, steps + [s]) == Do(Reached(start, steps), s)
  {
    assert (steps + [s])[..|steps|] == steps;
  }

  lemma QueuedSteps() returns (steps: seq<Step>)
    ensures IsRun(Start(1, 32), steps) && Reached(Start(1, 32), steps) == Queued()
  {
    var start := Start(1, 32);
    steps := [];
    Extend(start, steps, Produce(FILL));
    steps := steps + [Produce(FILL)];
    Extend(start, steps, Produce(END7));
    steps := steps + [Produce(END7)];
    Extend(start, steps, Produce(END8));
    steps := steps + [Produce(END8)];
    assert Reached(start, steps).queue == [FILL, END7, END8];
    Extend(start, steps, CloseQueue);
    steps := steps + [CloseQueue];
  }

  function Batched(): State {
    Queued().(queue := [END8], carry := Some(END7), selecting := true, nextJob := 2, nextNumber := 2,
              ready := Some(TradeJob(1, 1, [FILL])), taken := [FILL, END7], homes := [1])
  }

  lemma BatchTurn()
    ensures Enabled(Queued(), Pass) && Do(Queued(), Pass) == Batched()
  {
    var d := Queued();
    assert TakeReadyTerminal(d) == d;
    var d2 := d.(queue := [END7, END8], taken := [FILL]);
    assert d.queue[1..] == [END7, END8] && d.taken + [d.queue[0]] == [FILL];
    assert TakeFirst(d) == (d2, Some(FILL));
    assert Behind(d2) == 0 && Reach(d2) == 1;
    assert [FILL] + d2.queue[..0] == [FILL] && d2.queue[1..] == [END8] && d2.taken + d2.queue[..1] == [FILL, END7];
    assert Repeat(1, 1) == [1];
    assert TakeBatch(d2, FILL) == Batched().(selecting := false);
  }

  lemma SendTurn()
    ensures Enabled(Batched(), Dispatch)
    ensures Do(Batched(), Dispatch) == Batched().(ready := None, selecting := false, inFlight := map[1 := TradeJob(1, 1, [FILL])])
  {
  }

  function OneWaits(): State {
    Batched().(ready := None, selecting := false, inFlight := map[1 := TradeJob(1, 1, [FILL])],
               carry := None, homes := [1, 0], waiting := [Waiting(1, END7, 7)])
  }

  lemma FirstListTurn()
    ensures var d := Batched().(ready := None, selecting := false, inFlight := map[1 := TradeJob(1, 1, [FILL])]);
      Enabled(d, Pass) && Do(d, Pass) == OneWaits()
  {
    var d := Batched().(ready := None, selecting := false, inFlight := map[1 := TradeJob(1, 1, [FILL])]);
    assert |d.inFlight| == 1;
    assert TakeReadyTerminal(d) == d;
    assert !AlreadyWaits(d.(carry := None), 7);
  }

  lemma Busy(d: State, order: nat)
    requires 1 in d.inFlight && d.inFlight[1] == TradeJob(1, 1, [FILL]) && (order == 7 || order == 8)
    ensures !IsReady(d, order)
  {
    assert Touches(FILL, order);
    assert d.inFlight[1].batch[0] == FILL;
    assert JobTouches(d.inFlight[1], order);
  }

  lemma SecondListTurn()
    ensures Enabled(OneWaits(), Pass)
    ensures Do(OneWaits(), Pass) == BothWait().(queueOpen := true, selecting := false)
  {
    var d := OneWaits();
    assert |d.inFlight| == 1;
    Busy(d, 7);
    assert FirstReady(d) == 1;
    assert TakeReadyTerminal(d) == d;
    assert d.queue[1..] == [] && d.taken + [END8] == [FILL, END7, END8];
    assert TakeFirst(d) == (d.(queue := [], taken := [FILL, END7, END8]), Some(END8));
  }

  lemma CloseTurn()
    ensures var d := BothWait().(queueOpen := true, selecting := false);
      Enabled(d, Pass) && Do(d, Pass) == BothWait()
  {
    var d := BothWait().(queueOpen := true, selecting := false);
    assert |d.inFlight| == 1;
    Busy(d, 7);
    Busy(d, 8);
    assert FirstReady(d) == 2;
    assert TakeReadyTerminal(d) == d;
  }

  /** The trade leaves both orders undurable. The pass that drops the first terminal leaves
      the second on the list, with the select waiting for nothing. */
  lemma DroppingCanStrand() returns (steps: seq<Step>)
    ensures IsRun(Start(1, 32), steps) && Stuck(Reached(Start(1, 32), steps))
    ensures Reached(Start(1, 32), steps).waiting != []
  {
    hide Do, Enabled, Stuck;
    var start := Start(1, 32);
    steps := QueuedSteps();
    BatchTurn();
    Extend(start, steps, Pass);
    steps := steps + [Pass];
    SendTurn();
    Extend(start, steps, Dispatch);
    steps := steps + [Dispatch];
    FirstListTurn();
    Extend(start, steps, Pass);
    steps := steps + [Pass];
    SecondListTurn();
    Extend(start, steps, Pass);
    steps := steps + [Pass];
    CloseTurn();
    Extend(start, steps, Pass);
    steps := steps + [Pass];
    assert Reached(start, steps) == BothWait();
    FailTurn();
    Extend(start, steps, Finish(1, [], {7, 8}));
    steps := steps + [Finish(1, [], {7, 8})];
    Extend(start, steps, Receive);
    steps := steps + [Receive];
    Extend(start, steps, Pass);
    steps := steps + [Pass];
  }

  lemma FailTurn()
    ensures Enabled(BothWait(), Finish(1, [], {7, 8}))
    ensures var d := Do(BothWait(), Finish(1, [], {7, 8}));
      && Enabled(d, Receive) && Enabled(Do(d, Receive), Pass)
      && Stuck(Do(Do(d, Receive), Pass)) && |Do(Do(d, Receive), Pass).waiting| > 0
  {
    hide Prepare;
    var d := Do(BothWait(), Finish(1, [], {7, 8}));
    var e := Do(d, Receive);
    assert d.completions[0] == Report(TradeJob(1, 1, [FILL]), [], {7, 8});
    assert e.inFlight == map[];
    assert e.waiting == [Waiting(1, END7, 7), Waiting(2, END8, 8)];
    assert 7 in e.unsafe;
    StuckOnlyAfterDrop(e);
    StuckStillWaits(e);
  }

  lemma StuckStillWaits(d: State)
    requires d.most >= 2 && Enabled(d, Pass) && Stuck(Prepare(d)) && d.ready.None?
    ensures |Prepare(d).waiting| > 0
  {
    hide TakeReadyTerminal, TakeFirst, AppendWaiting, TakeBatch, Settle;
    var d1 := if Outstanding(d) < d.most then TakeReadyTerminal(d) else d;
    var (d2, first) := TakeFirst(d1);
    if first.Some? {
      BatchFrame(d2, first.value);
    }
  }
}
