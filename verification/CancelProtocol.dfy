/** The durable cancel protocol: commands recorded in the database, a worker that calls
    the engine and may time out and call again, an engine whose events reach the database
    later and in batches, and a process that may die at any moment and start over from
    what the database holds. */
module CancelProtocol {
  import opened Prelude

  datatype CommandStatus = CommandPending | CommandProcessed | CommandNoop

  /** A durable cancel command; an order has at most one. */
  datatype Command = Command(order: nat, status: CommandStatus)

  /** What can close an order: its cancellation, or a trade that fills it. Other events do
      not matter here. */
  datatype Closer = Cancelled(command: nat, order: nat) | FilledUp(order: nat)

  /** Where an order stands in the running engine. */
  datatype Place = Coming | Resting | Out

  datatype Phase = Dispatching | AwaitingOutbox | Backoff

  datatype Reply = CancelDone | OrderUnknown | CallFailed

  /** One call of the worker to the engine, until the worker has its result. */
  datatype Call = Call(command: nat, reply: Option<Reply>)

  /** `commands`, `rows` and `open` are the database; the rest dies with the process.
      `queue` holds the calls whose commands wait in the engine, also those the worker has
      given up on; `emitted` the events not committed yet. */
  datatype State = State(
    commands: map<nat, Command>, rows: seq<Closer>, open: map<nat, bool>,
    place: map<nat, Place>, queue: seq<(nat, nat)>, emitted: seq<Closer>,
    phases: map<nat, Phase>, calls: map<nat, Call>, nextCall: nat)

  datatype Step =
    | Submit(order: nat)
    | EnterBook(order: nat)
    | CreateCommand(id: nat, order: nat)
    | Dispatch(id: nat)
    | Enqueue(call: nat)
    | TimeOut(call: nat)
    | EngineTakes(refuse: bool)
    | Fill(order: nat)
    | Return(call: nat, databaseFails: bool)
    | Release(id: nat)
    | Commit(n: nat)
    | Settle(row: nat)
    | Restart

  predicate Enabled(s: State, step: Step) {
    match step
    case Submit(o) => o !in s.open
    case EnterBook(o) => o in s.place && s.place[o] == Coming
    case CreateCommand(id, o) => id > 0 && id !in s.commands && o in s.open
    case Dispatch(id) =>
      && id in s.commands && s.commands[id].status == CommandPending
      && (id in s.phases ==> s.phases[id] == Backoff)
    case Enqueue(k) => k in s.calls && s.calls[k].reply.None? && (s.calls[k].command, k) !in s.queue
    case TimeOut(k) => k in s.calls && s.calls[k].reply.None?
    case EngineTakes(_) => s.queue != []
    case Fill(o) => o in s.place && s.place[o] == Resting
    case Return(k, _) => k in s.calls && s.calls[k].reply.Some?
    case Release(id) => id in s.phases && s.phases[id] == AwaitingOutbox && id in s.commands && s.commands[id].status != CommandPending
    case Commit(n) => 0 < n <= |s.emitted|
    case Settle(i) => i < |s.rows|
    case Restart => true
  }

  /** The engine takes the head of its queue: a resting order leaves the book and the event
      goes out first, then the caller, if still waiting, is told. Under backpressure the
      command is refused untouched. */
  function EngineTake(s: State, refuse: bool): State
    requires s.queue != []
  {
    var (id, k) := s.queue[0];
    var left := s.(queue := s.queue[1..]);
    var o := if id in s.commands then s.commands[id].order else 0;
    var removes := !refuse && id in s.commands && o in s.place && s.place[o] == Resting;
    var reply := if refuse then CallFailed else if removes then CancelDone else OrderUnknown;
    var told := if k in s.calls && s.calls[k].reply.None? then left.(calls := s.calls[k := s.calls[k].(reply := Some(reply))]) else left;
    if removes then told.(place := s.place[o := Out], emitted := s.emitted + [Cancelled(id, o)]) else told
  }

  /** The worker hears of a command it has in hand. Success waits for the outbox; an order
      the engine does not know ends the command only if the database has closed it;
      anything else is tried again later. */
  function Heard(phases: map<nat, Phase>, commands: map<nat, Command>, id: nat, reply: Reply, closed: bool)
    : (map<nat, Phase>, map<nat, Command>)
  {
    if id !in phases then (phases, commands)
    else match reply
      case CancelDone => (phases[id := AwaitingOutbox], commands)
      case CallFailed => (phases[id := Backoff], commands)
      case OrderUnknown => if closed then (phases - {id}, MarkNoop(commands, id)) else (phases[id := Backoff], commands)
  }

  predicate ClosedInDatabase(s: State, id: nat) {
    id in s.commands && s.commands[id].order in s.open && !s.open[s.commands[id].order]
  }

  function ApplyResult(s: State, k: nat, databaseFails: bool): State
    requires k in s.calls && s.calls[k].reply.Some?
  {
    var id := s.calls[k].command;
    var (phases, commands) := Heard(s.phases, s.commands, id, s.calls[k].reply.value, !databaseFails && ClosedInDatabase(s, id));
    s.(calls := s.calls - {k}, phases := phases, commands := commands)
  }

  /** Only a pending command becomes a no-op. */
  function MarkNoop(commands: map<nat, Command>, id: nat): map<nat, Command> {
    if id in commands && commands[id].status == CommandPending then commands[id := commands[id].(status := CommandNoop)] else commands
  }

  /** The commands a batch of events completes. */
  function Completes(batch: seq<Closer>): set<nat> {
    set i | 0 <= i < |batch| && batch[i].Cancelled? && batch[i].command != 0 :: batch[i].command
  }

  /** One transaction inserts the batch and marks its commands. Every one of them must be
      pending, or the transaction rolls back. */
  function CommitBatch(commands: map<nat, Command>, rows: seq<Closer>, batch: seq<Closer>): Result<(map<nat, Command>, seq<Closer>)> {
    var ids := Completes(batch);
    if forall id :: id in ids ==> id in commands && commands[id].status == CommandPending then
      Ok((map id | id in commands :: if id in ids then commands[id].(status := CommandProcessed) else commands[id], rows + batch))
    else Err(Conflict)
  }

  predicate ClosesIn(events: seq<Closer>, order: nat) {
    exists i :: 0 <= i < |events| && events[i].order == order
  }

  /** A new process: committed rows are replayed first, then every order still open goes
      back to the book; nothing is remembered of calls, queues or uncommitted events. */
  function RestartFrom(s: State): State {
    var open := map o | o in s.open :: s.open[o] && !ClosesIn(s.rows, o);
    State(s.commands, s.rows, open, map o | o in open :: if open[o] then Resting else Out, [], [], map[], map[], s.nextCall)
  }

  function Do(s: State, step: Step): State
    requires Enabled(s, step)
  {
    match step
    case Submit(o) => s.(open := s.open[o := true], place := s.place[o := Coming])
    case EnterBook(o) => s.(place := s.place[o := Resting])
    case CreateCommand(id, o) =>
      if exists c :: c in s.commands && s.commands[c].order == o then s
      else s.(commands := s.commands[id := Command(o, CommandPending)])
    case Dispatch(id) =>
      s.(phases := s.phases[id := Dispatching], calls := s.calls[s.nextCall := Call(id, None)], nextCall := s.nextCall + 1)
    case Enqueue(k) => s.(queue := s.queue + [(s.calls[k].command, k)])
    case TimeOut(k) => s.(calls := s.calls[k := s.calls[k].(reply := Some(CallFailed))])
    case EngineTakes(refuse) => EngineTake(s, refuse)
    case Fill(o) => s.(place := s.place[o := Out], emitted := s.emitted + [FilledUp(o)])
    case Return(k, fails) => ApplyResult(s, k, fails)
    case Release(id) => s.(phases := s.phases - {id})
    case Commit(n) =>
      (match CommitBatch(s.commands, s.rows, s.emitted[..n])
       case Ok((commands, rows)) => s.(commands := commands, rows := rows, emitted := s.emitted[n..])
       case Err(_) => s)
    case Settle(i) =>
      if s.rows[i].order in s.open then s.(open := s.open[s.rows[i].order := false]) else s
    case Restart => RestartFrom(s)
  }

  const EMPTY := State(map[], [], map[], map[], [], [], map[], map[], 0)

  // -------------------------------------------------------------------- invariants

  /** An order is closed by one event at most, committed or not. */
  predicate ClosedOnce(rows: seq<Closer>, emitted: seq<Closer>) {
    forall i, j :: 0 <= i < j < |rows + emitted| ==> (rows + emitted)[i].order != (rows + emitted)[j].order
  }

  /** An order on its way or in the book has no closing event yet. */
  predicate StillLive(place: map<nat, Place>, rows: seq<Closer>, emitted: seq<Closer>) {
    forall o :: o in place && place[o] != Out ==> !ClosesIn(rows + emitted, o)
  }

  /** The database closes an order only for a committed event. */
  predicate ClosedByRow(open: map<nat, bool>, rows: seq<Closer>) {
    forall o :: o in open && !open[o] ==> ClosesIn(rows, o)
  }

  predicate PlacesKnown(place: map<nat, Place>, open: map<nat, bool>) {
    forall o :: o in place ==> o in open
  }

  /** An order has one command at most. */
  predicate CommandsKnown(commands: map<nat, Command>, open: map<nat, bool>) {
    && (forall id :: id in commands ==> id > 0 && commands[id].order in open)
    && (forall a, b :: a in commands && b in commands && a != b ==> commands[a].order != commands[b].order)
  }

  /** A closing event is about an order of the database, and a cancellation about the
      order its command names. */
  predicate ClosersKnown(events: seq<Closer>, commands: map<nat, Command>, open: map<nat, bool>) {
    forall i :: 0 <= i < |events| ==>
      && events[i].order in open
      && (events[i].Cancelled? ==> events[i].command in commands && commands[events[i].command].order == events[i].order)
  }

  predicate HasRow(rows: seq<Closer>, id: nat) {
    exists i :: 0 <= i < |rows| && rows[i].Cancelled? && rows[i].command == id
  }

  /** A command is processed exactly when its cancellation is committed, and a no-op only
      for an order the database has closed. */
  predicate StatusTellsTruth(commands: map<nat, Command>, rows: seq<Closer>, open: map<nat, bool>) {
    forall id :: id in commands ==>
      && (commands[id].status == CommandProcessed <==> HasRow(rows, id))
      && (commands[id].status == CommandNoop ==> commands[id].order in open && !open[commands[id].order])
  }

  /** A command has a call outstanding only while it is being dispatched, and one at
      most. */
  predicate OneCall(phases: map<nat, Phase>, calls: map<nat, Call>, nextCall: nat) {
    && (forall k :: k in calls ==> k < nextCall && calls[k].command in phases && phases[calls[k].command] == Dispatching)
    && (forall k, l :: k in calls && l in calls && k != l ==> calls[k].command != calls[l].command)
  }

  predicate Inv(s: State) {
    && ClosedOnce(s.rows, s.emitted) && StillLive(s.place, s.rows, s.emitted) && ClosedByRow(s.open, s.rows)
    && PlacesKnown(s.place, s.open) && CommandsKnown(s.commands, s.open) && ClosersKnown(s.rows + s.emitted, s.commands, s.open)
    && StatusTellsTruth(s.commands, s.rows, s.open) && OneCall(s.phases, s.calls, s.nextCall)
  }

  /** An event that is out but not committed belongs to a pending command. */
  lemma {:induction false} EmittedIsPending(s: State, i: nat)
    requires Inv(s) && i < |s.emitted| && s.emitted[i].Cancelled?
    ensures s.emitted[i].command in s.commands && s.commands[s.emitted[i].command].status == CommandPending
  {
    var all, e := s.rows + s.emitted, s.emitted[i];
    assert all[|s.rows| + i] == e;
    var id := e.command;
    assert !ClosesIn(s.rows, e.order) by {
      forall j | 0 <= j < |s.rows|
        ensures s.rows[j].order != e.order
      {
        assert all[j] == s.rows[j];
      }
    }
    forall j | 0 <= j < |s.rows| && s.rows[j].Cancelled?
      ensures s.rows[j].command != id
    {
      assert all[j] == s.rows[j];
    }
  }

  /** So the outbox transaction never fails its row count. */
  lemma {:induction false} CommitNeverFails(s: State, n: nat)
    requires Inv(s) && n <= |s.emitted|
    ensures CommitBatch(s.commands, s.rows, s.emitted[..n]).Ok?
  {
    forall id | id in Completes(s.emitted[..n])
      ensures id in s.commands && s.commands[id].status == CommandPending
    {
      var i :| 0 <= i < n && s.emitted[..n][i].Cancelled? && s.emitted[..n][i].command == id;
      assert s.emitted[i] == s.emitted[..n][i];
      EmittedIsPending(s, i);
    }
  }

  // ------------------------------------------------------------------- single steps

  /** A closing event of a live order joins the uncommitted ones. */
  lemma {:induction false} Emits(s: State, e: Closer)
    requires Inv(s) && e.order in s.place && s.place[e.order] == Resting
    requires e.Cancelled? ==> e.command in s.commands && s.commands[e.command].order == e.order
    ensures Inv(s.(place := s.place[e.order := Out], emitted := s.emitted + [e]))
  {
    hide StatusTellsTruth, OneCall, ClosedByRow, CommandsKnown;
    var all, more := s.rows + s.emitted, s.rows + (s.emitted + [e]);
    assert more == all + [e];
    assert !ClosesIn(all, e.order);
    forall o | o in s.place && s.place[o] != Out && o != e.order
      ensures !ClosesIn(more, o)
    {
      assert !ClosesIn(all, o);
    }
  }

  lemma {:induction false} EngineTakeKeeps(s: State, refuse: bool)
    requires Inv(s) && s.queue != []
    ensures Inv(EngineTake(s, refuse))
  {
    hide ClosedOnce, StillLive, ClosedByRow, StatusTellsTruth, PlacesKnown, CommandsKnown, ClosersKnown;
    var (id, k) := s.queue[0];
    var o := if id in s.commands then s.commands[id].order else 0;
    var removes := !refuse && id in s.commands && o in s.place && s.place[o] == Resting;
    var reply := if refuse then CallFailed else if removes then CancelDone else OrderUnknown;
    var calls := if k in s.calls && s.calls[k].reply.None? then s.calls[k := s.calls[k].(reply := Some(reply))] else s.calls;
    var told := s.(queue := s.queue[1..], calls := calls);
    if removes {
      Emits(told, Cancelled(id, o));
    }
  }

  lemma {:induction false} ApplyResultKeeps(s: State, k: nat, fails: bool)
    requires Inv(s) && k in s.calls && s.calls[k].reply.Some?
    ensures Inv(ApplyResult(s, k, fails))
  {
    hide ClosedOnce, StillLive, ClosedByRow, StatusTellsTruth, PlacesKnown, CommandsKnown, ClosersKnown, OneCall, MarkNoop;
    var id := s.calls[k].command;
    CallEnds(s.phases, s.calls, s.nextCall, k);
    if id in s.commands && s.commands[id].order in s.open && !s.open[s.commands[id].order] {
      NoopIsTrue(s, id);
    }
  }

  lemma CallEnds(phases: map<nat, Phase>, calls: map<nat, Call>, nextCall: nat, k: nat)
    requires OneCall(phases, calls, nextCall) && k in calls
    ensures OneCall(phases, calls - {k}, nextCall) && OneCall(phases - {calls[k].command}, calls - {k}, nextCall)
    ensures OneCall(phases[calls[k].command := AwaitingOutbox], calls - {k}, nextCall)
    ensures OneCall(phases[calls[k].command := Backoff], calls - {k}, nextCall)
  {
    assert forall l :: l in calls && l != k ==> calls[l].command != calls[k].command;
  }

  lemma NoopIsTrue(s: State, id: nat)
    requires Inv(s) && id in s.commands && s.commands[id].order in s.open && !s.open[s.commands[id].order]
    ensures var commands := MarkNoop(s.commands, id);
      && StatusTellsTruth(commands, s.rows, s.open) && CommandsKnown(commands, s.open)
      && ClosersKnown(s.rows + s.emitted, commands, s.open)
  {
    hide ClosedOnce, StillLive, ClosedByRow, PlacesKnown, OneCall;
  }

  lemma {:induction false} CommitKeeps(s: State, n: nat)
    requires Inv(s) && 0 < n <= |s.emitted|
    ensures Inv(Do(s, Commit(n)))
  {
    hide ClosedOnce, StillLive, OneCall, StatusTellsTruth, ClosedByRow, CommitBatch, PlacesKnown, CommandsKnown, ClosersKnown;
    CommitNeverFails(s, n);
    var batch, rest := s.emitted[..n], s.emitted[n..];
    var done := CommitBatch(s.commands, s.rows, batch).value;
    CommitStatus(s, n);
    CommitOpen(s, batch);
    assert s.rows + batch + rest == s.rows + s.emitted;
    CommitTotals(s, batch, rest);
  }

  lemma {:induction false} CommitOpen(s: State, batch: seq<Closer>)
    requires ClosedByRow(s.open, s.rows)
    ensures ClosedByRow(s.open, s.rows + batch)
  {
    forall o | o in s.open && !s.open[o]
      ensures ClosesIn(s.rows + batch, o)
    {
      var i :| 0 <= i < |s.rows| && s.rows[i].order == o;
      assert (s.rows + batch)[i].order == o;
    }
  }

  lemma {:induction false} CommitTotals(s: State, batch: seq<Closer>, rest: seq<Closer>)
    requires s.emitted == batch + rest && s.rows + batch + rest == s.rows + s.emitted
    requires ClosedOnce(s.rows, s.emitted) && StillLive(s.place, s.rows, s.emitted)
    requires CommitBatch(s.commands, s.rows, batch).Ok?
    ensures CommitBatch(s.commands, s.rows, batch).value.1 == s.rows + batch
    ensures ClosedOnce(s.rows + batch, rest) && StillLive(s.place, s.rows + batch, rest)
  {
  }

  lemma {:induction false} CommitStatus(s: State, n: nat)
    requires Inv(s) && 0 < n <= |s.emitted| && CommitBatch(s.commands, s.rows, s.emitted[..n]).Ok?
    ensures var (commands, rows) := CommitBatch(s.commands, s.rows, s.emitted[..n]).value;
      && StatusTellsTruth(commands, rows, s.open) && CommandsKnown(commands, s.open)
      && ClosersKnown(rows + s.emitted[n..], commands, s.open)
  {
    hide ClosedOnce, StillLive, OneCall, ClosedByRow;
    var batch := s.emitted[..n];
    var ids := Completes(batch);
    var (commands, rows) := CommitBatch(s.commands, s.rows, batch).value;
    assert rows + s.emitted[n..] == s.rows + s.emitted;
    assert commands.Keys == s.commands.Keys;
    forall id | id in commands
      ensures HasRow(rows, id) <==> HasRow(s.rows, id) || id in ids
    {
      CommitRows(s.rows, batch, id);
    }
  }

  lemma {:induction false} CommitRows(rows: seq<Closer>, batch: seq<Closer>, id: nat)
    requires id > 0
    ensures HasRow(rows + batch, id) <==> HasRow(rows, id) || id in Completes(batch)
  {
    var all := rows + batch;
    if HasRow(rows, id) {
      var i :| 0 <= i < |rows| && rows[i].Cancelled? && rows[i].command == id;
      assert all[i] == rows[i];
    }
    if id in Completes(batch) {
      var i :| 0 <= i < |batch| && batch[i].Cancelled? && batch[i].command == id;
      assert all[|rows| + i] == batch[i];
    }
    if HasRow(all, id) {
      var i :| 0 <= i < |all| && all[i].Cancelled? && all[i].command == id;
      assert i < |rows| ==> rows[i] == all[i];
      assert i >= |rows| ==> batch[i - |rows|] == all[i];
    }
  }

  lemma {:induction false} SettleKeeps(s: State, i: nat)
    requires Inv(s) && i < |s.rows|
    ensures Inv(Do(s, Settle(i)))
  {
    hide ClosedOnce, StillLive, OneCall;
    assert s.rows[i].order == s.rows[i].order;
  }

  lemma {:induction false} RestartKeeps(s: State)
    requires Inv(s)
    ensures Inv(RestartFrom(s))
  {
    hide OneCall;
    var t := RestartFrom(s);
    assert s.rows + [] == s.rows;
    forall i | 0 <= i < |s.rows|
      ensures (s.rows + s.emitted)[i] == s.rows[i]
    {
    }
    assert OneCall(map[], map[], s.nextCall) by {
      NoCalls(s.nextCall);
    }
  }

  lemma NoCalls(n: nat)
    ensures OneCall(map[], map[], n)
  {
  }

  lemma {:induction false} OrderSteps(s: State, step: Step)
    requires Inv(s) && Enabled(s, step) && (step.Submit? || step.EnterBook?)
    ensures Inv(Do(s, step))
  {
    hide ClosedOnce, OneCall;
    match step
    case Submit(o) =>
      assert !ClosesIn(s.rows + s.emitted, o);
    case EnterBook(o) =>
  }

  lemma {:induction false} CreateKeeps(s: State, id: nat, o: nat)
    requires Inv(s) && Enabled(s, CreateCommand(id, o))
    ensures Inv(Do(s, CreateCommand(id, o)))
  {
    hide ClosedOnce, OneCall, StillLive, ClosedByRow, PlacesKnown;
    forall i | 0 <= i < |s.rows|
      ensures (s.rows + s.emitted)[i] == s.rows[i]
    {
    }
  }

  lemma {:induction false} WorkerSteps(s: State, step: Step)
    requires Inv(s) && Enabled(s, step) && (step.Dispatch? || step.Enqueue? || step.TimeOut? || step.Release?)
    ensures Inv(Do(s, step))
  {
    hide ClosedOnce, StillLive, ClosedByRow, StatusTellsTruth, PlacesKnown, CommandsKnown, ClosersKnown;
  }

  lemma {:induction false} StepKeepsInv(s: State, step: Step)
    requires Inv(s) && Enabled(s, step)
    ensures Inv(Do(s, step))
  {
    hide Inv;
    match step
    case EngineTakes(refuse) => EngineTakeKeeps(s, refuse);
    case Fill(o) => FillKeeps(s, o);
    case Return(k, fails) => ApplyResultKeeps(s, k, fails);
    case Commit(n) => CommitKeeps(s, n);
    case Settle(i) => SettleKeeps(s, i);
    case Restart => RestartKeeps(s);
    case Submit(_) => OrderSteps(s, step);
    case EnterBook(_) => OrderSteps(s, step);
    case CreateCommand(id, o) => CreateKeeps(s, id, o);
    case _ => WorkerSteps(s, step);
  }

  lemma FillKeeps(s: State, o: nat)
    requires Inv(s) && o in s.place && s.place[o] == Resting
    ensures Inv(s.(place := s.place[o := Out], emitted := s.emitted + [FilledUp(o)]))
  {
    Emits(s, FilledUp(o));
  }

  // -------------------------------------------------------------------------- runs

  ghost predicate IsRun(steps: seq<Step>)
    decreases |steps|, 0
  {
    steps == [] || (IsRun(steps[..|steps| - 1]) && Enabled(Reached(steps[..|steps| - 1]), steps[|steps| - 1]))
  }

  ghost function Reached(steps: seq<Step>): State
    requires IsRun(steps)
    decreases |steps|, 1
  {
    if steps == [] then EMPTY else Do(Reached(steps[..|steps| - 1]), steps[|steps| - 1])
  }

  /** In every run with timeouts, repeated dispatch, crashes and restarts: a command is
      processed exactly when its cancellation is committed; one whose event is out but
      not committed is still pending, so the outbox transaction never fails its row count
      and no no-op overtakes it; and no command has two calls outstanding. */
  lemma {:induction false} CancelsAreExact(steps: seq<Step>)
    requires IsRun(steps)
    ensures var s := Reached(steps);
      && Inv(s)
      && (forall id :: id in s.commands ==> (s.commands[id].status == CommandProcessed <==> HasRow(s.rows, id)))
      && (forall i :: 0 <= i < |s.emitted| && s.emitted[i].Cancelled? ==>
            s.emitted[i].command in s.commands && s.commands[s.emitted[i].command].status == CommandPending)
      && (forall n :: 0 <= n <= |s.emitted| ==> CommitBatch(s.commands, s.rows, s.emitted[..n]).Ok?)
      && (forall k, l :: k in s.calls && l in s.calls && k != l ==> s.calls[k].command != s.calls[l].command)
  {
    if steps == [] {
      EmptyIsFine();
    } else {
      CancelsAreExact(steps[..|steps| - 1]);
      StepKeepsInv(Reached(steps[..|steps| - 1]), steps[|steps| - 1]);
    }
    RunFacts(Reached(steps));
  }

  lemma EmptyIsFine()
    ensures Inv(EMPTY)
  {
  }

  lemma {:induction false} RunFacts(s: State)
    requires Inv(s)
    ensures forall id :: id in s.commands ==> (s.commands[id].status == CommandProcessed <==> HasRow(s.rows, id))
    ensures forall i :: 0 <= i < |s.emitted| && s.emitted[i].Cancelled? ==>
              s.emitted[i].command in s.commands && s.commands[s.emitted[i].command].status == CommandPending
    ensures forall n :: 0 <= n <= |s.emitted| ==> CommitBatch(s.commands, s.rows, s.emitted[..n]).Ok?
    ensures forall k, l :: k in s.calls && l in s.calls && k != l ==> s.calls[k].command != s.calls[l].command
  {
    hide ClosedOnce, StillLive, ClosedByRow, PlacesKnown, CommandsKnown, ClosersKnown, CommitBatch;
    forall i | 0 <= i < |s.emitted| && s.emitted[i].Cancelled?
      ensures s.emitted[i].command in s.commands && s.commands[s.emitted[i].command].status == CommandPending
    {
      EmittedIsPending(s, i);
    }
    forall n | 0 <= n <= |s.emitted|
      ensures CommitBatch(s.commands, s.rows, s.emitted[..n]).Ok?
    {
      CommitNeverFails(s, n);
    }
  }

  // ------------------------------------------------------------ no cancel is forgotten

  /** The worker waits for the outbox, and is told of success, only for a cancellation that
      is out. */
  predicate WaitsForEvents(phases: map<nat, Phase>, calls: map<nat, Call>, events: seq<Closer>) {
    && (forall id :: id in phases && phases[id] == AwaitingOutbox ==> HasRow(events, id))
    && (forall k :: k in calls && calls[k].reply == Some(CancelDone) ==> HasRow(events, calls[k].command))
  }

  /** What waits in the engine is a call made once, for the command it names. */
  predicate QueueKnown(queue: seq<(nat, nat)>, calls: map<nat, Call>, nextCall: nat) {
    forall i :: 0 <= i < |queue| ==>
      queue[i].1 < nextCall && (queue[i].1 in calls ==> calls[queue[i].1].command == queue[i].0)
  }

  predicate HasCall(calls: map<nat, Call>, id: nat) {
    exists k :: k in calls && calls[k].command == id
  }

  /** A command is being dispatched only while a call for it is out. */
  predicate DispatchHasCall(phases: map<nat, Phase>, calls: map<nat, Call>) {
    forall id :: id in phases && phases[id] == Dispatching ==> HasCall(calls, id)
  }

  predicate Serves(s: State) {
    && WaitsForEvents(s.phases, s.calls, s.rows + s.emitted)
    && QueueKnown(s.queue, s.calls, s.nextCall) && DispatchHasCall(s.phases, s.calls)
  }

  lemma HasRowMore(events: seq<Closer>, more: seq<Closer>, id: nat)
    requires HasRow(events, id)
    ensures HasRow(events + more, id)
  {
    var i :| 0 <= i < |events| && events[i].Cancelled? && events[i].command == id;
    assert (events + more)[i] == events[i];
  }

  lemma WaitsForMore(phases: map<nat, Phase>, calls: map<nat, Call>, events: seq<Closer>, more: seq<Closer>)
    requires WaitsForEvents(phases, calls, events)
    ensures WaitsForEvents(phases, calls, events + more)
  {
    forall id | HasRow(events, id) ensures HasRow(events + more, id) {
      HasRowMore(events, more, id);
    }
  }

  lemma {:induction false} EngineTakeServes(s: State, refuse: bool)
    requires Inv(s) && Serves(s) && s.queue != []
    ensures Serves(EngineTake(s, refuse))
  {
    hide ClosedOnce, StillLive, ClosedByRow, StatusTellsTruth, PlacesKnown, CommandsKnown, ClosersKnown, HasRow, HasCall;
    var t := EngineTake(s, refuse);
    var (id, k) := s.queue[0];
    var all := s.rows + s.emitted;
    if t.emitted != s.emitted {
      var e := t.emitted[|s.emitted|];
      assert t.rows + t.emitted == all + [e];
      WaitsForMore(s.phases, s.calls, all, [e]);
      JustEmitted(all, e);
    }
    forall c | HasCall(s.calls, c) ensures HasCall(t.calls, c) {
      StillCalled(s.calls, t.calls, c);
    }
  }

  lemma JustEmitted(events: seq<Closer>, e: Closer)
    requires e.Cancelled?
    ensures HasRow(events + [e], e.command)
  {
    assert (events + [e])[|events|] == e;
  }

  lemma StillCalled(calls: map<nat, Call>, calls': map<nat, Call>, id: nat)
    requires HasCall(calls, id) && forall k :: k in calls ==> k in calls' && calls'[k].command == calls[k].command
    ensures HasCall(calls', id)
  {
    var k :| k in calls && calls[k].command == id;
    assert k in calls' && calls'[k].command == id;
  }

  lemma {:induction false} ReturnServes(s: State, k: nat, fails: bool)
    requires Inv(s) && Serves(s) && k in s.calls && s.calls[k].reply.Some?
    ensures Serves(ApplyResult(s, k, fails))
  {
    hide ClosedOnce, StillLive, ClosedByRow, StatusTellsTruth, PlacesKnown, CommandsKnown, ClosersKnown, HasRow, MarkNoop;
    var t := ApplyResult(s, k, fails);
    forall id | id in t.phases && t.phases[id] == Dispatching ensures HasCall(t.calls, id) {
      var l :| l in s.calls && s.calls[l].command == id;
      assert l in t.calls && t.calls[l].command == id;
    }
  }

  lemma {:induction false} DispatchServes(s: State, id: nat)
    requires Inv(s) && Serves(s) && Enabled(s, Dispatch(id))
    ensures Serves(Do(s, Dispatch(id)))
  {
    hide ClosedOnce, StillLive, ClosedByRow, StatusTellsTruth, PlacesKnown, CommandsKnown, ClosersKnown, HasRow;
    var t := Do(s, Dispatch(id));
    forall c | c in t.phases && t.phases[c] == Dispatching ensures HasCall(t.calls, c) {
      if c == id {
        assert s.nextCall in t.calls && t.calls[s.nextCall].command == id;
      } else {
        StillCalled(s.calls, t.calls, c);
      }
    }
  }

  lemma {:induction false} EnqueueServes(s: State, k: nat)
    requires Inv(s) && Serves(s) && Enabled(s, Enqueue(k))
    ensures Serves(Do(s, Enqueue(k)))
  {
    hide ClosedOnce, StillLive, ClosedByRow, StatusTellsTruth, PlacesKnown, CommandsKnown, ClosersKnown, HasRow, HasCall;
  }

  lemma {:induction false} StepServes(s: State, step: Step)
    requires Inv(s) && Serves(s) && Enabled(s, step)
    ensures Serves(Do(s, step))
  {
    hide Inv, HasRow, HasCall;
    match step
    case EngineTakes(refuse) => EngineTakeServes(s, refuse);
    case Return(k, fails) => ReturnServes(s, k, fails);
    case Dispatch(id) => DispatchServes(s, id);
    case Enqueue(k) => EnqueueServes(s, k);
    case Fill(o) =>
      assert s.rows + (s.emitted + [FilledUp(o)]) == s.rows + s.emitted + [FilledUp(o)];
      WaitsForMore(s.phases, s.calls, s.rows + s.emitted, [FilledUp(o)]);
    case TimeOut(k) =>
      forall c | HasCall(s.calls, c) ensures HasCall(Do(s, step).calls, c) {
        StillCalled(s.calls, Do(s, step).calls, c);
      }
    case Commit(n) =>
      if CommitBatch(s.commands, s.rows, s.emitted[..n]).Ok? {
        assert s.rows + s.emitted[..n] + s.emitted[n..] == s.rows + s.emitted;
      }
    case Restart =>
    case _ =>
  }

  /** In every run a pending command is never forgotten: a call for it is out, or its
      cancellation is out and not committed, or it can be dispatched now. And the worker
      holds a command back for the outbox only while the cancellation is out or committed. */
  lemma {:induction false} CancelsAreTriedAgain(steps: seq<Step>)
    requires IsRun(steps)
    ensures var s := Reached(steps);
      && Serves(s)
      && (forall id :: id in s.phases && s.phases[id] == AwaitingOutbox ==> HasRow(s.rows + s.emitted, id))
      && (forall id :: id in s.commands && s.commands[id].status == CommandPending ==>
            HasCall(s.calls, id) || HasRow(s.emitted, id) || Enabled(s, Dispatch(id)))
  {
    hide Serves, Inv, Enabled, Do, HasRow, HasCall, CommitBatch;
    CancelsAreExact(steps);
    if steps == [] {
      EmptyServes();
    } else {
      var before := steps[..|steps| - 1];
      CancelsAreTriedAgain(before);
      CancelsAreExact(before);
      StepServes(Reached(before), steps[|steps| - 1]);
    }
    ServesFacts(Reached(steps));
  }

  lemma EmptyServes()
    ensures Serves(EMPTY)
  {
  }

  lemma ServesFacts(s: State)
    requires Inv(s) && Serves(s)
    ensures forall id :: id in s.phases && s.phases[id] == AwaitingOutbox ==> HasRow(s.rows + s.emitted, id)
    ensures forall id :: id in s.commands && s.commands[id].status == CommandPending ==>
      HasCall(s.calls, id) || HasRow(s.emitted, id) || Enabled(s, Dispatch(id))
  {
    hide ClosedOnce, StillLive, ClosedByRow, PlacesKnown, CommandsKnown, ClosersKnown, HasCall, OneCall;
    forall id | HasRow(s.rows + s.emitted, id) ensures HasRow(s.rows, id) || HasRow(s.emitted, id) {
      var all := s.rows + s.emitted;
      var i :| 0 <= i < |all| && all[i].Cancelled? && all[i].command == id;
      assert i < |s.rows| ==> s.rows[i] == all[i];
      assert i >= |s.rows| ==> s.emitted[i - |s.rows|] == all[i];
    }
  }
}
