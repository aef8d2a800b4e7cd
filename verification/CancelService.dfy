/** The database side of the cancel protocol, the worker that drives it, and the writer
    that commits the engine's events before anyone may act on them. */
module CancelServices {
  import opened Prelude
  import opened CancelProtocol

  predicate IsPending(commands: map<nat, Command>, id: nat) {
    id in commands && commands[id].status == CommandPending
  }

  // -------------------------------------------------------------------- repositories

  /** The values without zeros and repetitions, in the order they first appear. */
  method DedupeNonzero(values: seq<nat>) returns (deduped: seq<nat>)
    ensures forall i, j :: 0 <= i < j < |deduped| ==> deduped[i] != deduped[j]
    ensures forall x :: x in deduped <==> x in values && x != 0
  {
    deduped := [];
    var seen: set<nat> := {};
    for i := 0 to |values|
      invariant forall k, l :: 0 <= k < l < |deduped| ==> deduped[k] != deduped[l]
      invariant forall x :: x in deduped <==> x in seen
      invariant forall x :: x in seen <==> x in values[..i] && x != 0
    {
      if values[i] != 0 && values[i] !in seen {
        seen, deduped := seen + {values[i]}, deduped + [values[i]];
      }
    }
    assert values[..|values|] == values;
  }

  /** How many of the ids are pending, and the table with those marked. */
  method MarkPending(commands: map<nat, Command>, ids: seq<nat>) returns (marked: map<nat, Command>, affected: nat)
    requires forall i, j :: 0 <= i < j < |ids| ==> ids[i] != ids[j]
    ensures affected <= |ids| && (affected == |ids| <==> forall i :: 0 <= i < |ids| ==> IsPending(commands, ids[i]))
    ensures marked == map id | id in commands ::
      if id in ids && commands[id].status == CommandPending then commands[id].(status := CommandProcessed) else commands[id]
  {
    marked, affected := commands, 0;
    for i := 0 to |ids|
      invariant affected <= i && (affected == i <==> forall k :: 0 <= k < i ==> IsPending(commands, ids[k]))
      invariant marked == map id | id in commands ::
        if id in ids[..i] && commands[id].status == CommandPending then commands[id].(status := CommandProcessed) else commands[id]
    {
      assert ids[i] !in ids[..i];
      assert ids[..i + 1] == ids[..i] + [ids[i]];
      if ids[i] in marked && marked[ids[i]].status == CommandPending {
        marked := marked[ids[i] := marked[ids[i]].(status := CommandProcessed)];
        affected := affected + 1;
      }
    }
    assert ids[..|ids|] == ids;
  }

  class CancelStore {
    var commands: map<nat, Command>
    var rows: seq<Closer>

    constructor ()
      ensures commands == map[] && rows == []
    {
      commands, rows := map[], [];
    }

    /** The one command of an order: a new one, or the one that is there. */
    method CreateOrGet(id: nat, order: nat) returns (command: nat, created: bool)
      requires id !in commands
      modifies `commands
      ensures created <==> forall c :: c in old(commands) ==> old(commands)[c].order != order
      ensures command in commands && commands[command].order == order
      ensures commands == if created then old(commands)[id := Command(order, CommandPending)] else old(commands)
    {
      if c :| c in commands && commands[c].order == order {
        return c, false;
      }
      commands := commands[id := Command(order, CommandPending)];
      return id, true;
    }

    /** The engine refused the cancel for good: a pending command ends as a no-op, and one
        that has ended already, or any other, stays as it is. */
    method MarkNoopRow(id: nat)
      modifies `commands
      ensures commands == MarkNoop(old(commands), id)
      ensures commands.Keys == old(commands).Keys && !IsPending(commands, id)
      ensures forall c :: c in commands && (c != id || !IsPending(old(commands), id)) ==> commands[c] == old(commands)[c]
    {
      if id in commands && commands[id].status == CommandPending {
        commands := commands[id := commands[id].(status := CommandNoop)];
      }
    }

    /** Inserts a batch and completes its commands in one transaction; a command that is
        missing or no longer pending rolls everything back, and no command is completed
        without a row. */
    method InsertBatchAndMarkCancelCommands(events: seq<Closer>, commandIDs: seq<nat>) returns (ok: bool)
      modifies `commands, `rows
      ensures ok <==> (forall id :: id in commandIDs && id != 0 ==> events != [] && IsPending(old(commands), id))
      ensures ok && events != [] ==>
        && rows == old(rows) + events
        && commands == map id | id in old(commands) ::
             if id in commandIDs && id != 0 then old(commands)[id].(status := CommandProcessed) else old(commands)[id]
      ensures !ok || events == [] ==> commands == old(commands) && rows == old(rows)
    {
      var ids := DedupeNonzero(commandIDs);
      if events == [] {
        assert ids == [] <==> forall id :: id in commandIDs ==> id == 0 by {
          assert ids != [] ==> ids[0] in commandIDs;
        }
        return ids == [];
      }
      var marked, affected := MarkPending(commands, ids);
      if affected != |ids| {
        ghost var i :| 0 <= i < |ids| && !IsPending(commands, ids[i]);
        assert ids[i] in ids;
        return false;
      }
      assert forall id :: id in ids ==> IsPending(commands, id);
      commands, rows := marked, rows + events;
      return true;
    }
  }

  /** Marking the commands of a batch of events is the protocol's commit. */
  lemma MarkingIsCommit(commands: map<nat, Command>, rows: seq<Closer>, batch: seq<Closer>, ids: seq<nat>)
    requires forall id :: id in ids && id != 0 <==> id in Completes(batch)
    ensures CommitBatch(commands, rows, batch).Ok? <==> forall id :: id in ids && id != 0 ==> IsPending(commands, id)
    ensures CommitBatch(commands, rows, batch).Ok? ==>
      CommitBatch(commands, rows, batch).value ==
      (map id | id in commands :: if id in ids && id != 0 then commands[id].(status := CommandProcessed) else commands[id], rows + batch)
  {
    if CommitBatch(commands, rows, batch).Ok? {
      var done := CommitBatch(commands, rows, batch).value.0;
      assert done == map id | id in commands :: if id in ids && id != 0 then commands[id].(status := CommandProcessed) else commands[id];
    }
  }

  /** The first pending commands in id order that are not excluded, at most `limit`: the
      exclusion comes before the limit, so commands in hand cannot starve later ones. */
  method FindPending(table: seq<Command>, excluded: set<nat>, limit: nat) returns (found: seq<nat>)
    ensures |found| <= limit && forall i, j :: 0 <= i < j < |found| ==> found[i] < found[j]
    ensures forall id :: id in found ==> 1 <= id <= |table| && table[id - 1].status == CommandPending && id !in excluded
    ensures forall id :: 1 <= id <= |table| && table[id - 1].status == CommandPending && id !in excluded && id !in found ==>
              |found| == limit && forall x :: x in found ==> x < id
  {
    found := [];
    for i := 0 to |table|
      invariant |found| <= limit && forall k, l :: 0 <= k < l < |found| ==> found[k] < found[l]
      invariant forall id :: id in found ==> 1 <= id <= i && table[id - 1].status == CommandPending && id !in excluded
      invariant forall id :: 1 <= id <= i && table[id - 1].status == CommandPending && id !in excluded && id !in found ==>
                  |found| == limit && forall x :: x in found ==> x < id
    {
      assert forall k :: 0 <= k < |found| ==> found[k] in found;
      if table[i].status == CommandPending && i + 1 !in excluded && |found| < limit {
        found := found + [i + 1];
      }
    }
  }

  // -------------------------------------------------------------------------- worker

  datatype Entry = Entry(phase: Phase, nextAttemptAt: int, backoff: nat)

  function NextBackoff(current: nat, initial: nat, most: nat): nat {
    if current == 0 then initial
    else if current * 2 > most then most else current * 2
  }

  /** After `n` failures in a row the wait is the initial one doubled each time, cut off at
      the most. */
  lemma {:induction false} BackoffDoubles(n: nat, initial: nat, most: nat)
    requires 0 < initial <= most
    ensures initial <= Waits(n, initial, most) <= most
    ensures Waits(n + 1, initial, most) == if 2 * Waits(n, initial, most) > most then most else 2 * Waits(n, initial, most)
  {
    if n > 0 {
      BackoffDoubles(n - 1, initial, most);
    }
  }

  function Waits(n: nat, initial: nat, most: nat): nat {
    NextBackoff(if n == 0 then 0 else Waits(n - 1, initial, most), initial, most)
  }

  class CancelCommandWorker {
    const store: CancelStore
    const initialBackoff: nat
    const maxBackoff: nat
    const maxDispatch: nat
    var inFlight: map<nat, Entry>

    constructor (store: CancelStore, initialBackoff: nat, maxBackoff: nat, maxDispatch: nat)
      ensures this.store == store && inFlight == map[] && this.maxDispatch == maxDispatch
    {
      this.store, this.initialBackoff, this.maxBackoff, this.maxDispatch := store, initialBackoff, maxBackoff, maxDispatch;
      inFlight := map[];
    }

    function Phases(): map<nat, Phase>
      reads this
    {
      map id | id in inFlight :: inFlight[id].phase
    }

    /** A command is tried again after twice the wait it had, the initial one at first and
        the longest at most. */
    predicate RetriesLater(was: Entry, entry: Entry, now: int) {
      && entry.phase == Backoff && entry.nextAttemptAt == now + entry.backoff
      && (was.backoff == 0 ==> entry.backoff == initialBackoff)
      && (was.backoff > 0 && 2 * was.backoff <= maxBackoff ==> entry.backoff == 2 * was.backoff)
      && (was.backoff > 0 && 2 * was.backoff > maxBackoff ==> entry.backoff == maxBackoff)
    }

    method ScheduleRetry(id: nat, now: int)
      requires id in inFlight
      modifies `inFlight
      ensures Phases() == old(Phases())[id := Backoff]
      ensures id in inFlight && inFlight == old(inFlight)[id := inFlight[id]] && RetriesLater(old(inFlight)[id], inFlight[id], now)
    {
      var backoff := NextBackoff(inFlight[id].backoff, initialBackoff, maxBackoff);
      inFlight := inFlight[id := Entry(Backoff, now + backoff, backoff)];
    }

    /** Applies the result of a call. `orderOpen` is what reading the order gave, nothing
        when the database failed; `noopFails` says that marking failed. After success the
        command is held back until the outbox has committed it; after a failed call, or an
        unknown order that the database has not closed, it is tried again later; it leaves
        as a no-op only if the engine does not know the order and the database has closed
        it. */
    method ApplyResult(id: nat, reply: Reply, orderOpen: Option<bool>, noopFails: bool, now: int)
      modifies `inFlight, store`commands
      ensures (Phases(), store.commands) ==
        Heard(old(Phases()), old(store.commands), id, reply, orderOpen == Some(false) && !noopFails)
      ensures id !in old(inFlight) ==> inFlight == old(inFlight) && store.commands == old(store.commands)
      ensures id in old(inFlight) ==>
        var gone := reply == OrderUnknown && orderOpen == Some(false) && !noopFails;
        && (id in inFlight <==> !gone)
        && (forall c :: c != id ==> (c in inFlight <==> c in old(inFlight)) && (c in inFlight ==> inFlight[c] == old(inFlight)[c]))
        && (!gone ==> store.commands == old(store.commands))
        && (gone ==>
              && !IsPending(store.commands, id) && store.commands.Keys == old(store.commands).Keys
              && (IsPending(old(store.commands), id) ==> store.commands[id].status == CommandNoop)
              && forall c :: c in store.commands && (c != id || !IsPending(old(store.commands), id)) ==>
                   store.commands[c] == old(store.commands)[c])
      ensures id in old(inFlight) && reply == CancelDone ==>
        inFlight[id].phase == AwaitingOutbox && forall t :: id in BlockedIDs(t)
      ensures id in old(inFlight) && (reply == CallFailed || (reply == OrderUnknown && (orderOpen != Some(false) || noopFails))) ==>
        RetriesLater(old(inFlight)[id], inFlight[id], now) && forall t :: id in BlockedIDs(t) <==> t < inFlight[id].nextAttemptAt
    {
      if id !in inFlight {
        return;
      }
      match reply
      case CancelDone =>
        inFlight := inFlight[id := inFlight[id].(phase := AwaitingOutbox)];
        assert Phases() == old(Phases())[id := AwaitingOutbox];
      case CallFailed => ScheduleRetry(id, now);
      case OrderUnknown =>
        if orderOpen != Some(false) || noopFails {
          ScheduleRetry(id, now);
        } else {
          store.MarkNoopRow(id);
          inFlight := inFlight - {id};
          assert Phases() == old(Phases()) - {id};
        }
    }

    /** Lets go of commands that waited for the outbox and are no longer pending. */
    method ReleaseCompleted()
      modifies `inFlight
      ensures inFlight == map id | id in old(inFlight) &&
        !(old(inFlight)[id].phase == AwaitingOutbox && id in store.commands && store.commands[id].status != CommandPending)
        :: old(inFlight)[id]
    {
      var left := inFlight.Keys;
      while left != {}
        invariant left <= old(inFlight).Keys
        invariant inFlight == map id | id in old(inFlight) &&
          (id in left || !(old(inFlight)[id].phase == AwaitingOutbox && id in store.commands && store.commands[id].status != CommandPending))
          :: old(inFlight)[id]
        decreases left
      {
        var id :| id in left;
        left := left - {id};
        if inFlight[id].phase == AwaitingOutbox && id in store.commands && store.commands[id].status != CommandPending {
          inFlight := inFlight - {id};
        }
      }
    }

    /** The commands that must not be dispatched now. */
    function BlockedIDs(now: int): set<nat>
      reads this
    {
      set id | id in inFlight && !(inFlight[id].phase == Backoff && now >= inFlight[id].nextAttemptAt)
    }

    /** Starts calls for the given scan, as far as there are free slots. Every command it
        starts was pending and had no call out. */
    method DispatchReady(pending: seq<nat>, dispatching: nat, now: int) returns (started: seq<nat>)
      requires forall i, j :: 0 <= i < j < |pending| ==> pending[i] != pending[j]
      requires forall id :: id in pending ==> id !in BlockedIDs(now)
      modifies `inFlight
      ensures started <= pending && (|started| + dispatching <= maxDispatch || started == [])
      ensures |started| < |pending| ==> |started| + dispatching >= maxDispatch
      ensures forall id :: id in started ==> id !in old(inFlight) || old(inFlight)[id].phase == Backoff
      ensures forall id :: id in inFlight <==> id in old(inFlight) || id in started
      ensures forall id :: id in inFlight ==>
        if id in started then inFlight[id].phase == Dispatching else inFlight[id] == old(inFlight)[id]
    {
      started := [];
      while |started| < |pending| && |started| + dispatching < maxDispatch
        invariant |started| <= |pending| && started == pending[..|started|]
        invariant |started| + dispatching <= maxDispatch || started == []
        invariant forall id :: id in started ==> id !in old(inFlight) || old(inFlight)[id].phase == Backoff
        invariant forall id :: id in inFlight <==> id in old(inFlight) || id in started
        invariant forall id :: id in inFlight ==>
          if id in started then inFlight[id].phase == Dispatching else inFlight[id] == old(inFlight)[id]
        decreases |pending| - |started|
      {
        var id := pending[|started|];
        assert id in pending && id !in started;
        assert pending[..|started| + 1] == started + [id];
        var entry := if id in inFlight then inFlight[id] else Entry(Dispatching, 0, 0);
        inFlight := inFlight[id := entry.(phase := Dispatching)];
        started := started + [id];
      }
    }
  }
}
