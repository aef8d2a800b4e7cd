/** The router that pins symbols to shards, and the outbox writer: nothing is handed on
    that is not committed. */
module EventFlowServices {
  import opened EventFlow
  import C = CancelServices
  import P = CancelProtocol

  class ShardedEngine {
    const shardCount: nat
    var assignments: map<string, nat>
    var nextShard: nat

    predicate Valid()
      reads this
    {
      && shardCount >= 1 && "" in assignments && assignments[""] == 0
      && forall x :: x in assignments ==> assignments[x] < shardCount
    }

    /** At least one shard; the empty symbol belongs to the first and takes no turn. */
    constructor (shardCount: int)
      ensures Valid() && this.shardCount == (if shardCount < 1 then 1 else shardCount)
      ensures assignments == map["" := 0] && nextShard == 0
    {
      this.shardCount := if shardCount < 1 then 1 else shardCount;
      assignments, nextShard := map["" := 0], 0;
    }

    /** The shard of a symbol: the one it has, or for a new symbol the next in turn. Once
        given it never changes, and no other symbol is touched. */
    method ShardFor(symbol: string) returns (shard: nat)
      requires Valid()
      modifies this
      ensures Valid() && symbol in assignments && shard == assignments[symbol]
      ensures assignments == LoadOrStore(old(assignments), symbol, old(nextShard) % shardCount)
      ensures nextShard == old(nextShard) + if symbol in old(assignments) then 0 else 1
    {
      if symbol in assignments {
        return assignments[symbol];
      }
      var candidate := nextShard % shardCount;
      nextShard := nextShard + 1;
      assignments := LoadOrStore(assignments, symbol, candidate);
      return assignments[symbol];
    }
  }

  /** The queues after a row of events has been handed on, one by one. */
  function Deliver(queues: seq<seq<FlowEvent>>, events: seq<FlowEvent>): (after: seq<seq<FlowEvent>>)
    requires |queues| >= 1
    ensures |after| == |queues|
    decreases |events|
  {
    if events == [] then queues
    else
      var q := Route(events[0].symbol, |queues|);
      Deliver(queues[q := queues[q] + [events[0]]], events[1..])
  }

  /** The state after everything committed has been handed on. */
  function Drained(s: State): State
    requires Shaped(s)
    decreases |s.forwarding|
  {
    if s.forwarding == [] then s else Drained(Do(s, Forward))
  }

  lemma {:induction false} DrainingDelivers(s: State)
    requires Shaped(s)
    ensures Drained(s) == s.(forwarding := [], queues := Deliver(s.queues, s.forwarding))
    decreases |s.forwarding|
  {
    if s.forwarding != [] {
      DrainingDelivers(Do(s, Forward));
    }
  }

  /** Each symbol's events are added to its queue in their order. */
  lemma {:induction false} DeliverKeepsOrder(queues: seq<seq<FlowEvent>>, events: seq<FlowEvent>, symbol: string, q: nat)
    requires q < |queues|
    ensures Of(Deliver(queues, events)[q], symbol) ==
      Of(queues[q], symbol) + if q == Route(symbol, |queues|) then Of(events, symbol) else []
    decreases |events|
  {
    if events == [] {
      assert Of(queues[q], symbol) + [] == Of(queues[q], symbol);
    } else {
      var e := events[0];
      var r := Route(e.symbol, |queues|);
      var next := queues[r := queues[r] + [e]];
      DeliverKeepsOrder(next, events[1..], symbol, q);
      OfHead(events, symbol);
      OfAppend(queues[r], [e], symbol);
      OfOne(e, symbol);
    }
  }

  /** The commands a row of events completes, in order. */
  method CommandsOf(batch: seq<FlowEvent>) returns (ids: seq<nat>)
    ensures forall id :: id in ids <==> id in Completed(batch)
  {
    ids := [];
    for i := 0 to |batch|
      invariant forall id :: id in ids <==> id in Completed(batch[..i])
    {
      assert batch[..i + 1] == batch[..i] + [batch[i]];
      if batch[i].command != 0 {
        ids := ids + [batch[i].command];
      }
    }
    assert batch[..|batch|] == batch;
  }

  function Completed(batch: seq<FlowEvent>): set<nat> {
    set e | e in batch && e.command != 0 :: e.command
  }

  /** The command table once the commands of a batch are completed. */
  function Marked(commands: map<nat, P.Command>, ids: set<nat>): map<nat, P.Command> {
    map id | id in commands :: if id in ids then commands[id].(status := P.CommandProcessed) else commands[id]
  }

  class OutboxWriter {
    const batchSize: nat
    var source: seq<FlowEvent>
    var rows: seq<FlowEvent>
    var commands: map<nat, P.Command>
    var queues: seq<seq<FlowEvent>>

    constructor (batchSize: nat, commands: map<nat, P.Command>, queues: nat)
      requires queues >= 1
      ensures source == [] && rows == [] && this.commands == commands
      ensures this.queues == seq(queues, i => []) && this.batchSize == batchSize
    {
      this.batchSize, this.commands := batchSize, commands;
      source, rows, this.queues := [], [], seq(queues, i => []);
    }

    /** Fills up a batch from the source until it is full, the timer fires or nothing more
        has come. */
    method CollectBatch(first: FlowEvent) returns (batch: seq<FlowEvent>)
      modifies `source
      ensures batch + source == [first] + old(source) && 1 <= |batch| && (|batch| <= batchSize || batch == [first])
    {
      batch := [first];
      assert batch + source == [first] + old(source);
      while |batch| < batchSize && source != []
        invariant batch + source == [first] + old(source) && 1 <= |batch| && (|batch| <= batchSize || batch == [first])
        decreases |source|
      {
        if * {
          return;
        }
        assert batch + source == batch + [source[0]] + source[1..];
        batch, source := batch + [source[0]], source[1..];
      }
    }

    /** One attempt to insert a batch and complete its commands in one transaction. It
        fails when a command is not pending, and may fail for reasons of the database's
        own; then nothing is changed. */
    method TryCommit(batch: seq<FlowEvent>, ids: seq<nat>) returns (ok: bool)
      requires forall id :: id in ids <==> id in Completed(batch)
      modifies `rows, `commands
      ensures ok ==>
        && (forall id :: id in Completed(batch) ==> C.IsPending(old(commands), id))
        && rows == old(rows) + batch && commands == Marked(old(commands), Completed(batch))
      ensures !ok ==> rows == old(rows) && commands == old(commands)
    {
      var distinct := C.DedupeNonzero(ids);
      var marked, affected := C.MarkPending(commands, distinct);
      if affected != |distinct| {
        return false;
      }
      if * {
        return false;
      }
      assert forall id :: id in distinct <==> id in Completed(batch);
      rows, commands := rows + batch, marked;
      return true;
    }

    /** Commits a batch, trying again as often as it may, and hands its events on only then:
        after any number of failed attempts the events are committed once, their commands
        with them, and handed on in order, or nothing at all has happened yet. */
    method FlushAndForward(batch: seq<FlowEvent>, attempts: nat) returns (ok: bool)
      requires |queues| >= 1
      modifies `rows, `commands, `queues
      ensures |queues| == |old(queues)|
      ensures ok ==>
        && (forall id :: id in Completed(batch) ==> C.IsPending(old(commands), id))
        && rows == old(rows) + batch && commands == Marked(old(commands), Completed(batch))
        && queues == Deliver(old(queues), batch)
      ensures !ok ==> rows == old(rows) && commands == old(commands) && queues == old(queues)
    {
      if batch == [] {
        assert rows + batch == rows && Marked(commands, Completed(batch)) == commands;
        return true;
      }
      var ids := CommandsOf(batch);
      var attempt := 0;
      ok := false;
      while !ok && attempt < attempts
        invariant queues == old(queues) && (!ok ==> rows == old(rows) && commands == old(commands))
        invariant ok ==>
          && (forall id :: id in Completed(batch) ==> C.IsPending(old(commands), id))
          && rows == old(rows) + batch && commands == Marked(old(commands), Completed(batch))
        decreases attempts - attempt, !ok
      {
        ok := TryCommit(batch, ids);
        attempt := attempt + 1;
      }
      if !ok {
        return;
      }
      for i := 0 to |batch|
        invariant |queues| == |old(queues)| && Deliver(queues, batch[i..]) == Deliver(old(queues), batch)
        modifies `queues
      {
        assert batch[i..][0] == batch[i] && batch[i..][1..] == batch[i + 1..];
        var q := Route(batch[i].symbol, |queues|);
        queues := queues[q := queues[q] + [batch[i]]];
      }
    }

    /** One round of the writer, for an event just received: the batch is the next part of
        the source, and once it is committed each symbol's events are at the end of its
        queue in their order. Until then no queue has changed. */
    method Round(first: FlowEvent, attempts: nat) returns (batch: seq<FlowEvent>, ok: bool)
      requires |queues| >= 1
      modifies this
      ensures batch + source == [first] + old(source) && batch != [] && |queues| == |old(queues)|
      ensures !ok ==> rows == old(rows) && commands == old(commands) && queues == old(queues)
      ensures ok ==> rows == old(rows) + batch && commands == Marked(old(commands), Completed(batch))
      ensures ok ==> forall symbol: string, q :: 0 <= q < |queues| ==>
        Of(queues[q], symbol) == Of(old(queues)[q], symbol) + if q == Route(symbol, |queues|) then Of(batch, symbol) else []
    {
      batch := CollectBatch(first);
      ok := FlushAndForward(batch, attempts);
      if ok {
        forall symbol: string, q | 0 <= q < |queues|
          ensures Of(queues[q], symbol) == Of(old(queues)[q], symbol) + if q == Route(symbol, |queues|) then Of(batch, symbol) else []
        {
          DeliverKeepsOrder(old(queues), batch, symbol, q);
        }
      }
    }
  }
}
