/** The way of an execution event from the engine shard that emits it, through the
    forwarder of that shard, the merged channel, the outbox writer's batches and the
    commit, to the settlement queue of its symbol. */
module EventFlow {
  /** `command` is the cancel command the event completes, or zero. */
  datatype FlowEvent = FlowEvent(symbol: string, id: nat, command: nat)

  /** `rows` are the committed outbox rows; `forwarding` the rows of the last commit that
      have not been handed on yet; `queues` everything each settlement queue was given. */
  datatype State = State(
    owner: map<string, nat>, emitted: seq<FlowEvent>,
    shards: seq<seq<FlowEvent>>, hands: seq<seq<FlowEvent>>, merged: seq<FlowEvent>,
    batch: seq<FlowEvent>, rows: seq<FlowEvent>, forwarding: seq<FlowEvent>,
    queues: seq<seq<FlowEvent>>)

  // --------------------------------------------------------------------- routing

  /** FNV-1a over the symbol's characters, with 32-bit wrap-around. */
  function Hash(symbol: string): bv32 {
    if symbol == "" then 2166136261
    else (Hash(symbol[..|symbol| - 1]) ^ ((symbol[|symbol| - 1] as int % 256) as bv32)) * 16777619
  }

  /** The settlement queue of a symbol. */
  function Route(symbol: string, workers: nat): (q: nat)
    ensures workers >= 1 ==> q < workers
  {
    if workers <= 1 then 0 else Hash(symbol) as int % workers
  }

  // ------------------------------------------------------------------------- steps

  datatype Step =
    | Assign(symbol: string, candidate: nat)
    | Emit(event: FlowEvent)
    | TakeFrom(shard: nat)
    | Push(shard: nat)
    | Collect
    | CommitBatch
    | Forward

  /** A forwarder takes one event at a time; the writer starts a new batch only when it has
      handed on the last one. A failed commit changes nothing and is tried again. */
  predicate Enabled(s: State, step: Step) {
    match step
    case Assign(_, candidate) => candidate < |s.shards|
    case Emit(e) => e.symbol in s.owner
    case TakeFrom(i) => i < |s.shards| && i < |s.hands| && s.hands[i] == [] && s.shards[i] != []
    case Push(i) => i < |s.hands| && s.hands[i] != []
    case Collect => s.merged != [] && s.forwarding == []
    case CommitBatch => s.batch != [] && s.forwarding == []
    case Forward => s.forwarding != []
  }

  /** The first shard stored for a symbol wins. */
  function LoadOrStore(owner: map<string, nat>, symbol: string, candidate: nat): map<string, nat> {
    if symbol in owner then owner else owner[symbol := candidate]
  }

  predicate Shaped(s: State) {
    && |s.queues| >= 1 && |s.hands| == |s.shards|
    && forall x :: x in s.owner ==> s.owner[x] < |s.shards|
  }

  function Do(s: State, step: Step): State
    requires Shaped(s) && Enabled(s, step)
  {
    match step
    case Assign(symbol, candidate) => s.(owner := LoadOrStore(s.owner, symbol, candidate))
    case Emit(e) =>
      var i := s.owner[e.symbol];
      s.(emitted := s.emitted + [e], shards := s.shards[i := s.shards[i] + [e]])
    case TakeFrom(i) => s.(shards := s.shards[i := s.shards[i][1..]], hands := s.hands[i := [s.shards[i][0]]])
    case Push(i) => s.(hands := s.hands[i := []], merged := s.merged + s.hands[i])
    case Collect => s.(merged := s.merged[1..], batch := s.batch + [s.merged[0]])
    case CommitBatch => s.(rows := s.rows + s.batch, forwarding := s.batch, batch := [])
    case Forward =>
      var e := s.forwarding[0];
      var q := Route(e.symbol, |s.queues|);
      s.(forwarding := s.forwarding[1..], queues := s.queues[q := s.queues[q] + [e]])
  }

  // ---------------------------------------------------------------------- invariants

  /** The events of one symbol, in order. */
  function Of(events: seq<FlowEvent>, symbol: string): seq<FlowEvent> {
    if events == [] then []
    else
      var last := events[|events| - 1];
      Of(events[..|events| - 1], symbol) + if last.symbol == symbol then [last] else []
  }

  lemma {:induction false} OfAppend(xs: seq<FlowEvent>, ys: seq<FlowEvent>, symbol: string)
    ensures Of(xs + ys, symbol) == Of(xs, symbol) + Of(ys, symbol)
  {
    if ys == [] {
      assert xs + ys == xs;
    } else {
      var n := |ys| - 1;
      assert (xs + ys)[..|xs + ys| - 1] == xs + ys[..n];
      OfAppend(xs, ys[..n], symbol);
    }
  }

  lemma OfOne(e: FlowEvent, symbol: string)
    ensures Of([e], symbol) == if e.symbol == symbol then [e] else []
  {
    assert [e][..0] == [];
  }

  lemma {:induction false} OfHead(xs: seq<FlowEvent>, symbol: string)
    requires xs != []
    ensures Of(xs, symbol) == Of([xs[0]], symbol) + Of(xs[1..], symbol)
  {
    assert xs == [xs[0]] + xs[1..];
    OfAppend([xs[0]], xs[1..], symbol);
  }

  /** The part of a symbol's line that its shard still holds. */
  function Local(s: State, symbol: string): seq<FlowEvent>
    requires Shaped(s)
  {
    if symbol in s.owner then Of(s.hands[s.owner[symbol]], symbol) + Of(s.shards[s.owner[symbol]], symbol) else []
  }

  /** A symbol's events along the whole way, those furthest along first. */
  function Line(s: State, symbol: string): seq<FlowEvent>
    requires Shaped(s)
  {
    Of(s.queues[Route(symbol, |s.queues|)], symbol) + Of(s.forwarding, symbol) + Of(s.batch, symbol) + Of(s.merged, symbol)
    + Local(s, symbol)
  }

  /** A symbol's events are in its own shard and its own queue only. */
  predicate Apart(s: State, symbol: string)
    requires Shaped(s)
  {
    && (forall i :: 0 <= i < |s.shards| && (symbol !in s.owner || i != s.owner[symbol]) ==>
          Of(s.hands[i], symbol) == [] && Of(s.shards[i], symbol) == [])
    && (forall q :: 0 <= q < |s.queues| && q != Route(symbol, |s.queues|) ==> Of(s.queues[q], symbol) == [])
  }

  predicate Inv(s: State, symbol: string)
    requires Shaped(s)
  {
    && Apart(s, symbol) && Line(s, symbol) == Of(s.emitted, symbol)
    && Of(s.rows, symbol) == Of(s.queues[Route(symbol, |s.queues|)], symbol) + Of(s.forwarding, symbol)
  }

  function Start(shards: nat, queues: nat): State
    requires shards >= 1 && queues >= 1
  {
    State(map["" := 0], [], seq(shards, i => []), seq(shards, i => []), [], [], [], [], seq(queues, i => []))
  }

  lemma {:induction false} StartIsFine(shards: nat, queues: nat, symbol: string)
    requires shards >= 1 && queues >= 1
    ensures Shaped(Start(shards, queues)) && Inv(Start(shards, queues), symbol)
  {
  }

  lemma {:induction false} EmitKeeps(s: State, symbol: string, e: FlowEvent)
    requires Shaped(s) && Inv(s, symbol) && e.symbol in s.owner
    ensures Shaped(Do(s, Emit(e))) && Inv(Do(s, Emit(e)), symbol)
  {
    hide Route, Of;
    var i := s.owner[e.symbol];
    OfAppend(s.shards[i], [e], symbol);
    OfAppend(s.emitted, [e], symbol);
    OfOne(e, symbol);
    EmptyOf(symbol);
  }

  lemma EmptyOf(symbol: string)
    ensures Of([], symbol) == []
  {
  }

  lemma {:induction false} TakeKeeps(s: State, symbol: string, i: nat)
    requires Shaped(s) && Inv(s, symbol) && Enabled(s, TakeFrom(i))
    ensures Shaped(Do(s, TakeFrom(i))) && Inv(Do(s, TakeFrom(i)), symbol)
  {
    hide Route, Of;
    OfHead(s.shards[i], symbol);
    EmptyOf(symbol);
  }

  lemma PushLine(s: State, symbol: string, i: nat)
    requires Shaped(s) && Apart(s, symbol) && Enabled(s, Push(i))
    ensures Shaped(Do(s, Push(i))) && Line(Do(s, Push(i)), symbol) == Line(s, symbol)
  {
    hide Route, Of;
    var t := Do(s, Push(i));
    var ahead := Of(s.queues[Route(symbol, |s.queues|)], symbol) + Of(s.forwarding, symbol) + Of(s.batch, symbol);
    OfAppend(s.merged, s.hands[i], symbol);
    EmptyOf(symbol);
    assert Of(t.merged, symbol) + Local(t, symbol) == Of(s.merged, symbol) + Local(s, symbol);
    assert ahead + Of(t.merged, symbol) + Local(t, symbol) == ahead + (Of(t.merged, symbol) + Local(t, symbol));
    assert ahead + Of(s.merged, symbol) + Local(s, symbol) == ahead + (Of(s.merged, symbol) + Local(s, symbol));
  }

  lemma {:induction false} PushKeeps(s: State, symbol: string, i: nat)
    requires Shaped(s) && Inv(s, symbol) && Enabled(s, Push(i))
    ensures Shaped(Do(s, Push(i))) && Inv(Do(s, Push(i)), symbol)
  {
    hide Route, Of, Line;
    PushLine(s, symbol, i);
    EmptyOf(symbol);
  }

  lemma {:induction false} WriterKeeps(s: State, symbol: string, step: Step)
    requires Shaped(s) && Inv(s, symbol) && Enabled(s, step) && (step.Collect? || step.CommitBatch?)
    ensures Shaped(Do(s, step)) && Inv(Do(s, step), symbol)
  {
    hide Route, Of;
    EmptyOf(symbol);
    if step.Collect? {
      OfHead(s.merged, symbol);
      OfAppend(s.batch, [s.merged[0]], symbol);
    } else {
      OfAppend(s.rows, s.batch, symbol);
    }
  }

  lemma ForwardQueues(s: State, symbol: string, q: nat)
    requires Shaped(s) && Enabled(s, Forward) && q < |s.queues|
    ensures var e := s.forwarding[0];
      Of(Do(s, Forward).queues[q], symbol) ==
      if q == Route(e.symbol, |s.queues|) && e.symbol == symbol then Of(s.queues[q], symbol) + [e] else Of(s.queues[q], symbol)
  {
    hide Of, Route;
    var e := s.forwarding[0];
    OfAppend(s.queues[q], [e], symbol);
    OfOne(e, symbol);
    assert Of(s.queues[q], symbol) + [] == Of(s.queues[q], symbol);
  }

  lemma ForwardLine(s: State, symbol: string)
    requires Shaped(s) && Enabled(s, Forward)
    ensures Shaped(Do(s, Forward)) && Line(Do(s, Forward), symbol) == Line(s, symbol)
    ensures var t, q := Do(s, Forward), Route(symbol, |s.queues|);
      Of(t.queues[q], symbol) + Of(t.forwarding, symbol) == Of(s.queues[q], symbol) + Of(s.forwarding, symbol)
  {
    hide Of, Route;
    var e, t := s.forwarding[0], Do(s, Forward);
    var q := Route(symbol, |s.queues|);
    ForwardQueues(s, symbol, q);
    OfHead(s.forwarding, symbol);
    OfOne(e, symbol);
    assert Of(t.queues[q], symbol) + Of(t.forwarding, symbol) == Of(s.queues[q], symbol) + Of(s.forwarding, symbol);
    assert Local(t, symbol) == Local(s, symbol);
  }

  lemma {:induction false} ForwardKeeps(s: State, symbol: string)
    requires Shaped(s) && Inv(s, symbol) && Enabled(s, Forward)
    ensures Shaped(Do(s, Forward)) && Inv(Do(s, Forward), symbol)
  {
    hide Of, Route, Line;
    ForwardLine(s, symbol);
    forall q: nat | q < |s.queues|
      ensures var e := s.forwarding[0];
        Of(Do(s, Forward).queues[q], symbol) ==
        if q == Route(e.symbol, |s.queues|) && e.symbol == symbol then Of(s.queues[q], symbol) + [e] else Of(s.queues[q], symbol)
    {
      ForwardQueues(s, symbol, q);
    }
  }

  lemma {:induction false} AssignKeeps(s: State, symbol: string, x: string, candidate: nat)
    requires Shaped(s) && Inv(s, symbol) && candidate < |s.shards|
    ensures Shaped(Do(s, Assign(x, candidate))) && Inv(Do(s, Assign(x, candidate)), symbol)
  {
    hide Route, Of;
  }

  lemma {:induction false} StepKeepsInv(s: State, symbol: string, step: Step)
    requires Shaped(s) && Inv(s, symbol) && Enabled(s, step)
    ensures Shaped(Do(s, step)) && Inv(Do(s, step), symbol)
  {
    hide Inv, Do;
    match step
    case Assign(x, candidate) => AssignKeeps(s, symbol, x, candidate);
    case Emit(e) => EmitKeeps(s, symbol, e);
    case TakeFrom(i) => TakeKeeps(s, symbol, i);
    case Push(i) => PushKeeps(s, symbol, i);
    case Forward => ForwardKeeps(s, symbol);
    case _ => WriterKeeps(s, symbol, step);
  }

  // -------------------------------------------------------------------------- runs

  /** The states of a run, the first being the start. */
  ghost predicate IsRun(states: seq<State>, steps: seq<Step>) {
    && |states| == |steps| + 1
    && (forall i :: 0 <= i < |states| ==> Shaped(states[i]))
    && forall i :: 0 <= i < |steps| ==> Enabled(states[i], steps[i]) && states[i + 1] == Do(states[i], steps[i])
  }

  /** For any interleaving of shards, forwarders, batches and commits: a symbol's events
      arrive in its one settlement queue in the order they were emitted, each once,
      nowhere else, and only after their rows were committed. */
  lemma {:induction false} SymbolsArriveInOrder(states: seq<State>, steps: seq<Step>, n: nat, shards: nat, queues: nat, symbol: string)
    requires shards >= 1 && queues >= 1 && IsRun(states, steps) && states[0] == Start(shards, queues) && n < |states|
    ensures var s := states[n];
      && Inv(s, symbol)
      && Of(s.queues[Route(symbol, |s.queues|)], symbol) <= Of(s.rows, symbol) <= Of(s.emitted, symbol)
      && forall q :: 0 <= q < |s.queues| && q != Route(symbol, |s.queues|) ==> Of(s.queues[q], symbol) == []
  {
    if n == 0 {
      StartIsFine(shards, queues, symbol);
    } else {
      SymbolsArriveInOrder(states, steps, n - 1, shards, queues, symbol);
      StepKeepsInv(states[n - 1], symbol, steps[n - 1]);
      assert states[n - 1 + 1] == Do(states[n - 1], steps[n - 1]);
    }
    Prefixes(states[n], symbol);
  }

  lemma Prefixes(s: State, symbol: string)
    requires Shaped(s) && Inv(s, symbol)
    ensures Of(s.queues[Route(symbol, |s.queues|)], symbol) <= Of(s.rows, symbol) <= Of(s.emitted, symbol)
  {
    hide Of, Route;
  }
}
