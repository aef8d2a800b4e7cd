/** Deposits and withdrawals: request rows, the facts learned from outside, and the
    journals they cause. Every database transaction is one step; callbacks, polls,
    dispatches and retries may come in any order and any number. */
module Transfers {
  import opened Prelude
  import opened Ledger

  datatype Direction = Deposits | Withdraws
  datatype Rail = Bank | Chain
  datatype TransferStatus = Received | Processing | Completed | Failed
  datatype Outcome = Success | Failure | StillPending | Unknown
  datatype ReviewReason =
    | ExternalUnknown | ExternalUnreachable | PendingTooLong
    | ConflictingTerminalOutcome | TerminalBeforeDispatch

  datatype Transfer = Transfer(
    user: nat, direction: Direction, rail: Rail, asset: string, amount: real, fee: real,
    status: TransferStatus, clientKey: string, ref: Option<string>,
    holdJournal: Option<nat>, resolution: Option<nat>,
    attempts: nat, checkDelay: Option<nat>, review: Option<ReviewReason>)

  datatype Fact = Fact(transfer: nat, outcome: Outcome)

  /** Rows by id minus one; facts by their unique event key. */
  datatype TransferBook = TransferBook(rows: seq<Transfer>, facts: map<string, Fact>, ledger: LedgerState)

  predicate IsTerminal(s: TransferStatus) {
    s == Completed || s == Failed
  }

  predicate IsFinal(o: Outcome) {
    o == Success || o == Failure
  }

  predicate HasRow(b: TransferBook, id: nat) {
    1 <= id <= |b.rows|
  }

  // ------------------------------------------------------------------- backoff

  const POLL_BASE: nat := 10
  const POLL_MAX: nat := 3600
  const REVIEW_AFTER: nat := 1800

  function Doubled(n: nat): nat {
    if n == 0 then POLL_BASE else 2 * Doubled(n - 1)
  }

  lemma {:induction false} DoubledGrows(m: nat, n: nat)
    requires m <= n
    ensures Doubled(m) <= Doubled(n)
  {
    if m < n {
      DoubledGrows(m, n - 1);
    }
  }

  /** Ten seconds, doubled per attempt, never more than an hour. */
  method BackoffInterval(attempts: int) returns (seconds: nat)
    ensures attempts <= 1 ==> seconds == POLL_BASE
    ensures attempts >= 1 ==> seconds == if Doubled(attempts - 1) < POLL_MAX then Doubled(attempts - 1) else POLL_MAX
  {
    if attempts <= 1 {
      return POLL_BASE;
    }
    seconds := POLL_BASE;
    for i := 1 to attempts
      invariant seconds == Doubled(i - 1) < POLL_MAX
    {
      seconds := seconds * 2;
      if seconds >= POLL_MAX {
        DoubledGrows(i, attempts - 1);
        return POLL_MAX;
      }
    }
  }

  function Backoff(attempts: nat): nat {
    if attempts <= 1 then POLL_BASE
    else if Doubled(attempts - 1) < POLL_MAX then Doubled(attempts - 1) else POLL_MAX
  }

  // ------------------------------------------------------------------ postings

  function Amount(p: AccountKind, user: nat, asset: string, amount: real): Posting {
    Posting(p, Some(user), asset, amount)
  }

  function Outside(rail: Rail): AccountKind {
    if rail == Chain then ExternalChain else ExternalBank
  }

  function HoldJournal(id: nat, t: Transfer): Journal {
    var locked := t.amount + t.fee;
    Journal(Withdrawal, WithdrawHoldKey(id), RefTransfer, id, None,
      [Amount(UserAvailable, t.user, t.asset, -locked), Amount(UserLocked, t.user, t.asset, locked)])
  }

  /** The journal that confirms a transfer; a failed deposit has none. */
  function ConfirmationJournal(id: nat, t: Transfer, o: Outcome): Option<Journal>
    requires t.ref.Some?
  {
    var locked := t.amount + t.fee;
    match (t.direction, o)
    case (Deposits, Success) =>
      Some(Journal(Deposit, DepositSettleKey(t.ref.value), RefTransfer, id, None,
        [Posting(Outside(t.rail), None, t.asset, -t.amount), Amount(UserAvailable, t.user, t.asset, t.amount)]))
    case (Withdraws, Success) =>
      Some(Journal(Withdrawal, WithdrawSettleKey(t.ref.value), RefTransfer, id, None,
        [Amount(UserLocked, t.user, t.asset, -locked), Posting(Outside(t.rail), None, t.asset, t.amount)]
        + (if t.fee > 0.0 then [Posting(FeeIncome, None, t.asset, t.fee)] else [])))
    case (Withdraws, Failure) =>
      Some(Journal(Withdrawal, WithdrawRefundKey(t.ref.value), RefTransfer, id, None,
        [Amount(UserLocked, t.user, t.asset, -locked), Amount(UserAvailable, t.user, t.asset, locked)]))
    case _ => None
  }

  // --------------------------------------------------------------------- steps

  datatype Request = Request(user: nat, direction: Direction, rail: Rail, asset: string, amount: real, clientKey: string)

  predicate ValidRequest(q: Request) {
    && q.user != 0 && q.asset != "" && q.clientKey != "" && q.amount > 0.0
    && (q.rail == Bank ==> q.asset == "KRW")
  }

  function FindRequest(rows: seq<Transfer>, user: nat, key: string): (r: Option<nat>)
    ensures r.Some? ==> r.value < |rows| && rows[r.value].user == user && rows[r.value].clientKey == key
    ensures r.None? ==> forall i :: 0 <= i < |rows| ==> !(rows[i].user == user && rows[i].clientKey == key)
  {
    if rows == [] then None
    else if rows[|rows| - 1].user == user && rows[|rows| - 1].clientKey == key then Some(|rows| - 1)
    else FindRequest(rows[..|rows| - 1], user, key)
  }

  predicate SameBody(t: Transfer, q: Request) {
    t.direction == q.direction && t.rail == q.rail && t.asset == q.asset && t.amount == q.amount
  }

  function NewRow(q: Request): Transfer {
    Transfer(q.user, q.direction, q.rail, q.asset, q.amount, 0.0, Received, q.clientKey, None, None, None, 0, None, None)
  }

  /** Accepts a request once per user and client key. A withdrawal locks its money in
      the same transaction. */
  function Submit(b: TransferBook, q: Request): Result<(TransferBook, nat)> {
    if !ValidRequest(q) then Err(Invalid)
    else
      match FindRequest(b.rows, q.user, q.clientKey)
      case Some(i) => if SameBody(b.rows[i], q) then Ok((b, i + 1)) else Err(Conflict)
      case None =>
        var id := |b.rows| + 1;
        if q.direction == Deposits then Ok((b.(rows := b.rows + [NewRow(q)]), id))
        else
          match Record(b.ledger, HoldJournal(id, NewRow(q)))
          case Err(e) => Err(e)
          case Ok(done) =>
            Ok((b.(rows := b.rows + [NewRow(q).(holdJournal := Some(done.id))], ledger := done.ledger), id))
  }

  predicate RefTaken(rows: seq<Transfer>, ref: string) {
    exists i :: 0 <= i < |rows| && rows[i].ref == Some(ref)
  }

  /** The outside took the request: RECEIVED becomes PROCESSING. */
  function SetDispatched(b: TransferBook, id: nat, ref: string): Result<TransferBook> {
    if !HasRow(b, id) || b.rows[id - 1].status != Received then Err(NotFound)
    else if RefTaken(b.rows, ref) then Err(Constraint)
    else Ok(b.(rows := b.rows[id - 1 := b.rows[id - 1].(
      status := Processing, ref := Some(ref), checkDelay := Some(POLL_BASE), attempts := 0)]))
  }

  function DispatchFailed(b: TransferBook, id: nat): Result<TransferBook> {
    if !HasRow(b, id) then Err(NotFound)
    else if b.rows[id - 1].status != Received then Ok(b)
    else
      var n := b.rows[id - 1].attempts + 1;
      Ok(b.(rows := b.rows[id - 1 := b.rows[id - 1].(attempts := n, checkDelay := Some(Backoff(n)))]))
  }

  function WithReview(b: TransferBook, id: nat, reason: ReviewReason): TransferBook
    requires HasRow(b, id)
  {
    b.(rows := b.rows[id - 1 := b.rows[id - 1].(review := Some(reason))])
  }

  function Confirm(b: TransferBook, id: nat, o: Outcome): Result<TransferBook>
    requires HasRow(b, id) && IsFinal(o)
  {
    var t := b.rows[id - 1];
    if t.ref.None? then Err(Invalid)
    else
      var status := if o == Success then Completed else Failed;
      match ConfirmationJournal(id, t, o)
      case None =>
        Ok(b.(rows := b.rows[id - 1 := t.(status := status, resolution := None, review := None, checkDelay := None)]))
      case Some(j) =>
        match Record(b.ledger, j)
        case Err(e) => Err(e)
        case Ok(done) =>
          Ok(b.(ledger := done.ledger,
                rows := b.rows[id - 1 := t.(status := status, resolution := Some(done.id), review := None, checkDelay := None)]))
  }

  /** A final outcome, by callback or by poll. */
  function Resolve(b: TransferBook, id: nat, eventKey: string, o: Outcome): Result<TransferBook> {
    if !IsFinal(o) || eventKey == "" then Err(Invalid)
    else if !HasRow(b, id) then Err(NotFound)
    else if eventKey in b.facts then Ok(b)
    else
      var b' := b.(facts := b.facts[eventKey := Fact(id, o)]);
      var status := b.rows[id - 1].status;
      match status
      case Received => Ok(WithReview(b', id, TerminalBeforeDispatch))
      case Processing => Confirm(b', id, o)
      case _ =>
        if (status == Completed) == (o == Success) then Ok(b')
        else Ok(WithReview(b', id, ConflictingTerminalOutcome))
  }

  function Postpone(b: TransferBook, id: nat, review: Option<ReviewReason>): TransferBook
    requires HasRow(b, id)
  {
    var t := b.rows[id - 1];
    var n := t.attempts + 1;
    b.(rows := b.rows[id - 1 := t.(
      attempts := n, checkDelay := Some(Backoff(n)), review := if review.Some? then review else t.review)])
  }

  /** An outcome that decides nothing: the row is looked at again later. */
  function Observe(b: TransferBook, id: nat, eventKey: string, o: Outcome, age: nat): Result<TransferBook> {
    if IsFinal(o) || eventKey == "" then Err(Invalid)
    else if !HasRow(b, id) then Err(NotFound)
    else if eventKey in b.facts then Ok(b)
    else
      var b' := b.(facts := b.facts[eventKey := Fact(id, o)]);
      match b.rows[id - 1].status
      case Received => Err(Invalid)
      case Processing =>
        Ok(Postpone(b', id,
          if o == Unknown then Some(ExternalUnknown)
          else if age >= REVIEW_AFTER then Some(PendingTooLong) else None))
      case _ => Ok(b')
  }

  function CheckFailed(b: TransferBook, id: nat, age: nat): Result<TransferBook> {
    if !HasRow(b, id) then Err(NotFound)
    else if b.rows[id - 1].status != Processing then Ok(b)
    else Ok(Postpone(b, id, if age >= REVIEW_AFTER then Some(ExternalUnreachable) else None))
  }

  datatype Event =
    | Submitted(request: Request)
    | Dispatched(id: nat, ref: string)
    | NotDispatched(id: nat)
    | Learned(id: nat, eventKey: string, outcome: Outcome)
    | Looked(id: nat, eventKey: string, outcome: Outcome, age: nat)
    | LookFailed(id: nat, age: nat)
    | Elsewhere(journal: Journal)

  predicate IsTransferKey(k: JournalKey) {
    k.WithdrawHoldKey? || k.DepositSettleKey? || k.WithdrawSettleKey? || k.WithdrawRefundKey?
  }

  /** One committed or rolled-back transaction. `Elsewhere` stands for any journal the
      rest of the exchange records; it never uses a transfer's reference or keys. */
  function Step(b: TransferBook, e: Event): TransferBook {
    match e
    case Submitted(q) => (match Submit(b, q) case Ok((b', _)) => b' case Err(_) => b)
    case Dispatched(id, ref) => OrSame(b, SetDispatched(b, id, ref))
    case NotDispatched(id) => OrSame(b, DispatchFailed(b, id))
    case Learned(id, k, o) => OrSame(b, Resolve(b, id, k, o))
    case Looked(id, k, o, age) => OrSame(b, Observe(b, id, k, o, age))
    case LookFailed(id, age) => OrSame(b, CheckFailed(b, id, age))
    case Elsewhere(j) =>
      if j.refKind == RefTransfer || IsTransferKey(j.key) then b
      else match Record(b.ledger, j) case Ok(done) => b.(ledger := done.ledger) case Err(_) => b
  }

  function OrSame(b: TransferBook, r: Result<TransferBook>): TransferBook {
    if r.Ok? then r.value else b
  }

  function Run(b: TransferBook, es: seq<Event>): TransferBook {
    if es == [] then b else Step(Run(b, es[..|es| - 1]), es[|es| - 1])
  }

  // ----------------------------------------------------------------- the claim

  function At(a: Account, kind: AccountKind, owner: nat, asset: string, amount: real): real {
    if a == Account(kind, owner, asset) then amount else 0.0
  }

  /** What a request has done to an account, as a function of its direction and
      status alone. */
  function Effect(t: Transfer, a: Account): real {
    var locked := t.amount + t.fee;
    match (t.direction, t.status)
    case (Deposits, Completed) =>
      At(a, Outside(t.rail), 0, t.asset, -t.amount) + At(a, UserAvailable, t.user, t.asset, t.amount)
    case (Deposits, _) => 0.0
    case (Withdraws, Completed) =>
      At(a, UserAvailable, t.user, t.asset, -locked) + At(a, Outside(t.rail), 0, t.asset, t.amount)
      + At(a, FeeIncome, 0, t.asset, t.fee)
    case (Withdraws, Failed) => 0.0
    case (Withdraws, _) =>
      At(a, UserAvailable, t.user, t.asset, -locked) + At(a, UserLocked, t.user, t.asset, locked)
  }

  /** The sum of the postings to an account of all journals that refer to a request. */
  ghost function PostedFor(js: seq<Journal>, id: nat, a: Account): real {
    if js == [] then 0.0
    else
      var j := js[|js| - 1];
      PostedFor(js[..|js| - 1], id, a)
      + (if j.refKind == RefTransfer && j.refId == id then Delta(j.postings, a) else 0.0)
  }

  function EffectOf(rows: seq<Transfer>, id: nat, a: Account): real {
    if 1 <= id <= |rows| then Effect(rows[id - 1], a) else 0.0
  }

  ghost predicate EffectsHold(b: TransferBook) {
    forall id: nat, a :: PostedFor(b.ledger.journals, id, a) == EffectOf(b.rows, id, a)
  }

  ghost predicate SettledRef(rows: seq<Transfer>, ref: string) {
    exists i :: 0 <= i < |rows| && rows[i].ref == Some(ref) && IsTerminal(rows[i].status)
  }

  /** Which transfer keys the ledger can hold. */
  ghost predicate KeysAccounted(b: TransferBook) {
    forall i :: 0 <= i < |b.ledger.journals| ==>
      match b.ledger.journals[i].key
      case WithdrawHoldKey(id) => HasRow(b, id)
      case DepositSettleKey(ref) => SettledRef(b.rows, ref)
      case WithdrawSettleKey(ref) => SettledRef(b.rows, ref)
      case WithdrawRefundKey(ref) => SettledRef(b.rows, ref)
      case _ => true
  }

  ghost predicate RowsConsistent(b: TransferBook) {
    && (forall i :: 0 <= i < |b.rows| ==> b.rows[i].amount > 0.0 && b.rows[i].fee >= 0.0 && b.rows[i].asset != "")
    && (forall i :: 0 <= i < |b.rows| ==> (b.rows[i].status == Received <==> b.rows[i].ref.None?))
    && (forall i, k :: 0 <= i < k < |b.rows| && b.rows[i].ref.Some? ==> b.rows[i].ref != b.rows[k].ref)
  }

  ghost predicate Inv(b: TransferBook) {
    RowsConsistent(b) && KeysAccounted(b) && EffectsHold(b)
  }

  /** What one step may do to a row that is already there. */
  ghost predicate RowMoves(t: Transfer, t': Transfer) {
    && t'.user == t.user && t'.direction == t.direction && t'.rail == t.rail && t'.asset == t.asset
    && t'.amount == t.amount && t'.fee == t.fee && t'.clientKey == t.clientKey && t'.holdJournal == t.holdJournal
    && (t.ref.Some? ==> t'.ref == t.ref)
    && (t.status == Received ==> !IsTerminal(t'.status))
    && (t.status == Processing ==> t'.status != Received)
    && (IsTerminal(t.status) ==> t'.status == t.status && t'.resolution == t.resolution)
  }

  // ---------------------------------------------------------------- preservation

  lemma HoldDelta(id: nat, t: Transfer, a: Account)
    requires t.direction == Withdraws && !IsTerminal(t.status)
    ensures Delta(HoldJournal(id, t).postings, a) == Effect(t, a)
  {
    var ps := HoldJournal(id, t).postings;
    DeltaOfTwo(ps[0], ps[1], a);
  }

  /** A confirmation moves exactly the difference between the two statuses' effects. */
  lemma ConfirmationDelta(id: nat, t: Transfer, o: Outcome, a: Account)
    requires t.ref.Some? && t.status == Processing && IsFinal(o) && t.fee >= 0.0
    ensures var t' := t.(status := if o == Success then Completed else Failed);
      var j := ConfirmationJournal(id, t, o);
      Effect(t', a) - Effect(t, a) == if j.Some? then Delta(j.value.postings, a) else 0.0
  {
    var j := ConfirmationJournal(id, t, o);
    if j.Some? {
      var ps := j.value.postings;
      DeltaOfTwo(ps[0], ps[1], a);
      if |ps| == 3 {
        assert ps == [ps[0], ps[1]] + [ps[2]];
        DeltaAppend([ps[0], ps[1]], [ps[2]], a);
        DeltaOfOne(ps[2], a);
      } else {
        assert ps == [ps[0], ps[1]];
      }
    }
  }

  lemma PostedForNext(js: seq<Journal>, j: Journal, id: nat, a: Account)
    ensures PostedFor(js + [j], id, a) ==
      PostedFor(js, id, a) + (if j.refKind == RefTransfer && j.refId == id then Delta(j.postings, a) else 0.0)
  {
    assert (js + [j])[..|js|] == js;
  }

  lemma SubmitKeepsInv(b: TransferBook, q: Request)
    requires Inv(b) && Submit(b, q).Ok?
    ensures Inv(Submit(b, q).value.0)
  {
    hide Record, Delta, Effect;
    var b' := Submit(b, q).value.0;
    if FindRequest(b.rows, q.user, q.clientKey).None? {
      var id := |b.rows| + 1;
      if q.direction == Withdraws {
        var j := HoldJournal(id, NewRow(q));
        RecordNewMoves(b.ledger, j);
        NewRowKeepsInv(b, b', b'.rows[id - 1], Some(j));
      } else {
        NewRowKeepsInv(b, b', b'.rows[id - 1], None);
      }
    }
  }

  lemma SettledRefKept(rows: seq<Transfer>, rows': seq<Transfer>, ref: string)
    requires SettledRef(rows, ref) && |rows| <= |rows'|
    requires forall i :: 0 <= i < |rows| && IsTerminal(rows[i].status) ==>
               rows'[i].ref == rows[i].ref && IsTerminal(rows'[i].status)
    ensures SettledRef(rows', ref)
  {
    var i :| 0 <= i < |rows| && rows[i].ref == Some(ref) && IsTerminal(rows[i].status);
    assert rows'[i].ref == Some(ref);
  }

  lemma NewRowKeepsInv(b: TransferBook, b': TransferBook, row: Transfer, hold: Option<Journal>)
    requires Inv(b) && b'.rows == b.rows + [row]
    requires row.status == Received && row.ref.None? && row.amount > 0.0 && row.fee >= 0.0 && row.asset != ""
    requires row.direction == Deposits <==> hold.None?
    requires hold.None? ==> b'.ledger.journals == b.ledger.journals
    requires hold.Some? ==> hold.value == HoldJournal(|b.rows| + 1, row)
    requires hold.Some? ==> b'.ledger.journals == b.ledger.journals + [hold.value]
    ensures Inv(b')
  {
    hide Delta, Effect;
    forall k: nat, a ensures PostedFor(b'.ledger.journals, k, a) == EffectOf(b'.rows, k, a) {
      assert PostedFor(b.ledger.journals, k, a) == EffectOf(b.rows, k, a);
      if hold.Some? {
        PostedForNext(b.ledger.journals, hold.value, k, a);
        HoldDelta(|b.rows| + 1, row, a);
      } else {
        NoEffectYet(row, a);
      }
    }
    forall ref | SettledRef(b.rows, ref) ensures SettledRef(b'.rows, ref) {
      SettledRefKept(b.rows, b'.rows, ref);
    }
  }

  lemma NoEffectYet(t: Transfer, a: Account)
    requires t.direction == Deposits && t.status == Received
    ensures Effect(t, a) == 0.0
  {
  }

  /** One row changes without changing what its request has done; it may get a reference
      nobody else has. */
  ghost predicate Quiet(b: TransferBook, b': TransferBook, id: nat) {
    && HasRow(b, id) && |b'.rows| == |b.rows| && b'.rows == b.rows[id - 1 := b'.rows[id - 1]] && b'.ledger == b.ledger
    && var row, row' := b.rows[id - 1], b'.rows[id - 1];
       && RowMoves(row, row') && (IsTerminal(row'.status) ==> row'.status == row.status)
       && (row'.status == Received <==> row'.ref.None?)
       && (row'.ref.Some? && row.ref.None? ==> !RefTaken(b.rows, row'.ref.value))
  }

  predicate RowConsistent(b: TransferBook, id: nat) {
    HasRow(b, id) && (b.rows[id - 1].status == Received <==> b.rows[id - 1].ref.None?)
  }

  lemma DispatchedIsQuiet(b: TransferBook, id: nat, ref: string)
    requires RowConsistent(b, id)
    ensures Quiet(b, Step(b, Dispatched(id, ref)), id)
  {
    hide RefTaken;
  }

  lemma NotDispatchedIsQuiet(b: TransferBook, id: nat)
    requires RowConsistent(b, id)
    ensures Quiet(b, Step(b, NotDispatched(id)), id)
  {
    hide RefTaken, Backoff;
  }

  lemma LookedIsQuiet(b: TransferBook, id: nat, k: string, o: Outcome, age: nat)
    requires RowConsistent(b, id)
    ensures Quiet(b, Step(b, Looked(id, k, o, age)), id)
  {
    hide RefTaken, Backoff;
  }

  lemma LookFailedIsQuiet(b: TransferBook, id: nat, age: nat)
    requires RowConsistent(b, id)
    ensures Quiet(b, Step(b, LookFailed(id, age)), id)
  {
    hide RefTaken, Backoff;
  }

  /** An outcome that does not settle a request in flight. */
  predicate SettlesNothing(b: TransferBook, id: nat, k: string, o: Outcome) {
    !IsFinal(o) || k == "" || k in b.facts || (HasRow(b, id) && b.rows[id - 1].status != Processing)
  }

  lemma LearnedIsQuiet(b: TransferBook, id: nat, k: string, o: Outcome)
    requires RowConsistent(b, id) && SettlesNothing(b, id, k, o)
    ensures Quiet(b, Step(b, Learned(id, k, o)), id)
  {
    hide RefTaken, Confirm;
  }

  lemma QuietUpdateKeepsInv(b: TransferBook, b': TransferBook, id: nat)
    requires Inv(b) && Quiet(b, b', id)
    ensures Inv(b')
  {
    hide Effect;
    forall k: nat, a ensures PostedFor(b'.ledger.journals, k, a) == EffectOf(b'.rows, k, a) {
      assert PostedFor(b.ledger.journals, k, a) == EffectOf(b.rows, k, a);
      QuietEffect(b.rows[id - 1], b'.rows[id - 1], a);
    }
    forall ref | SettledRef(b.rows, ref) ensures SettledRef(b'.rows, ref) {
      SettledRefKept(b.rows, b'.rows, ref);
    }
  }

  lemma QuietEffect(t: Transfer, t': Transfer, a: Account)
    requires RowMoves(t, t') && (IsTerminal(t'.status) ==> t'.status == t.status)
    ensures Effect(t', a) == Effect(t, a)
  {
  }

  /** Only the locked account can be overdrawn by a confirmation. */
  lemma ConfirmationOverdraws(l: LedgerState, id: nat, t: Transfer, o: Outcome)
    requires NonNegative(l) && t.ref.Some? && t.amount > 0.0 && t.fee >= 0.0
    requires ConfirmationJournal(id, t, o).Some?
    ensures WouldGoNegative(l, ConfirmationJournal(id, t, o).value.postings) <==>
      t.direction == Withdraws && Balance(l, Account(UserLocked, t.user, t.asset)) < t.amount + t.fee
  {
    hide Delta;
    var ps := ConfirmationJournal(id, t, o).value.postings;
    assert ps[0] in ps;
    forall p | p in ps ensures Delta(ps, AccountOf(p)) == p.amount {
      ConfirmationPostings(id, t, o, p);
    }
  }

  /** The confirming journal balances, and only the locked account can refuse it. */
  lemma ConfirmationRecords(l: LedgerState, id: nat, t: Transfer, o: Outcome)
    requires NonNegative(l) && t.ref.Some? && t.amount > 0.0 && t.fee >= 0.0 && t.asset != ""
    requires ConfirmationJournal(id, t, o).Some?
    requires FindKey(l.journals, ConfirmationJournal(id, t, o).value.key).None?
    ensures Record(l, ConfirmationJournal(id, t, o).value).Ok? <==>
      (t.direction == Withdraws ==> Balance(l, Account(UserLocked, t.user, t.asset)) >= t.amount + t.fee)
  {
    hide ValidJournal, WouldGoNegative, NonNegative;
    ConfirmationSums(id, t, o);
    ConfirmationOverdraws(l, id, t, o);
  }

  lemma ConfirmationSums(id: nat, t: Transfer, o: Outcome)
    requires t.ref.Some? && t.amount > 0.0 && t.fee >= 0.0 && t.asset != "" && ConfirmationJournal(id, t, o).Some?
    ensures ValidJournal(ConfirmationJournal(id, t, o).value)
  {
    hide AssetSum;
    var ps := ConfirmationJournal(id, t, o).value.postings;
    AssetSumOfTwo(ps[0], ps[1], t.asset);
    if |ps| == 3 {
      assert ps == [ps[0], ps[1]] + [ps[2]];
      AssetSumAppend([ps[0], ps[1]], [ps[2]], t.asset);
      AssetSumOfOne(ps[2], t.asset);
    } else {
      assert ps == [ps[0], ps[1]];
    }
  }

  /** The postings go to different accounts. */
  lemma ConfirmationPostings(id: nat, t: Transfer, o: Outcome, p: Posting)
    requires t.ref.Some? && ConfirmationJournal(id, t, o).Some? && p in ConfirmationJournal(id, t, o).value.postings
    ensures Delta(ConfirmationJournal(id, t, o).value.postings, AccountOf(p)) == p.amount
  {
    hide Delta;
    var ps := ConfirmationJournal(id, t, o).value.postings;
    DeltaOfTwo(ps[0], ps[1], AccountOf(p));
    if |ps| == 3 {
      assert ps == [ps[0], ps[1]] + [ps[2]];
      DeltaAppend([ps[0], ps[1]], [ps[2]], AccountOf(p));
      DeltaOfOne(ps[2], AccountOf(p));
    } else {
      assert ps == [ps[0], ps[1]];
    }
  }

  lemma ConfirmKeepsInv(b: TransferBook, id: nat, o: Outcome)
    requires Inv(b) && HasRow(b, id) && IsFinal(o)
    requires b.rows[id - 1].status == Processing && Confirm(b, id, o).Ok?
    ensures Inv(Confirm(b, id, o).value)
  {
    hide Record, Delta, Effect, ConfirmationJournal;
    var b' := Confirm(b, id, o).value;
    var t := b.rows[id - 1];
    var j := ConfirmationJournal(id, t, o);
    if j.Some? {
      forall i | 0 <= i < |b.ledger.journals| ensures b.ledger.journals[i].key != j.value.key {
        ConfirmKeyIsNew(b, id, o, i);
      }
      RecordNewMoves(b.ledger, j.value);
    }
    forall k: nat, a ensures PostedFor(b'.ledger.journals, k, a) == EffectOf(b'.rows, k, a) {
      assert PostedFor(b.ledger.journals, k, a) == EffectOf(b.rows, k, a);
      ConfirmationFacts(id, t, o, b'.rows[id - 1], a);
      if j.Some? {
        PostedForNext(b.ledger.journals, j.value, k, a);
      }
    }
    ConfirmKeepsKeys(b, b', id, o);
  }

  lemma ConfirmationFacts(id: nat, t: Transfer, o: Outcome, t': Transfer, a: Account)
    requires t.ref.Some? && t.status == Processing && IsFinal(o) && t.fee >= 0.0
    requires t' == t.(status := if o == Success then Completed else Failed, resolution := t'.resolution, review := None, checkDelay := None)
    ensures var j := ConfirmationJournal(id, t, o);
      && Effect(t', a) - Effect(t, a) == (if j.Some? then Delta(j.value.postings, a) else 0.0)
      && (j.Some? ==> j.value.refKind == RefTransfer && j.value.refId == id)
  {
    ConfirmationDelta(id, t, o, a);
  }

  lemma ConfirmKeepsKeys(b: TransferBook, b': TransferBook, id: nat, o: Outcome)
    requires Inv(b) && HasRow(b, id) && IsFinal(o) && b.rows[id - 1].status == Processing
    requires |b'.rows| == |b.rows|
    requires forall i :: 0 <= i < |b.rows| && i != id - 1 ==> b'.rows[i] == b.rows[i]
    requires b'.rows[id - 1].ref == b.rows[id - 1].ref && IsTerminal(b'.rows[id - 1].status)
    requires var j := ConfirmationJournal(id, b.rows[id - 1], o);
      b'.ledger.journals == b.ledger.journals + (if j.Some? then [j.value] else [])
    ensures KeysAccounted(b')
  {
    forall ref | SettledRef(b.rows, ref) ensures SettledRef(b'.rows, ref) {
      SettledRefKept(b.rows, b'.rows, ref);
    }
    assert SettledRef(b'.rows, b.rows[id - 1].ref.value);
  }

  /** No journal carries the settlement key of a request that is still open. */
  lemma ConfirmKeyIsNew(b: TransferBook, id: nat, o: Outcome, i: nat)
    requires Inv(b) && HasRow(b, id) && IsFinal(o) && b.rows[id - 1].status == Processing
    requires ConfirmationJournal(id, b.rows[id - 1], o).Some?
    requires i < |b.ledger.journals|
    ensures b.ledger.journals[i].key != ConfirmationJournal(id, b.rows[id - 1], o).value.key
  {
    var ref := b.rows[id - 1].ref.value;
    assert !SettledRef(b.rows, ref);
  }

  lemma RowIsConsistent(b: TransferBook, id: nat)
    requires RowsConsistent(b) && HasRow(b, id)
    ensures RowConsistent(b, id)
  {
  }

  lemma StepKeepsInv(b: TransferBook, e: Event)
    requires Inv(b)
    ensures Inv(Step(b, e))
  {
    hide Inv, Quiet, RowConsistent, Submit, Resolve, Record;
    match e
    case Submitted(q) =>
      if Submit(b, q).Ok? {
        SubmitKeepsInv(b, q);
      }
    case Dispatched(id, ref) =>
      if HasRow(b, id) {
        InvRowIsConsistent(b, id);
        DispatchedIsQuiet(b, id, ref);
        QuietUpdateKeepsInv(b, Step(b, e), id);
      }
    case NotDispatched(id) =>
      if HasRow(b, id) {
        InvRowIsConsistent(b, id);
        NotDispatchedIsQuiet(b, id);
        QuietUpdateKeepsInv(b, Step(b, e), id);
      }
    case Learned(id, k, o) => LearnKeepsInv(b, id, k, o);
    case Looked(id, k, o, age) =>
      if HasRow(b, id) {
        InvRowIsConsistent(b, id);
        LookedIsQuiet(b, id, k, o, age);
        QuietUpdateKeepsInv(b, Step(b, e), id);
      }
    case LookFailed(id, age) =>
      if HasRow(b, id) {
        InvRowIsConsistent(b, id);
        LookFailedIsQuiet(b, id, age);
        QuietUpdateKeepsInv(b, Step(b, e), id);
      }
    case Elsewhere(j) => ElsewhereKeepsInv(b, j);
  }

  lemma InvRowIsConsistent(b: TransferBook, id: nat)
    requires Inv(b) && HasRow(b, id)
    ensures RowConsistent(b, id)
  {
  }

  lemma LearnKeepsInv(b: TransferBook, id: nat, k: string, o: Outcome)
    requires Inv(b)
    ensures Inv(OrSame(b, Resolve(b, id, k, o)))
  {
    hide Confirm, Inv, Quiet, RowConsistent;
    if HasRow(b, id) {
      if SettlesNothing(b, id, k, o) {
        InvRowIsConsistent(b, id);
        LearnedIsQuiet(b, id, k, o);
        QuietUpdateKeepsInv(b, Step(b, Learned(id, k, o)), id);
      } else {
        var b1 := b.(facts := b.facts[k := Fact(id, o)]);
        FactsDoNotMatter(b, b1);
        if Confirm(b1, id, o).Ok? {
          ConfirmKeepsInv(b1, id, o);
        }
      }
    }
  }

  lemma FactsDoNotMatter(b: TransferBook, b': TransferBook)
    requires Inv(b) && b'.rows == b.rows && b'.ledger == b.ledger
    ensures Inv(b')
  {
  }

  lemma ElsewhereKeepsInv(b: TransferBook, j: Journal)
    requires Inv(b)
    ensures Inv(Step(b, Elsewhere(j)))
  {
    var b' := Step(b, Elsewhere(j));
    if b'.ledger != b.ledger {
      var js := b.ledger.journals;
      assert b'.ledger.journals == js + [j];
      forall k: nat, a ensures PostedFor(b'.ledger.journals, k, a) == EffectOf(b'.rows, k, a) {
        PostedForNext(js, j, k, a);
        assert PostedFor(js, k, a) == EffectOf(b.rows, k, a);
      }
    }
  }

  lemma StepMovesRows(b: TransferBook, e: Event, i: nat)
    requires RowsConsistent(b) && i < |b.rows|
    ensures |Step(b, e).rows| >= |b.rows| && RowMoves(b.rows[i], Step(b, e).rows[i])
  {
    hide Quiet, RowConsistent, RowsConsistent, Submit, Resolve, Record, RowMoves;
    StaysPut(b.rows[i]);
    match e
    case Submitted(q) => SubmitMovesRows(b, q, i);
    case Dispatched(id, ref) =>
      if HasRow(b, id) {
        RowIsConsistent(b, id);
        DispatchedIsQuiet(b, id, ref);
        QuietMovesRows(b, Step(b, e), id, i);
      }
    case NotDispatched(id) =>
      if HasRow(b, id) {
        RowIsConsistent(b, id);
        NotDispatchedIsQuiet(b, id);
        QuietMovesRows(b, Step(b, e), id, i);
      }
    case Learned(id, k, o) => LearnMovesRows(b, id, k, o, i);
    case Looked(id, k, o, age) =>
      if HasRow(b, id) {
        RowIsConsistent(b, id);
        LookedIsQuiet(b, id, k, o, age);
        QuietMovesRows(b, Step(b, e), id, i);
      }
    case LookFailed(id, age) =>
      if HasRow(b, id) {
        RowIsConsistent(b, id);
        LookFailedIsQuiet(b, id, age);
        QuietMovesRows(b, Step(b, e), id, i);
      }
    case Elsewhere(j) =>
  }

  lemma StaysPut(t: Transfer)
    ensures RowMoves(t, t)
  {
  }

  lemma QuietMovesRows(b: TransferBook, b': TransferBook, id: nat, i: nat)
    requires Quiet(b, b', id) && i < |b.rows|
    ensures |b'.rows| == |b.rows| && RowMoves(b.rows[i], b'.rows[i])
  {
  }

  lemma SubmitMovesRows(b: TransferBook, q: Request, i: nat)
    requires i < |b.rows|
    ensures |Step(b, Submitted(q)).rows| >= |b.rows| && RowMoves(b.rows[i], Step(b, Submitted(q)).rows[i])
  {
    hide Record;
  }

  lemma LearnMovesRows(b: TransferBook, id: nat, k: string, o: Outcome, i: nat)
    requires RowsConsistent(b) && i < |b.rows|
    ensures |Step(b, Learned(id, k, o)).rows| >= |b.rows| && RowMoves(b.rows[i], Step(b, Learned(id, k, o)).rows[i])
  {
    hide Record, RowsConsistent;
    if HasRow(b, id) && SettlesNothing(b, id, k, o) {
      RowIsConsistent(b, id);
      LearnedIsQuiet(b, id, k, o);
      QuietMovesRows(b, Step(b, Learned(id, k, o)), id, i);
    }
  }

  /** Under any interleaving of requests, dispatches, callbacks, polls, duplicates,
      failures and the exchange's other journals: what each request has done to each
      account is the fixed effect of its direction and status. */
  lemma {:induction false} RequestEffectIsFixedByStatus(b: TransferBook, es: seq<Event>)
    requires Inv(b)
    ensures Inv(Run(b, es))
    ensures forall id: nat, a :: PostedFor(Run(b, es).ledger.journals, id, a) == EffectOf(Run(b, es).rows, id, a)
  {
    if es != [] {
      RequestEffectIsFixedByStatus(b, es[..|es| - 1]);
      StepKeepsInv(Run(b, es[..|es| - 1]), es[|es| - 1]);
    }
  }

  /** A status moves one place at a time from RECEIVED over PROCESSING to a terminal
      one, and a terminal status and its journal stay for the rest of every run. */
  lemma {:induction false} StatusOnlyMovesForward(b: TransferBook, es: seq<Event>, i: nat)
    requires Inv(b) && i < |b.rows|
    ensures var now := Run(b, es);
      && |now.rows| >= |b.rows|
      && (b.rows[i].status != Received ==> now.rows[i].status != Received)
      && (IsTerminal(b.rows[i].status) ==>
            now.rows[i].status == b.rows[i].status && now.rows[i].resolution == b.rows[i].resolution)
      && (forall e :: RowMoves(now.rows[i], Step(now, e).rows[i]))
  {
    hide Step, EffectsHold, KeysAccounted;
    RequestEffectIsFixedByStatus(b, es);
    if es != [] {
      RequestEffectIsFixedByStatus(b, es[..|es| - 1]);
      StatusOnlyMovesForward(b, es[..|es| - 1], i);
      StepMovesRows(Run(b, es[..|es| - 1]), es[|es| - 1], i);
    }
    forall e ensures |Step(Run(b, es), e).rows| >= |Run(b, es).rows| && RowMoves(Run(b, es).rows[i], Step(Run(b, es), e).rows[i]) {
      StepMovesRows(Run(b, es), e, i);
    }
  }

  /** The outcome a terminal status stands for. */
  function OutcomeOf(s: TransferStatus): Outcome
    requires IsTerminal(s)
  {
    if s == Completed then Success else Failure
  }

  /** After a terminal status no outcome moves money again, under any event key: the same
      one leaves every row as it is, the opposite one flags this row and no other, and a
      key seen before does not even do that. */
  lemma TerminalOutcomeMovesMoneyOnce(b: TransferBook, id: nat, eventKey: string, o: Outcome)
    requires HasRow(b, id) && IsTerminal(b.rows[id - 1].status)
    ensures Resolve(b, id, eventKey, o).Ok? <==> IsFinal(o) && eventKey != ""
    ensures var b' := Resolve(b, id, eventKey, o);
      b'.Ok? ==>
      && b'.value.ledger == b.ledger
      && b'.value.facts == (if eventKey in b.facts then b.facts else b.facts[eventKey := Fact(id, o)])
      && b'.value.rows == (if o == OutcomeOf(b.rows[id - 1].status) || eventKey in b.facts then b.rows
                           else b.rows[id - 1 := b.rows[id - 1].(review := Some(ConflictingTerminalOutcome))])
  {
  }

  /** So a whole run of outcomes for a terminal request, in any order and number, leaves
      the ledger alone; the row stays as it is exactly as long as no new fact says the
      opposite. */
  lemma {:induction false} OutcomesAfterTheFirst(b: TransferBook, id: nat, es: seq<Event>)
    requires HasRow(b, id) && IsTerminal(b.rows[id - 1].status)
    requires forall i :: 0 <= i < |es| ==> es[i].Learned? && es[i].id == id && IsFinal(es[i].outcome) && es[i].eventKey != ""
    ensures var b' := Run(b, es);
      && b'.ledger == b.ledger && |b'.rows| == |b.rows|
      && (forall i :: 0 <= i < |b.rows| && i != id - 1 ==> b'.rows[i] == b.rows[i])
      && b'.rows[id - 1] == b.rows[id - 1].(review := if Contradicted(b, id, es) then Some(ConflictingTerminalOutcome) else b.rows[id - 1].review)
      && forall k :: k in b'.facts <==> k in b.facts || Learnt(es, k)
  {
    hide Resolve;
    if es != [] {
      var n := |es| - 1;
      var mid := Run(b, es[..n]);
      OutcomesAfterTheFirst(b, id, es[..n]);
      TerminalOutcomeMovesMoneyOnce(mid, id, es[n].eventKey, es[n].outcome);
      ContradictedNext(b, id, es);
      LearntNext(es);
    }
  }

  /** Some event told this fact. */
  predicate Learnt(es: seq<Event>, k: string) {
    exists i :: 0 <= i < |es| && es[i].Learned? && es[i].eventKey == k
  }

  lemma LearntNext(es: seq<Event>)
    requires es != [] && es[|es| - 1].Learned?
    ensures forall k :: Learnt(es, k) <==> Learnt(es[..|es| - 1], k) || k == es[|es| - 1].eventKey
  {
    var n := |es| - 1;
    assert es[n].eventKey == es[n].eventKey;
    forall k | Learnt(es[..n], k) ensures Learnt(es, k) {
      var i :| 0 <= i < |es[..n]| && es[..n][i].Learned? && es[..n][i].eventKey == k;
      assert es[i].eventKey == k;
    }
    forall k | Learnt(es, k) && k != es[n].eventKey ensures Learnt(es[..n], k) {
      var i :| 0 <= i < |es| && es[i].Learned? && es[i].eventKey == k;
      assert es[..n][i].eventKey == k;
    }
  }

  /** Among the facts is a new one with the opposite outcome. */
  ghost predicate Contradicted(b: TransferBook, id: nat, es: seq<Event>)
    requires HasRow(b, id) && IsTerminal(b.rows[id - 1].status)
  {
    exists i :: 0 <= i < |es| && Contradicts(b, id, es, i)
  }

  ghost predicate Contradicts(b: TransferBook, id: nat, es: seq<Event>, i: nat)
    requires HasRow(b, id) && IsTerminal(b.rows[id - 1].status) && i < |es|
  {
    && es[i].Learned? && es[i].outcome != OutcomeOf(b.rows[id - 1].status) && es[i].eventKey !in b.facts
    && forall k :: 0 <= k < i && es[k].Learned? ==> es[k].eventKey != es[i].eventKey
  }

  lemma ContradictedNext(b: TransferBook, id: nat, es: seq<Event>)
    requires HasRow(b, id) && IsTerminal(b.rows[id - 1].status) && es != []
    ensures Contradicted(b, id, es) <==> Contradicted(b, id, es[..|es| - 1]) || Contradicts(b, id, es, |es| - 1)
  {
    var n := |es| - 1;
    forall i | 0 <= i < n ensures Contradicts(b, id, es[..n], i) <==> Contradicts(b, id, es, i) {
      assert forall k :: 0 <= k <= i ==> es[..n][k] == es[k];
      if Contradicts(b, id, es[..n], i) {
        forall k | 0 <= k < i && es[k].Learned? ensures es[k].eventKey != es[i].eventKey {
          assert es[..n][k] == es[k];
        }
      }
    }
  }

  // ---------------------------------------------------- balances as a whole

  /** What all requests together have done to an account. */
  ghost function TotalEffect(rows: seq<Transfer>, a: Account): real {
    Sum((t: Transfer) => Effect(t, a), rows)
  }

  /** A step of this component moves each balance by the change in its requests'
      effects, and writes no key of another component. */
  ghost predicate Accounted(b: TransferBook, b': TransferBook) {
    && (forall a :: Balance(b'.ledger, a) - Balance(b.ledger, a) == TotalEffect(b'.rows, a) - TotalEffect(b.rows, a))
    && (b'.ledger.journals == b.ledger.journals
        || exists j: Journal :: IsTransferKey(j.key) && b'.ledger.journals == b.ledger.journals + [j])
  }

  lemma UpdateAccounted(b: TransferBook, b': TransferBook, id: nat, row: Transfer, j: Option<Journal>)
    requires HasRow(b, id) && b'.rows == b.rows[id - 1 := row]
    requires j.None? ==> b'.ledger == b.ledger
    requires j.Some? ==>
      && IsTransferKey(j.value.key) && b'.ledger.journals == b.ledger.journals + [j.value]
      && forall a :: Balance(b'.ledger, a) == Balance(b.ledger, a) + Delta(j.value.postings, a)
    requires forall a :: Effect(row, a) - Effect(b.rows[id - 1], a) == if j.Some? then Delta(j.value.postings, a) else 0.0
    ensures Accounted(b, b')
  {
    hide Effect, Delta;
    forall a ensures Balance(b'.ledger, a) - Balance(b.ledger, a) == TotalEffect(b'.rows, a) - TotalEffect(b.rows, a) {
      SumUpdate((t: Transfer) => Effect(t, a), b.rows, id - 1, row);
    }
  }

  lemma RowAppended(rows: seq<Transfer>, row: Transfer, a: Account)
    ensures TotalEffect(rows + [row], a) == TotalEffect(rows, a) + Effect(row, a)
  {
    hide Effect;
    var f := (t: Transfer) => Effect(t, a);
    SumAppend(f, rows, [row]);
    assert [row][..0] == [];
    assert Sum(f, [row]) == Effect(row, a);
  }

  lemma HoldKeyIsNew(b: TransferBook)
    requires Inv(b)
    ensures forall i :: 0 <= i < |b.ledger.journals| ==> b.ledger.journals[i].key != WithdrawHoldKey(|b.rows| + 1)
  {
    hide RowsConsistent, EffectsHold;
  }

  lemma SubmitAccounted(b: TransferBook, q: Request)
    requires Inv(b) && Submit(b, q).Ok?
    ensures Accounted(b, Submit(b, q).value.0)
  {
    hide Record, Delta, Effect, Inv, TotalEffect;
    var b' := Submit(b, q).value.0;
    if FindRequest(b.rows, q.user, q.clientKey).None? {
      var id := |b.rows| + 1;
      var row := b'.rows[id - 1];
      var j := HoldJournal(id, NewRow(q));
      if q.direction == Withdraws {
        HoldKeyIsNew(b);
        RecordNewMoves(b.ledger, j);
      }
      forall a ensures Balance(b'.ledger, a) - Balance(b.ledger, a) == TotalEffect(b'.rows, a) - TotalEffect(b.rows, a) {
        RowAppended(b.rows, row, a);
        if q.direction == Withdraws {
          HoldDelta(id, row, a);
        } else {
          NoEffectYet(row, a);
        }
      }
    }
  }

  /** A dispatched request can be confirmed exactly when a withdrawal's money is locked. */
  lemma ConfirmableWhenLocked(b: TransferBook, id: nat, o: Outcome)
    requires Inv(b) && NonNegative(b.ledger) && HasRow(b, id) && IsFinal(o) && b.rows[id - 1].status == Processing
    ensures var t := b.rows[id - 1];
      Confirm(b, id, o).Ok? <==>
      (t.direction == Withdraws ==> Balance(b.ledger, Account(UserLocked, t.user, t.asset)) >= t.amount + t.fee)
  {
    hide Record, EffectsHold, KeysAccounted;
    var t := b.rows[id - 1];
    var j := ConfirmationJournal(id, t, o);
    if j.Some? {
      forall i | 0 <= i < |b.ledger.journals| ensures b.ledger.journals[i].key != j.value.key {
        ConfirmKeyIsNew(b, id, o, i);
      }
      ConfirmationRecords(b.ledger, id, t, o);
    }
  }

  lemma ConfirmAccounted(b: TransferBook, id: nat, o: Outcome)
    requires Inv(b) && HasRow(b, id) && IsFinal(o)
    requires b.rows[id - 1].status == Processing && Confirm(b, id, o).Ok?
    ensures Accounted(b, Confirm(b, id, o).value)
    ensures var b' := Confirm(b, id, o).value;
      forall a :: Balance(b'.ledger, a) == Balance(b.ledger, a) + Effect(b'.rows[id - 1], a) - Effect(b.rows[id - 1], a)
  {
    hide Record, Delta, Effect;
    var b' := Confirm(b, id, o).value;
    var t := b.rows[id - 1];
    var j := ConfirmationJournal(id, t, o);
    if j.Some? {
      forall i | 0 <= i < |b.ledger.journals| ensures b.ledger.journals[i].key != j.value.key {
        ConfirmKeyIsNew(b, id, o, i);
      }
      RecordNewMoves(b.ledger, j.value);
    }
    forall a ensures Effect(b'.rows[id - 1], a) - Effect(t, a) == if j.Some? then Delta(j.value.postings, a) else 0.0 {
      ConfirmationFacts(id, t, o, b'.rows[id - 1], a);
    }
    UpdateAccounted(b, b', id, b'.rows[id - 1], j);
  }

  lemma QuietAccounted(b: TransferBook, b': TransferBook, id: nat)
    requires Quiet(b, b', id)
    ensures Accounted(b, b')
  {
    hide Effect, Accounted;
    var row, row' := b.rows[id - 1], b'.rows[id - 1];
    forall a ensures Effect(row', a) == Effect(row, a) {
      QuietEffect(row, row', a);
    }
    UpdateAccounted(b, b', id, row', None);
  }

  lemma StepAccounted(b: TransferBook, e: Event)
    requires Inv(b) && !e.Elsewhere?
    ensures Accounted(b, Step(b, e))
  {
    hide Record, Accounted, Inv, Quiet, RowConsistent, Submit, Resolve;
    NothingAccounted(b);
    match e
    case Submitted(q) =>
      if Submit(b, q).Ok? {
        SubmitAccounted(b, q);
      }
    case Learned(id, k, o) => LearnAccounted(b, id, k, o);
    case Dispatched(id, ref) =>
      if HasRow(b, id) {
        InvRowIsConsistent(b, id);
        DispatchedIsQuiet(b, id, ref);
        QuietAccounted(b, Step(b, e), id);
      }
    case NotDispatched(id) =>
      if HasRow(b, id) {
        InvRowIsConsistent(b, id);
        NotDispatchedIsQuiet(b, id);
        QuietAccounted(b, Step(b, e), id);
      }
    case Looked(id, k, o, age) =>
      if HasRow(b, id) {
        InvRowIsConsistent(b, id);
        LookedIsQuiet(b, id, k, o, age);
        QuietAccounted(b, Step(b, e), id);
      }
    case LookFailed(id, age) =>
      if HasRow(b, id) {
        InvRowIsConsistent(b, id);
        LookFailedIsQuiet(b, id, age);
        QuietAccounted(b, Step(b, e), id);
      }
  }

  lemma LearnAccounted(b: TransferBook, id: nat, k: string, o: Outcome)
    requires Inv(b)
    ensures Accounted(b, Step(b, Learned(id, k, o)))
  {
    hide Confirm, Inv, Quiet, RowConsistent, Accounted;
    var b' := Step(b, Learned(id, k, o));
    NothingAccounted(b);
    if HasRow(b, id) {
      if SettlesNothing(b, id, k, o) {
        InvRowIsConsistent(b, id);
        LearnedIsQuiet(b, id, k, o);
        QuietAccounted(b, b', id);
      } else {
        var b1 := b.(facts := b.facts[k := Fact(id, o)]);
        FactsDoNotMatter(b, b1);
        if Confirm(b1, id, o).Ok? {
          ConfirmAccounted(b1, id, o);
          FactsAccounted(b, b1, b');
        }
      }
    }
  }

  lemma NothingAccounted(b: TransferBook)
    ensures Accounted(b, b)
  {
  }

  lemma FactsAccounted(b: TransferBook, b1: TransferBook, b': TransferBook)
    requires Accounted(b1, b') && b1.rows == b.rows && b1.ledger == b.ledger
    ensures Accounted(b, b')
  {
  }

  // -------------------------------------------------------- one request, one row

  /** A user's client key names one row at most. */
  ghost predicate OncePerKey(rows: seq<Transfer>) {
    forall i, k :: 0 <= i < k < |rows| ==> !(rows[i].user == rows[k].user && rows[i].clientKey == rows[k].clientKey)
  }

  /** The row is the one this request asks for, in every particular. */
  predicate Asks(t: Transfer, q: Request) {
    && t.user == q.user && t.clientKey == q.clientKey
    && t.direction == q.direction && t.rail == q.rail && t.asset == q.asset && t.amount == q.amount
  }

  predicate Matches(t: Transfer, q: Request) {
    t.user == q.user && t.clientKey == q.clientKey
  }

  /** A request whose key is on file is answered by that row: with its id if it is the same
      request, with a refusal if it is another one; nothing changes. */
  lemma KnownRequestIsAnswered(b: TransferBook, q: Request, i: nat)
    requires OncePerKey(b.rows) && ValidRequest(q) && i < |b.rows| && Matches(b.rows[i], q)
    ensures Submit(b, q) == if Asks(b.rows[i], q) then Ok((b, i + 1)) else Err(Conflict)
  {
    var found := FindRequest(b.rows, q.user, q.clientKey);
    assert found.Some?;
    assert found.value == i;
  }

  lemma NewRowIsAdded(b: TransferBook, q: Request)
    requires Submit(b, q).Ok? && forall i :: 0 <= i < |b.rows| ==> !Matches(b.rows[i], q)
    ensures var (b', id) := Submit(b, q).value;
      && id == |b.rows| + 1 && |b'.rows| == id && b'.rows == b.rows + [b'.rows[id - 1]] && b'.facts == b.facts
      && Asks(b'.rows[id - 1], q) && b'.rows[id - 1].status == Received
  {
    hide Record;
    assert FindRequest(b.rows, q.user, q.clientKey).None?;
  }

  /** A new request adds one row that asks for it and moves exactly that row's effect. */
  lemma NewRequestIsAdded(b: TransferBook, q: Request)
    requires Submit(b, q).Ok? && forall i :: 0 <= i < |b.rows| ==> !Matches(b.rows[i], q)
    ensures var (b', id) := Submit(b, q).value;
      && id == |b.rows| + 1 && |b'.rows| == id && b'.rows == b.rows + [b'.rows[id - 1]] && b'.facts == b.facts
      && Asks(b'.rows[id - 1], q) && b'.rows[id - 1].status == Received
      && (Inv(b) ==> forall a :: Balance(b'.ledger, a) == Balance(b.ledger, a) + Effect(b'.rows[id - 1], a))
  {
    hide Submit, Inv, Effect, TotalEffect, Asks;
    var (b', id) := Submit(b, q).value;
    NewRowIsAdded(b, q);
    if Inv(b) {
      SubmitAccounted(b, q);
      forall a ensures Balance(b'.ledger, a) == Balance(b.ledger, a) + Effect(b'.rows[id - 1], a) {
        RowAppended(b.rows, b'.rows[id - 1], a);
      }
    }
  }

  /** A new request is accepted exactly when a withdrawal's money is available. */
  lemma NewRequestIsAffordable(b: TransferBook, q: Request)
    requires Inv(b) && NonNegative(b.ledger) && ValidRequest(q) && forall i :: 0 <= i < |b.rows| ==> !Matches(b.rows[i], q)
    ensures Submit(b, q).Ok? <==>
      (q.direction == Withdraws ==> Balance(b.ledger, Account(UserAvailable, q.user, q.asset)) >= q.amount)
  {
    hide Delta, Inv, AssetSum;
    assert FindRequest(b.rows, q.user, q.clientKey).None?;
    if q.direction == Withdraws {
      HoldKeyIsNew(b);
      HoldRecords(b.ledger, |b.rows| + 1, NewRow(q));
    }
  }

  lemma HoldRecords(l: LedgerState, id: nat, t: Transfer)
    requires NonNegative(l) && t.amount > 0.0 && t.fee >= 0.0 && t.asset != ""
    requires FindKey(l.journals, WithdrawHoldKey(id)).None?
    ensures Record(l, HoldJournal(id, t)).Ok? <==> Balance(l, Account(UserAvailable, t.user, t.asset)) >= t.amount + t.fee
  {
    hide Delta, AssetSum;
    var ps := HoldJournal(id, t).postings;
    AssetSumOfTwo(ps[0], ps[1], t.asset);
    DeltaOfTwo(ps[0], ps[1], AccountOf(ps[0]));
    DeltaOfTwo(ps[0], ps[1], AccountOf(ps[1]));
    assert ps[0] in ps;
  }

  lemma SubmitKeepsOnce(b: TransferBook, q: Request)
    requires OncePerKey(b.rows) && Submit(b, q).Ok?
    ensures OncePerKey(Submit(b, q).value.0.rows)
  {
    hide Record, Inv, Submit;
    if i :| 0 <= i < |b.rows| && Matches(b.rows[i], q) {
      assert ValidRequest(q) by { SubmittedIsValid(b, q); }
      KnownRequestIsAnswered(b, q, i);
    } else {
      NewRowIsAdded(b, q);
    }
  }

  lemma SubmittedIsValid(b: TransferBook, q: Request)
    requires Submit(b, q).Ok?
    ensures ValidRequest(q)
  {
  }

  lemma OnlyRequestsAddRows(b: TransferBook, e: Event)
    requires !e.Submitted?
    ensures |Step(b, e).rows| == |b.rows|
  {
    hide Record;
  }

  lemma StepKeepsOnce(b: TransferBook, e: Event)
    requires RowsConsistent(b) && OncePerKey(b.rows)
    ensures OncePerKey(Step(b, e).rows)
  {
    hide Submit, RowsConsistent, Resolve, Record;
    if e.Submitted? {
      if Submit(b, e.request).Ok? {
        SubmitKeepsOnce(b, e.request);
      }
    } else {
      OnlyRequestsAddRows(b, e);
      forall i | 0 <= i < |b.rows|
        ensures Step(b, e).rows[i].user == b.rows[i].user && Step(b, e).rows[i].clientKey == b.rows[i].clientKey
      {
        StepMovesRows(b, e, i);
      }
    }
  }

  /** Over every run a user's client key names one row at most, and what a row asks for
      never changes. */
  lemma {:induction false} RequestsStayApart(b: TransferBook, es: seq<Event>)
    requires Inv(b) && OncePerKey(b.rows)
    ensures var now := Run(b, es);
      && Inv(now) && OncePerKey(now.rows) && |now.rows| >= |b.rows|
      && forall i, q :: 0 <= i < |b.rows| ==> (Asks(now.rows[i], q) <==> Asks(b.rows[i], q))
  {
    hide Step, Inv, OncePerKey;
    RequestEffectIsFixedByStatus(b, es);
    if es != [] {
      var before, e := Run(b, es[..|es| - 1]), es[|es| - 1];
      RequestsStayApart(b, es[..|es| - 1]);
      InvRows(before);
      StepKeepsOnce(before, e);
      forall i | 0 <= i < |b.rows| ensures |Step(before, e).rows| >= |before.rows| && RowMoves(before.rows[i], Step(before, e).rows[i]) {
        StepMovesRows(before, e, i);
      }
      StepMovesAnyRow(before, e);
    }
  }

  lemma InvRows(b: TransferBook)
    requires Inv(b)
    ensures RowsConsistent(b)
  {
  }

  lemma StepMovesAnyRow(b: TransferBook, e: Event)
    requires RowsConsistent(b)
    ensures |Step(b, e).rows| >= |b.rows|
  {
    hide Step, RowsConsistent;
    if b.rows != [] {
      StepMovesRows(b, e, 0);
    }
  }

  /** Once a request was accepted under an id, the same request at any later time gets the
      same id, and any other request of that user under that key is refused; neither
      changes anything, so its money is locked once. */
  lemma RequestIsServedOnce(b: TransferBook, q: Request, es: seq<Event>, again: Request)
    requires Inv(b) && OncePerKey(b.rows) && Submit(b, q).Ok?
    requires ValidRequest(again) && again.user == q.user && again.clientKey == q.clientKey
    ensures var (first, id) := Submit(b, q).value;
      var later := Run(first, es);
      Submit(later, again) == if again == q then Ok((later, id)) else Err(Conflict)
  {
    hide Submit, Inv, OncePerKey;
    var (first, id) := Submit(b, q).value;
    SubmitKeepsInv(b, q);
    SubmitKeepsOnce(b, q);
    AcceptedIsOnFile(b, q);
    RequestsStayApart(first, es);
    var later := Run(first, es);
    assert Asks(later.rows[id - 1], q);
    KnownRequestIsAnswered(later, again, id - 1);
  }

  lemma AcceptedIsOnFile(b: TransferBook, q: Request)
    requires OncePerKey(b.rows) && Submit(b, q).Ok?
    ensures var (b', id) := Submit(b, q).value; 1 <= id <= |b'.rows| && Asks(b'.rows[id - 1], q)
  {
    hide Submit, Inv, OncePerKey;
    SubmittedIsValid(b, q);
    if i :| 0 <= i < |b.rows| && Matches(b.rows[i], q) {
      KnownRequestIsAnswered(b, q, i);
    } else {
      NewRowIsAdded(b, q);
    }
  }

  // ------------------------------------------------------------ what is learnt in time

  /** The request is terminal as the outcome says; no other row changed, and every balance
      moved by the difference between what the two statuses stand for. */
  ghost predicate Settles(b: TransferBook, b': TransferBook, id: nat, o: Outcome) {
    && HasRow(b, id) && |b'.rows| == |b.rows| && b'.rows == b.rows[id - 1 := b'.rows[id - 1]]
    && var t, t' := b.rows[id - 1], b'.rows[id - 1];
       && RowMoves(t, t') && t'.status == (if o == Success then Completed else Failed) && t'.review.None? && t'.checkDelay.None?
       && forall a :: Balance(b'.ledger, a) == Balance(b.ledger, a) + Effect(t', a) - Effect(t, a)
  }

  /** What a new fact with a final outcome does to a request that is not terminal: before
      dispatch it only calls for a look, in flight it settles the request, and that fails
      exactly if a withdrawal's money is not locked. */
  lemma OutcomeIsDecided(b: TransferBook, id: nat, k: string, o: Outcome)
    requires Inv(b) && NonNegative(b.ledger) && HasRow(b, id) && IsFinal(o) && k != "" && k !in b.facts
    ensures var r, t, facts := Resolve(b, id, k, o), b.rows[id - 1], b.facts[k := Fact(id, o)];
      && (t.status == Received ==>
            r == Ok(TransferBook(b.rows[id - 1 := t.(review := Some(TerminalBeforeDispatch))], facts, b.ledger)))
      && (t.status == Processing ==>
            && (r.Ok? ==> Settles(b, r.value, id, o) && r.value.facts == facts)
            && (r.Ok? <==>
                (t.direction == Withdraws ==> Balance(b.ledger, Account(UserLocked, t.user, t.asset)) >= t.amount + t.fee)))
  {
    hide Inv, Effect, Record, NonNegative;
    var b' := b.(facts := b.facts[k := Fact(id, o)]);
    if b.rows[id - 1].status == Processing {
      FactsDoNotMatter(b, b');
      ConfirmableWhenLocked(b', id, o);
      if Confirm(b', id, o).Ok? {
        ConfirmAccounted(b', id, o);
      }
    }
  }

  /** A request in flight is looked at again within the hour, a terminal one never. */
  predicate Due(t: Transfer) {
    match t.status
    case Received => true
    case Processing => t.checkDelay.Some? && 10 <= t.checkDelay.value <= 3600
    case _ => t.checkDelay.None?
  }

  predicate AllDue(rows: seq<Transfer>) {
    forall i :: 0 <= i < |rows| ==> Due(rows[i])
  }

  lemma BackoffBounds(n: nat)
    ensures POLL_BASE <= Backoff(n) <= POLL_MAX
  {
    if n > 1 {
      DoubledGrows(0, n - 1);
    }
  }

  lemma StepKeepsDue(b: TransferBook, e: Event)
    requires AllDue(b.rows)
    ensures AllDue(Step(b, e).rows)
  {
    hide Record, RefTaken, Backoff, ConfirmationJournal, FindRequest;
    forall n: nat ensures POLL_BASE <= Backoff(n) <= POLL_MAX {
      BackoffBounds(n);
    }
  }

  /** Over every run, no request in flight is forgotten. */
  lemma {:induction false} InFlightIsLookedAtAgain(b: TransferBook, es: seq<Event>)
    requires AllDue(b.rows)
    ensures AllDue(Run(b, es).rows)
  {
    hide Step, AllDue;
    if es != [] {
      InFlightIsLookedAtAgain(b, es[..|es| - 1]);
      StepKeepsDue(Run(b, es[..|es| - 1]), es[|es| - 1]);
    }
  }

  /** The row one attempt later: looked at again after ten seconds doubled per attempt but
      no more than an hour, under a reason for review if there is a new one. */
  predicate Postponed(t: Transfer, t': Transfer, reason: Option<ReviewReason>) {
    && t' == t.(attempts := t.attempts + 1, checkDelay := t'.checkDelay, review := if reason.Some? then reason else t.review)
    && t'.checkDelay == Some(if Doubled(t.attempts) < 3600 then Doubled(t.attempts) else 3600)
  }

  ghost predicate OnlyPostponed(b: TransferBook, b': TransferBook, id: nat, reason: Option<ReviewReason>) {
    && HasRow(b, id) && |b'.rows| == |b.rows| && b'.rows == b.rows[id - 1 := b'.rows[id - 1]]
    && b'.ledger == b.ledger && Postponed(b.rows[id - 1], b'.rows[id - 1], reason)
  }

  /** An answer that decides nothing, a look that fails and a dispatch that fails all put
      the request off and move no money; what is settled already, or not yet looked at, is
      left alone. */
  lemma UndecidedIsPutOff(b: TransferBook, id: nat, k: string, o: Outcome, age: nat)
    requires HasRow(b, id) && !IsFinal(o) && k != "" && k !in b.facts
    ensures var t, facts, late := b.rows[id - 1], b.facts[k := Fact(id, o)], age >= 1800;
      var seen, failed, stuck := Observe(b, id, k, o, age), CheckFailed(b, id, age), DispatchFailed(b, id);
      && (t.status == Received ==>
            seen == Err(Invalid) && failed == Ok(b) && stuck.Ok? && OnlyPostponed(b, stuck.value, id, None) && stuck.value.facts == b.facts)
      && (t.status == Processing ==>
            && seen.Ok? && seen.value.facts == facts
            && OnlyPostponed(b, seen.value, id, if o == Unknown then Some(ExternalUnknown) else if late then Some(PendingTooLong) else None)
            && failed.Ok? && failed.value.facts == b.facts
            && OnlyPostponed(b, failed.value, id, if late then Some(ExternalUnreachable) else None)
            && stuck == Ok(b))
      && (IsTerminal(t.status) ==> seen == Ok(b.(facts := facts)) && failed == Ok(b) && stuck == Ok(b))
  {
  }
}
