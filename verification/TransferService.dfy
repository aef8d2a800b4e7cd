/** The transfer service as it works on its tables: every call is one transaction that
    either changes rows, facts and ledger together or nothing. */
module TransferServices {
  import opened Prelude
  import opened Ledger
  import opened Transfers

  /** One more row, asking for this request; its effect is all that moved. */
  ghost predicate Added(b: TransferBook, b': TransferBook, q: Request, id: nat) {
    && id == |b.rows| + 1 && |b'.rows| == id && b'.rows == b.rows + [b'.rows[id - 1]] && b'.facts == b.facts
    && Asks(b'.rows[id - 1], q) && b'.rows[id - 1].status == Received
    && (Inv(b) ==> forall a :: Balance(b'.ledger, a) == Balance(b.ledger, a) + Effect(b'.rows[id - 1], a))
  }

  lemma InvalidIsRefused(b: TransferBook, q: Request)
    ensures !ValidRequest(q) ==> Submit(b, q) == Err(Invalid)
  {
  }

  /** What accepting a request is known to do. */
  lemma RequestFacts(b: TransferBook, q: Request)
    ensures Submit(b, q).Ok? ==>
      var (b', id) := Submit(b, q).value;
      && (Inv(b) ==> Inv(b'))
      && (OncePerKey(b.rows) ==> OncePerKey(b'.rows) && 1 <= id <= |b'.rows| && Asks(b'.rows[id - 1], q))
      && ((forall i :: 0 <= i < |b.rows| ==> !Matches(b.rows[i], q)) ==> Added(b, b', q, id))
    ensures forall i :: 0 <= i < |b.rows| && Matches(b.rows[i], q) && OncePerKey(b.rows) && ValidRequest(q) ==>
      Submit(b, q) == if Asks(b.rows[i], q) then Ok((b, i + 1)) else Err(Conflict)
    ensures (forall i :: 0 <= i < |b.rows| ==> !Matches(b.rows[i], q)) && ValidRequest(q) && Inv(b) && NonNegative(b.ledger) ==>
      (Submit(b, q).Ok? <==> (q.direction == Withdraws ==> Balance(b.ledger, Account(UserAvailable, q.user, q.asset)) >= q.amount))
  {
    hide Submit, Inv, OncePerKey, Asks, Effect, NonNegative, Matches;
    if Submit(b, q).Ok? {
      if Inv(b) {
        SubmitKeepsInv(b, q);
      }
      if OncePerKey(b.rows) {
        SubmitKeepsOnce(b, q);
        AcceptedIsOnFile(b, q);
      }
      if forall i :: 0 <= i < |b.rows| ==> !Matches(b.rows[i], q) {
        NewRequestIsAdded(b, q);
      }
    }
    forall i | 0 <= i < |b.rows| && Matches(b.rows[i], q) && OncePerKey(b.rows) && ValidRequest(q)
      ensures Submit(b, q) == if Asks(b.rows[i], q) then Ok((b, i + 1)) else Err(Conflict)
    {
      KnownRequestIsAnswered(b, q, i);
    }
    if (forall i :: 0 <= i < |b.rows| ==> !Matches(b.rows[i], q)) && ValidRequest(q) && Inv(b) && NonNegative(b.ledger) {
      NewRequestIsAffordable(b, q);
    }
  }

  /** What a final outcome is known to do. */
  lemma OutcomeFacts(b: TransferBook, id: nat, k: string, o: Outcome)
    ensures Inv(b) ==> Inv(OrSame(b, Resolve(b, id, k, o)))
    ensures var r := Resolve(b, id, k, o);
      && (r.Ok? ==> IsFinal(o) && k != "" && k in r.value.facts && r.value.facts == b.facts[k := r.value.facts[k]])
      && (r.Ok? && k in b.facts ==> r.value == b)
      && (!IsFinal(o) || k == "" ==> r == Err(Invalid))
    ensures Inv(b) && NonNegative(b.ledger) && HasRow(b, id) && IsFinal(o) && k != "" && k !in b.facts ==>
      var r, t := Resolve(b, id, k, o), b.rows[id - 1];
      && (t.status == Received ==>
            r.Ok? && r.value.ledger == b.ledger && r.value.rows == b.rows[id - 1 := t.(review := Some(TerminalBeforeDispatch))])
      && (t.status == Processing ==>
            && (r.Ok? ==> Settles(b, r.value, id, o))
            && (r.Ok? <==>
                (t.direction == Withdraws ==> Balance(b.ledger, Account(UserLocked, t.user, t.asset)) >= t.amount + t.fee)))
      && (IsTerminal(t.status) ==>
            && r.Ok? && r.value.ledger == b.ledger
            && r.value.rows == if o == OutcomeOf(t.status) then b.rows
                               else b.rows[id - 1 := t.(review := Some(ConflictingTerminalOutcome))])
  {
    hide Inv, Settles, NonNegative, Record;
    if Inv(b) {
      LearnKeepsInv(b, id, k, o);
    }
    if Inv(b) && NonNegative(b.ledger) && HasRow(b, id) && IsFinal(o) && k != "" && k !in b.facts {
      OutcomeIsDecided(b, id, k, o);
      if IsTerminal(b.rows[id - 1].status) {
        TerminalOutcomeMovesMoneyOnce(b, id, k, o);
      }
    }
  }

  class TransferService {
    var rows: seq<Transfer>
    var facts: map<string, Fact>
    var ledger: LedgerState

    function Book(): TransferBook
      reads this
    {
      TransferBook(rows, facts, ledger)
    }

    constructor (book: TransferBook)
      ensures Book() == book
    {
      rows, facts, ledger := book.rows, book.facts, book.ledger;
    }

    /** Looks for a request of the same user with the same client key. */
    method FindByClientKey(user: nat, key: string) returns (found: Option<nat>)
      ensures found == FindRequest(rows, user, key)
    {
      var i := |rows|;
      assert rows[..i] == rows;
      while i > 0
        invariant i <= |rows| && FindRequest(rows[..i], user, key) == FindRequest(rows, user, key)
      {
        i := i - 1;
        assert rows[..i + 1][..i] == rows[..i];
        if rows[i].user == user && rows[i].clientKey == key {
          return Some(i);
        }
      }
      return None;
    }

    /** Accepts a deposit or a withdrawal; a withdrawal locks its money in the same
        transaction. A key on file answers for itself: the same request gets its id again,
        another one is refused, and nothing changes. */
    method RequestTransfer(q: Request) returns (r: Result<nat>)
      modifies this
      ensures match Submit(old(Book()), q)
        case Ok((book, id)) => r == Ok(id) && Book() == book
        case Err(e) => r == Err(e) && Book() == old(Book())
      ensures Inv(old(Book())) ==> Inv(Book())
      ensures q.user == 0 || q.asset == "" || q.clientKey == "" || q.amount <= 0.0 || (q.rail == Bank && q.asset != "KRW") ==>
        r == Err(Invalid)
      ensures OncePerKey(old(rows)) ==> OncePerKey(rows) && (r.Ok? ==> 1 <= r.value <= |rows| && Asks(rows[r.value - 1], q))
      ensures forall i :: 0 <= i < |old(rows)| && Matches(old(rows)[i], q) && OncePerKey(old(rows)) && ValidRequest(q) ==>
        Book() == old(Book()) && r == if Asks(old(rows)[i], q) then Ok(i + 1) else Err(Conflict)
      ensures (forall i :: 0 <= i < |old(rows)| ==> !Matches(old(rows)[i], q)) && r.Ok? ==> Added(old(Book()), Book(), q, r.value)
      ensures (forall i :: 0 <= i < |old(rows)| ==> !Matches(old(rows)[i], q)) && ValidRequest(q)
              && Inv(old(Book())) && NonNegative(old(ledger)) ==>
        (r.Ok? <==> (q.direction == Withdraws ==> Balance(old(ledger), Account(UserAvailable, q.user, q.asset)) >= q.amount))
    {
      RequestFacts(Book(), q);
      InvalidIsRefused(Book(), q);
      hide Submit, Inv, OncePerKey, Asks, Added, NonNegative;
      r := AcceptRequest(q);
    }

    method AcceptRequest(q: Request) returns (r: Result<nat>)
      modifies this
      ensures match Submit(old(Book()), q)
        case Ok((book, id)) => r == Ok(id) && Book() == book
        case Err(e) => r == Err(e) && Book() == old(Book())
    {
      hide Record;
      if !ValidRequest(q) {
        return Err(Invalid);
      }
      var existing := FindByClientKey(q.user, q.clientKey);
      if existing.Some? {
        return if SameBody(rows[existing.value], q) then Ok(existing.value + 1) else Err(Conflict);
      }
      var row, id := NewRow(q), |rows| + 1;
      if q.direction == Withdraws {
        var held := Record(ledger, HoldJournal(id, row));
        if held.Err? {
          return Err(held.error);
        }
        row := row.(holdJournal := Some(held.value.id));
        ledger := held.value.ledger;
      }
      rows := rows + [row];
      return Ok(id);
    }

    /** The outside took the request, under a reference nobody else has. */
    method MarkDispatched(id: nat, ref: string) returns (r: Result<()>)
      modifies this
      ensures match SetDispatched(old(Book()), id, ref)
        case Ok(book) => r == Ok(()) && Book() == book
        case Err(e) => r == Err(e) && Book() == old(Book())
      ensures r.Ok? <==>
        1 <= id <= |old(rows)| && old(rows)[id - 1].status == Received && forall i :: 0 <= i < |old(rows)| ==> old(rows)[i].ref != Some(ref)
      ensures r.Ok? ==>
        && ledger == old(ledger) && facts == old(facts)
        && rows == old(rows)[id - 1 := old(rows)[id - 1].(status := Processing, ref := Some(ref), checkDelay := Some(10), attempts := 0)]
    {
      if id < 1 || id > |rows| || rows[id - 1].status != Received {
        return Err(NotFound);
      }
      for i := 0 to |rows|
        invariant Book() == old(Book()) && forall k :: 0 <= k < i ==> rows[k].ref != Some(ref)
      {
        if rows[i].ref == Some(ref) {
          return Err(Constraint);
        }
      }
      rows := rows[id - 1 := rows[id - 1].(status := Processing, ref := Some(ref), checkDelay := Some(POLL_BASE), attempts := 0)];
      return Ok(());
    }

    /** Settles a dispatched request: its journal, then its status. Every balance moves by
        the difference between the effects of the two statuses; the only thing that can
        stop it is a withdrawal whose money is not locked. */
    method ConfirmTerminal(id: nat, o: Outcome) returns (r: Result<()>)
      requires 1 <= id <= |rows| && IsFinal(o)
      modifies this
      ensures match Confirm(old(Book()), id, o)
        case Ok(book) => r == Ok(()) && Book() == book
        case Err(e) => r == Err(e) && Book() == old(Book())
      ensures old(Inv(Book()) && rows[id - 1].status == Processing) && r.Ok? ==>
        && Inv(Book()) && facts == old(facts) && rows == old(rows)[id - 1 := rows[id - 1]]
        && rows[id - 1].status == (if o == Success then Completed else Failed)
        && forall a :: Balance(ledger, a) ==
             Balance(old(ledger), a) + Effect(rows[id - 1], a) - Effect(old(rows)[id - 1], a)
      ensures old(Inv(Book()) && NonNegative(ledger) && rows[id - 1].status == Processing) ==>
        var t := old(rows)[id - 1];
        r.Ok? <==>
        (t.direction == Withdraws ==> Balance(old(ledger), Account(UserLocked, t.user, t.asset)) >= t.amount + t.fee)
    {
      ghost var book := Book();
      if Inv(book) && rows[id - 1].status == Processing {
        if Confirm(book, id, o).Ok? {
          ConfirmKeepsInv(book, id, o);
          ConfirmAccounted(book, id, o);
        }
        if NonNegative(ledger) {
          ConfirmableWhenLocked(book, id, o);
        }
      }
      hide Inv, Effect, NonNegative;
      hide Record;
      var t := rows[id - 1];
      if t.ref.None? {
        return Err(Invalid);
      }
      var resolution: Option<nat> := None;
      var journal := ConfirmationJournal(id, t, o);
      if journal.Some? {
        var done := Record(ledger, journal.value);
        if done.Err? {
          return Err(done.error);
        }
        ledger, resolution := done.value.ledger, Some(done.value.id);
      }
      rows := rows[id - 1 := t.(status := if o == Success then Completed else Failed,
                                resolution := resolution, review := None, checkDelay := None)];
      return Ok(());
    }

    /** A final outcome. A fact already known changes nothing; a new one settles a request
        in flight, and only calls for a look at one that was never sent or was settled
        otherwise. One that fails to settle leaves nothing behind, not even the fact. */
    method ResolveTransfer(id: nat, eventKey: string, o: Outcome) returns (r: Result<()>)
      modifies this
      ensures match Resolve(old(Book()), id, eventKey, o)
        case Ok(book) => r == Ok(()) && Book() == book
        case Err(e) => r == Err(e) && Book() == old(Book())
      ensures Inv(old(Book())) ==> Inv(Book())
      ensures r.Err? || eventKey in old(facts) ==> Book() == old(Book())
      ensures r.Ok? ==> facts == old(facts)[eventKey := facts[eventKey]] && facts.Keys == old(facts).Keys + {eventKey}
      ensures !IsFinal(o) || eventKey == "" ==> r == Err(Invalid)
      ensures var b := old(Book());
        Inv(b) && NonNegative(b.ledger) && HasRow(b, id) && IsFinal(o) && eventKey != "" && eventKey !in b.facts ==>
          var t := b.rows[id - 1];
          && (t.status == Received ==>
                r.Ok? && ledger == b.ledger && rows == b.rows[id - 1 := t.(review := Some(TerminalBeforeDispatch))])
          && (t.status == Processing ==>
                && (r.Ok? ==> Settles(b, Book(), id, o))
                && (r.Ok? <==>
                    (t.direction == Withdraws ==> Balance(b.ledger, Account(UserLocked, t.user, t.asset)) >= t.amount + t.fee)))
          && (IsTerminal(t.status) ==>
                && r.Ok? && ledger == b.ledger
                && rows == if o == OutcomeOf(t.status) then b.rows
                           else b.rows[id - 1 := t.(review := Some(ConflictingTerminalOutcome))])
    {
      OutcomeFacts(Book(), id, eventKey, o);
      hide Inv, Resolve, Settles, NonNegative;
      r := ResolveRow(id, eventKey, o);
    }

    method ResolveRow(id: nat, eventKey: string, o: Outcome) returns (r: Result<()>)
      modifies this
      ensures match Resolve(old(Book()), id, eventKey, o)
        case Ok(book) => r == Ok(()) && Book() == book
        case Err(e) => r == Err(e) && Book() == old(Book())
    {
      hide Inv, Confirm;
      if !IsFinal(o) || eventKey == "" {
        return Err(Invalid);
      }
      if id < 1 || id > |rows| {
        return Err(NotFound);
      }
      if eventKey in facts {
        return Ok(());
      }
      var before, status := facts, rows[id - 1].status;
      facts := facts[eventKey := Fact(id, o)];
      if status == Received {
        rows := rows[id - 1 := rows[id - 1].(review := Some(TerminalBeforeDispatch))];
      } else if status == Processing {
        r := ConfirmTerminal(id, o);
        if r.Err? {
          facts := before;
        }
        return;
      } else if (status == Completed) != (o == Success) {
        rows := rows[id - 1 := rows[id - 1].(review := Some(ConflictingTerminalOutcome))];
      }
      return Ok(());
    }

    method PostponeCheck(id: nat, review: Option<ReviewReason>)
      requires 1 <= id <= |rows|
      modifies this
      ensures Book() == Postpone(old(Book()), id, review)
    {
      var n := rows[id - 1].attempts + 1;
      var delay := BackoffInterval(n);
      rows := rows[id - 1 := rows[id - 1].(
        attempts := n, checkDelay := Some(delay), review := if review.Some? then review else rows[id - 1].review)];
    }

    /** An outcome that decides nothing: no money moves, and a request in flight is put off
        until it is looked at again. */
    method RecordObservation(id: nat, eventKey: string, o: Outcome, age: nat) returns (r: Result<()>)
      modifies this
      ensures ledger == old(ledger)
      ensures match Observe(old(Book()), id, eventKey, o, age)
        case Ok(book) => r == Ok(()) && Book() == book
        case Err(e) => r == Err(e) && Book() == old(Book())
      ensures var b := old(Book());
        HasRow(b, id) && !IsFinal(o) && eventKey != "" && eventKey !in b.facts ==>
          match b.rows[id - 1].status
          case Received => r == Err(Invalid)
          case Processing =>
            && r.Ok? && facts == b.facts[eventKey := Fact(id, o)]
            && OnlyPostponed(b, Book(), id,
                 if o == Unknown then Some(ExternalUnknown) else if age >= 1800 then Some(PendingTooLong) else None)
          case _ => r.Ok? && rows == b.rows && facts == b.facts[eventKey := Fact(id, o)]
    {
      ghost var b := Book();
      if HasRow(b, id) && !IsFinal(o) && eventKey != "" && eventKey !in b.facts {
        UndecidedIsPutOff(b, id, eventKey, o, age);
      }
      if IsFinal(o) || eventKey == "" {
        return Err(Invalid);
      }
      if id < 1 || id > |rows| {
        return Err(NotFound);
      }
      if eventKey in facts {
        return Ok(());
      }
      var status := rows[id - 1].status;
      if status == Received {
        return Err(Invalid);
      }
      facts := facts[eventKey := Fact(id, o)];
      if status == Processing {
        PostponeCheck(id, if o == Unknown then Some(ExternalUnknown)
                          else if age >= REVIEW_AFTER then Some(PendingTooLong) else None);
      }
      return Ok(());
    }
  }
}
