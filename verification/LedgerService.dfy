/** The ledger service as the program runs it: tables held in fields, deltas folded
    in loops, checks made before anything is written. */
module LedgerServices {
  import opened Prelude
  import opened Ledger

  /** Accepts a journal exactly when it has two postings or more, none of them empty,
      and the postings of every asset cancel out. */
  method ValidateJournal(j: Journal) returns (ok: bool)
    ensures ok <==> ValidJournal(j)
  {
    if |j.postings| < 2 || (j.event == Reversal) != j.reverses.Some? {
      return false;
    }
    var sums: map<string, real> := map[];
    for i := 0 to |j.postings|
      invariant forall p :: p in j.postings[..i] ==> ValidPosting(p) && p.asset in sums
      invariant forall asset :: asset in sums ==> sums[asset] == AssetSum(j.postings[..i], asset)
    {
      var p := j.postings[i];
      if !ValidPosting(p) {
        assert p in j.postings;
        return false;
      }
      assert j.postings[..i + 1][..i] == j.postings[..i];
      var before := 0.0;
      if p.asset in sums {
        before := sums[p.asset];
      } else {
        AssetSumOutside(j.postings[..i], p.asset);
      }
      sums := sums[p.asset := before + p.amount];
    }
    assert j.postings[..|j.postings|] == j.postings;
    var assets := sums.Keys;
    while assets != {}
      invariant assets <= sums.Keys
      invariant forall asset :: asset in sums.Keys - assets ==> sums[asset] == 0.0
      decreases |assets|
    {
      var asset :| asset in assets;
      if sums[asset] != 0.0 {
        if ValidJournal(j) {
          ValidJournalBalances(j, asset);
        }
        return false;
      }
      assets := assets - {asset};
    }
    return true;
  }

  class LedgerService {
    var journals: seq<Journal>
    var balances: map<Account, real>

    ghost function State(): LedgerState
      reads this
    {
      LedgerState(journals, balances)
    }

    constructor ()
      ensures State() == EMPTY
    {
      journals, balances := [], map[];
    }

    /** Folds the postings into one change per account. */
    static method FoldDeltas(ps: seq<Posting>) returns (deltas: map<Account, real>)
      ensures deltas.Keys == Touched(ps)
      ensures forall a :: a in deltas ==> deltas[a] == Delta(ps, a)
    {
      deltas := map[];
      for i := 0 to |ps|
        invariant deltas.Keys == Touched(ps[..i])
        invariant forall a :: a in deltas ==> deltas[a] == Delta(ps[..i], a)
      {
        var a := AccountOf(ps[i]);
        assert ps[..i + 1][..i] == ps[..i];
        assert ps[..i + 1] == ps[..i] + [ps[i]];
        var before := 0.0;
        if a in deltas {
          before := deltas[a];
        } else {
          DeltaUntouched(ps[..i], a);
        }
        deltas := deltas[a := before + ps[i].amount];
      }
      assert ps[..|ps|] == ps;
    }

    /** Creates the missing balance rows at zero. */
    method EnsureAccounts(accounts: set<Account>)
      modifies this`balances
      ensures balances.Keys == old(balances.Keys) + accounts
      ensures forall a :: Balance(State(), a) == old(Balance(State(), a))
    {
      balances := map a | a in balances.Keys + accounts :: if a in balances then balances[a] else 0.0;
    }

    method Record(j: Journal) returns (r: Result<(nat, bool)>)
      modifies this
      ensures match Ledger.Record(old(State()), j)
        case Ok(done) => r == Ok((done.id, done.created)) && State() == done.ledger
        case Err(e) => r == Err(e) && State() == old(State())
      ensures forall i :: 0 <= i < |old(journals)| && old(journals)[i].key == j.key && KeysUnique(old(State())) && ValidJournal(j) ==>
        State() == old(State()) && r == if SameContent(old(journals)[i], j) then Ok((i, false)) else Err(Conflict)
      ensures r.Ok? && r.value.1 ==> forall i :: 0 <= i < |old(journals)| ==> old(journals)[i].key != j.key
      ensures (r.Err? ==> State() == old(State())) && (!ValidJournal(j) ==> r == Err(Invalid))
      ensures NonNegative(old(State())) && ValidJournal(j) && (forall i :: 0 <= i < |old(journals)| ==> old(journals)[i].key != j.key) ==>
        if !Revocable(old(State()), j) then r == Err(Constraint)
        else if !Affords(old(State()), a => Delta(j.postings, a)) then r == Err(Conflict)
        else
          && r == Ok((|old(journals)|, true)) && journals == old(journals) + [j]
          && forall a :: Balance(State(), a) == Balance(old(State()), a) + Delta(j.postings, a)
    {
      ghost var before := State();
      if NonNegative(before) && ValidJournal(j) && forall i :: 0 <= i < |journals| ==> journals[i].key != j.key {
        NewJournalIsDecided(before, j);
      }
      if KeysUnique(before) && ValidJournal(j) {
        forall i | 0 <= i < |journals| && journals[i].key == j.key
          ensures Ledger.Record(before, j) == if SameContent(journals[i], j) then Ok(Recorded(before, i, false)) else Err(Conflict)
        {
          KnownKeyIsAnswered(before, j, i);
        }
      }
      hide SameContent, KeysUnique, NonNegative, Revocable, Affords;
      r := RecordRow(j);
    }

    method RecordRow(j: Journal) returns (r: Result<(nat, bool)>)
      modifies this
      ensures match Ledger.Record(old(State()), j)
        case Ok(done) => r == Ok((done.id, done.created)) && State() == done.ledger
        case Err(e) => r == Err(e) && State() == old(State())
    {
      var ok := ValidateJournal(j);
      if !ok {
        return Err(Invalid);
      }
      var existing := FindKey(journals, j.key);
      if existing.Some? {
        if SameJournal(journals[existing.value], j) {
          return Ok((existing.value, false));
        }
        return Err(Conflict);
      }
      if HasReversalOf(journals, j.reverses) || (j.reverses.Some? && j.reverses.value >= |journals|) {
        return Err(Constraint);
      }
      var deltas := FoldDeltas(j.postings);
      var negative := AnyNegative(deltas, j.postings);
      if negative {
        return Err(Conflict);
      }
      r := Ok((|journals|, true));
      ApplyDeltas(deltas, j);
    }

    /** Would any account that must stay non-negative be overdrawn? */
    method AnyNegative(deltas: map<Account, real>, ps: seq<Posting>) returns (negative: bool)
      requires deltas.Keys == Touched(ps)
      requires forall a :: a in deltas ==> deltas[a] == Delta(ps, a)
      ensures negative <==> WouldGoNegative(State(), ps)
    {
      var pending := deltas.Keys;
      while pending != {}
        invariant pending <= deltas.Keys
        invariant forall a :: a in deltas.Keys - pending && !AllowsNegative(a.kind) ==>
                    Balance(State(), a) + deltas[a] >= 0.0
        decreases |pending|
      {
        var a :| a in pending;
        var balance := if a in balances then balances[a] else 0.0;
        if balance + deltas[a] < 0.0 && !AllowsNegative(a.kind) {
          var p :| p in ps && AccountOf(p) == a;
          return true;
        }
        pending := pending - {a};
      }
      assert forall p :: p in ps ==> AccountOf(p) in deltas.Keys;
      return false;
    }

    /** Inserts the journal and moves the cached balances. */
    method ApplyDeltas(deltas: map<Account, real>, j: Journal)
      requires deltas.Keys == Touched(j.postings)
      requires forall a :: a in deltas ==> deltas[a] == Delta(j.postings, a)
      modifies this
      ensures State() == Post(old(State()), j)
    {
      ghost var before := State();
      EnsureAccounts(deltas.Keys);
      forall a | a in balances.Keys && a !in deltas ensures Delta(j.postings, a) == 0.0 {
        DeltaUntouched(j.postings, a);
      }
      assert forall a :: a in balances ==> balances[a] == Balance(before, a);
      balances := map a | a in balances.Keys :: balances[a] + (if a in deltas then deltas[a] else 0.0);
      journals := journals + [j];
      assert balances == Post(before, j).balances;
    }

    /** Writes the mirror image of a journal; the original stays. */
    method Reverse(id: nat) returns (r: Result<(nat, bool)>)
      modifies this
      ensures match Ledger.Reverse(old(State()), id)
        case Ok(done) => r == Ok((done.id, done.created)) && State() == done.ledger
        case Err(e) => r == Err(e) && State() == old(State())
      ensures id >= |old(journals)| ==> r == Err(NotFound)
      ensures Sound(old(State())) && id < |old(journals)|
              && (forall i :: 0 <= i < |old(journals)| ==> old(journals)[i].key != ReversalKey(id) && old(journals)[i].reverses != Some(id)) ==>
        var source := old(journals)[id].postings;
        if !Affords(old(State()), a => -Delta(source, a)) then r == Err(Conflict)
        else
          && r == Ok((|old(journals)|, true)) && |journals| == |old(journals)| + 1 && old(journals) <= journals
          && forall a :: Balance(State(), a) == Balance(old(State()), a) - Delta(source, a)
    {
      if Sound(State()) && id < |journals|
         && forall i :: 0 <= i < |journals| ==> journals[i].key != ReversalKey(id) && journals[i].reverses != Some(id) {
        ReversalIsDecided(State(), id);
      }
      hide Sound, Affords;
      r := ReverseRow(id);
    }

    method ReverseRow(id: nat) returns (r: Result<(nat, bool)>)
      modifies this
      ensures match Ledger.Reverse(old(State()), id)
        case Ok(done) => r == Ok((done.id, done.created)) && State() == done.ledger
        case Err(e) => r == Err(e) && State() == old(State())
    {
      if id >= |journals| {
        return Err(NotFound);
      }
      var source := journals[id];
      var postings: seq<Posting> := [];
      for i := 0 to |source.postings|
        invariant postings == Negated(source.postings[..i])
      {
        postings := postings + [source.postings[i].(amount := -source.postings[i].amount)];
      }
      assert source.postings[..|source.postings|] == source.postings;
      r := RecordRow(Journal(Reversal, ReversalKey(id), source.refKind, source.refId, Some(id), postings));
    }
  }
}
