/** The double-entry ledger as a value: journals in insertion order and the cached
    balance of every provisioned account. A journal's id is its position. */
module Ledger {
  import opened Prelude

  // ------------------------------------------------------------------ accounts

  datatype AccountKind = UserAvailable | UserLocked | FeeIncome | ExternalBank | ExternalChain | DevMint

  predicate IsSystem(k: AccountKind) {
    k != UserAvailable && k != UserLocked
  }

  predicate AllowsNegative(k: AccountKind) {
    k == ExternalBank || k == ExternalChain || k == DevMint
  }

  /** An account is identified by value; system accounts have owner 0. */
  datatype Account = Account(kind: AccountKind, owner: nat, asset: string)

  datatype Posting = Posting(kind: AccountKind, owner: Option<nat>, asset: string, amount: real)

  function AccountOf(p: Posting): Account {
    Account(p.kind, if p.owner.Some? then p.owner.value else 0, p.asset)
  }

  // ------------------------------------------------------------------ journals

  datatype JournalEvent = Deposit | Withdrawal | OrderHold | OrderRelease | TradeEvent | DevFund | Reversal
  datatype ReferenceKind = RefOrder | RefTrade | RefTransfer | RefDevFund
  datatype ReleaseReason = ReasonCancel | ReasonMarketRemain | ReasonRejected

  /** The idempotency keys the services build. The formatted strings are distinct
      for distinct values, so the values themselves are the keys. */
  datatype JournalKey =
    | HoldKey(order: nat)
    | ReleaseKey(order: nat, reason: ReleaseReason)
    | TradeKey(trade: string)
    | WithdrawHoldKey(transfer: nat)
    | DepositSettleKey(ref: string)
    | WithdrawSettleKey(ref: string)
    | WithdrawRefundKey(ref: string)
    | ReversalKey(journal: nat)
    | OtherKey(text: string)

  datatype Journal = Journal(
    event: JournalEvent,
    key: JournalKey,
    refKind: ReferenceKind,
    refId: nat,
    reverses: Option<nat>,
    postings: seq<Posting>)

  datatype LedgerState = LedgerState(journals: seq<Journal>, balances: map<Account, real>)

  const EMPTY := LedgerState([], map[])

  // ---------------------------------------------------------------------- sums

  /** What a list of postings does to one account. */
  function Delta(ps: seq<Posting>, a: Account): real {
    if ps == [] then 0.0
    else Delta(ps[..|ps| - 1], a) + (if AccountOf(ps[|ps| - 1]) == a then ps[|ps| - 1].amount else 0.0)
  }

  /** What a list of postings adds up to in one asset, over all accounts. */
  function AssetSum(ps: seq<Posting>, asset: string): real {
    if ps == [] then 0.0
    else AssetSum(ps[..|ps| - 1], asset) + (if ps[|ps| - 1].asset == asset then ps[|ps| - 1].amount else 0.0)
  }

  /** The sum of every posting ever written to one account. */
  ghost function Posted(js: seq<Journal>, a: Account): real {
    if js == [] then 0.0 else Posted(js[..|js| - 1], a) + Delta(js[|js| - 1].postings, a)
  }

  /** The sum of every posting ever written in one asset. */
  ghost function PostedInAsset(js: seq<Journal>, asset: string): real {
    if js == [] then 0.0 else PostedInAsset(js[..|js| - 1], asset) + AssetSum(js[|js| - 1].postings, asset)
  }

  function Touched(ps: seq<Posting>): set<Account> {
    set p | p in ps :: AccountOf(p)
  }

  /** The cached balance; an account that was never provisioned reads as zero. */
  function Balance(l: LedgerState, a: Account): real {
    if a in l.balances then l.balances[a] else 0.0
  }

  // ---------------------------------------------------------------- validation

  predicate ValidPosting(p: Posting) {
    && p.asset != ""
    && p.amount != 0.0
    && (IsSystem(p.kind) <==> p.owner.None?)
  }

  /** At least two postings, each well formed, and a zero sum in every asset named. */
  predicate ValidJournal(j: Journal) {
    && |j.postings| >= 2
    && (j.event == Reversal <==> j.reverses.Some?)
    && (forall p :: p in j.postings ==> ValidPosting(p) && AssetSum(j.postings, p.asset) == 0.0)
  }

  lemma {:induction false} AssetSumOutside(ps: seq<Posting>, asset: string)
    requires forall p :: p in ps ==> p.asset != asset
    ensures AssetSum(ps, asset) == 0.0
  {
    if ps != [] {
      assert ps[|ps| - 1] in ps;
      AssetSumOutside(ps[..|ps| - 1], asset);
    }
  }

  /** A valid journal balances in every asset there is. */
  lemma ValidJournalBalances(j: Journal, asset: string)
    requires ValidJournal(j)
    ensures AssetSum(j.postings, asset) == 0.0
  {
    if forall p :: p in j.postings ==> p.asset != asset {
      AssetSumOutside(j.postings, asset);
    }
  }

  /** A posting names an asset and an amount, and an owner exactly on user accounts. */
  predicate IsWhole(p: Posting) {
    p.asset != "" && p.amount != 0.0 && (p.owner.Some? <==> p.kind == UserAvailable || p.kind == UserLocked)
  }

  predicate ZeroSum(ps: seq<Posting>, asset: string) {
    AssetSum(ps, asset) == 0.0
  }

  /** What validation asks for: two postings or more, all whole, a reversal exactly if
      something is reversed, and in every asset there is a zero sum. */
  lemma ValidJournalMeans(j: Journal)
    ensures ValidJournal(j) <==>
      && |j.postings| >= 2 && (j.event == Reversal <==> j.reverses.Some?)
      && (forall p :: p in j.postings ==> IsWhole(p)) && forall asset :: ZeroSum(j.postings, asset)
  {
    if ValidJournal(j) {
      forall asset ensures ZeroSum(j.postings, asset) {
        ValidJournalBalances(j, asset);
      }
    } else if (forall p :: p in j.postings ==> IsWhole(p)) && forall asset :: ZeroSum(j.postings, asset) {
      forall p | p in j.postings ensures ValidPosting(p) && AssetSum(j.postings, p.asset) == 0.0 {
        assert IsWhole(p) && ZeroSum(j.postings, p.asset);
      }
    }
  }

  // -------------------------------------------------------------------- lookup

  function FindKey(js: seq<Journal>, k: JournalKey): (r: Option<nat>)
    ensures r.Some? ==> r.value < |js| && js[r.value].key == k
    ensures r.None? ==> forall i :: 0 <= i < |js| ==> js[i].key != k
  {
    if js == [] then None
    else if js[|js| - 1].key == k then Some(|js| - 1)
    else FindKey(js[..|js| - 1], k)
  }

  predicate HasReversalOf(js: seq<Journal>, id: Option<nat>) {
    id.Some? && exists i :: 0 <= i < |js| && js[i].reverses == id
  }

  function Tuples(ps: seq<Posting>): seq<(Account, real)> {
    seq(|ps|, i requires 0 <= i < |ps| => (AccountOf(ps[i]), ps[i].amount))
  }

  /** Same event, same reference and the same postings in any order. */
  predicate SameJournal(stored: Journal, j: Journal) {
    && stored.event == j.event
    && stored.refKind == j.refKind
    && stored.refId == j.refId
    && stored.reverses == j.reverses
    && multiset(Tuples(stored.postings)) == multiset(Tuples(j.postings))
  }

  predicate WouldGoNegative(l: LedgerState, ps: seq<Posting>) {
    exists p :: p in ps && !AllowsNegative(p.kind) && Balance(l, AccountOf(p)) + Delta(ps, AccountOf(p)) < 0.0
  }

  // -------------------------------------------------------------------- record

  datatype Recorded = Recorded(ledger: LedgerState, id: nat, created: bool)

  function Post(l: LedgerState, j: Journal): LedgerState {
    LedgerState(
      l.journals + [j],
      map a | a in l.balances.Keys + Touched(j.postings) :: Balance(l, a) + Delta(j.postings, a))
  }

  /** One journal. A known key is settled before balances are looked at. */
  function Record(l: LedgerState, j: Journal): Result<Recorded> {
    if !ValidJournal(j) then Err(Invalid)
    else
      match FindKey(l.journals, j.key)
      case Some(i) =>
        if SameJournal(l.journals[i], j) then Ok(Recorded(l, i, false)) else Err(Conflict)
      case None =>
        if HasReversalOf(l.journals, j.reverses) || (j.reverses.Some? && j.reverses.value >= |l.journals|)
        then Err(Constraint)
        else if WouldGoNegative(l, j.postings) then Err(Conflict)
        else Ok(Recorded(Post(l, j), |l.journals|, true))
  }

  function Negated(ps: seq<Posting>): seq<Posting> {
    seq(|ps|, i requires 0 <= i < |ps| => ps[i].(amount := -ps[i].amount))
  }

  /** The journal that takes back journal `id`. */
  function ReversalOf(l: LedgerState, id: nat): Journal
    requires id < |l.journals|
  {
    var source := l.journals[id];
    Journal(Reversal, ReversalKey(id), source.refKind, source.refId, Some(id), Negated(source.postings))
  }

  function Reverse(l: LedgerState, id: nat): Result<Recorded> {
    if id >= |l.journals| then Err(NotFound) else Record(l, ReversalOf(l, id))
  }

  // ---------------------------------------------------------------------- runs

  datatype Call = RecordCall(journal: Journal) | ReverseCall(id: nat)

  function Step(l: LedgerState, c: Call): LedgerState {
    var r := match c
      case RecordCall(j) => Record(l, j)
      case ReverseCall(id) => Reverse(l, id);
    if r.Ok? then r.value.ledger else l
  }

  function Run(l: LedgerState, cs: seq<Call>): LedgerState {
    if cs == [] then l else Step(Run(l, cs[..|cs| - 1]), cs[|cs| - 1])
  }

  // ---------------------------------------------------------------- invariants

  ghost predicate Balanced(l: LedgerState) {
    forall i :: 0 <= i < |l.journals| ==> ValidJournal(l.journals[i])
  }

  ghost predicate CacheAgrees(l: LedgerState) {
    forall a :: Balance(l, a) == Posted(l.journals, a)
  }

  ghost predicate NonNegative(l: LedgerState) {
    forall a: Account :: !AllowsNegative(a.kind) ==> Balance(l, a) >= 0.0
  }

  ghost predicate KeysUnique(l: LedgerState) {
    && (forall i, k :: 0 <= i < k < |l.journals| ==> l.journals[i].key != l.journals[k].key)
    && (forall i, k :: 0 <= i < k < |l.journals| && l.journals[i].reverses.Some? ==>
          l.journals[i].reverses != l.journals[k].reverses)
  }

  ghost predicate Sound(l: LedgerState) {
    Balanced(l) && CacheAgrees(l) && NonNegative(l) && KeysUnique(l)
  }

  lemma {:induction false} DeltaUntouched(ps: seq<Posting>, a: Account)
    requires a !in Touched(ps)
    ensures Delta(ps, a) == 0.0
  {
    if ps != [] {
      var n := |ps| - 1;
      assert ps[n] in ps;
      assert forall p :: p in ps[..n] ==> p in ps;
      DeltaUntouched(ps[..n], a);
    }
  }

  /** Posting a journal moves every account by exactly the journal's own delta. */
  lemma PostMoves(l: LedgerState, j: Journal, a: Account)
    ensures Balance(Post(l, j), a) == Balance(l, a) + Delta(j.postings, a)
  {
    if a !in l.balances.Keys + Touched(j.postings) {
      DeltaUntouched(j.postings, a);
    }
  }

  /** Under a key not used before, a recorded journal is appended and moves every
      account by its own delta. */
  lemma RecordNewMoves(l: LedgerState, j: Journal)
    requires forall i :: 0 <= i < |l.journals| ==> l.journals[i].key != j.key
    requires Record(l, j).Ok?
    ensures var l' := Record(l, j).value.ledger;
      && l'.journals == l.journals + [j]
      && forall a :: Balance(l', a) == Balance(l, a) + Delta(j.postings, a)
  {
    assert FindKey(l.journals, j.key).None?;
    forall a ensures Balance(Post(l, j), a) == Balance(l, a) + Delta(j.postings, a) {
      PostMoves(l, j, a);
    }
  }

  /** No account that must stay non-negative is overdrawn by these changes. */
  ghost predicate Affords(l: LedgerState, change: Account -> real) {
    forall a: Account :: !AllowsNegative(a.kind) ==> Balance(l, a) + change(a) >= 0.0
  }

  /** The journal takes back nothing, or a journal on file that nothing has taken back. */
  predicate Revocable(l: LedgerState, j: Journal) {
    j.reverses.Some? ==>
      j.reverses.value < |l.journals| && forall i :: 0 <= i < |l.journals| ==> l.journals[i].reverses != j.reverses
  }

  /** What comes of a journal under a new key: it is refused if it takes back what cannot
      be taken back or overdraws an account, and otherwise it is on file and every balance
      has moved by its postings. */
  lemma NewJournalIsDecided(l: LedgerState, j: Journal)
    requires NonNegative(l) && ValidJournal(j) && forall i :: 0 <= i < |l.journals| ==> l.journals[i].key != j.key
    ensures
      if !Revocable(l, j) then Record(l, j) == Err(Constraint)
      else if !Affords(l, a => Delta(j.postings, a)) then Record(l, j) == Err(Conflict)
      else
        && Record(l, j).Ok? && Record(l, j).value.created && Record(l, j).value.id == |l.journals|
        && Record(l, j).value.ledger.journals == l.journals + [j]
        && forall a :: Balance(Record(l, j).value.ledger, a) == Balance(l, a) + Delta(j.postings, a)
  {
    hide ValidJournal;
    assert FindKey(l.journals, j.key).None?;
    forall a: Account
      ensures Balance(l, a) + Delta(j.postings, a) < 0.0 && !AllowsNegative(a.kind) ==> exists p :: p in j.postings && AccountOf(p) == a
    {
      if a !in Touched(j.postings) {
        DeltaUntouched(j.postings, a);
      }
    }
    if Record(l, j).Ok? {
      RecordNewMoves(l, j);
    }
  }

  lemma {:induction false} DeltaAppend(ps: seq<Posting>, qs: seq<Posting>, a: Account)
    ensures Delta(ps + qs, a) == Delta(ps, a) + Delta(qs, a)
  {
    if qs == [] {
      assert ps + qs == ps;
    } else {
      assert (ps + qs)[..|ps + qs| - 1] == ps + qs[..|qs| - 1];
      DeltaAppend(ps, qs[..|qs| - 1], a);
    }
  }

  function PostingAt(p: Posting, a: Account): real {
    if AccountOf(p) == a then p.amount else 0.0
  }

  lemma DeltaOfOne(p: Posting, a: Account)
    ensures Delta([p], a) == PostingAt(p, a)
  {
    assert [p][..0] == [];
  }

  lemma DeltaOfTwo(p: Posting, q: Posting, a: Account)
    ensures Delta([p, q], a) == PostingAt(p, a) + PostingAt(q, a)
  {
    assert [p, q] == [p] + [q];
    DeltaAppend([p], [q], a);
    DeltaOfOne(p, a);
    DeltaOfOne(q, a);
  }

  lemma {:induction false} AssetSumAppend(ps: seq<Posting>, qs: seq<Posting>, asset: string)
    ensures AssetSum(ps + qs, asset) == AssetSum(ps, asset) + AssetSum(qs, asset)
  {
    if qs == [] {
      assert ps + qs == ps;
    } else {
      assert (ps + qs)[..|ps + qs| - 1] == ps + qs[..|qs| - 1];
      AssetSumAppend(ps, qs[..|qs| - 1], asset);
    }
  }

  lemma AssetSumOfOne(p: Posting, asset: string)
    ensures AssetSum([p], asset) == if p.asset == asset then p.amount else 0.0
  {
    assert [p][..0] == [];
  }

  lemma AssetSumOfTwo(p: Posting, q: Posting, asset: string)
    ensures AssetSum([p, q], asset) ==
      (if p.asset == asset then p.amount else 0.0) + (if q.asset == asset then q.amount else 0.0)
  {
    assert [p, q] == [p] + [q];
    AssetSumAppend([p], [q], asset);
    AssetSumOfOne(p, asset);
    AssetSumOfOne(q, asset);
  }

  lemma PostKeepsSound(l: LedgerState, j: Journal)
    requires Sound(l)
    requires ValidJournal(j)
    requires FindKey(l.journals, j.key).None?
    requires !HasReversalOf(l.journals, j.reverses)
    requires !WouldGoNegative(l, j.postings)
    ensures Sound(Post(l, j))
  {
    var l' := Post(l, j);
    forall a ensures Balance(l', a) == Posted(l'.journals, a) {
      PostMoves(l, j, a);
      assert l'.journals[..|l'.journals| - 1] == l.journals;
    }
    forall a: Account | !AllowsNegative(a.kind) ensures Balance(l', a) >= 0.0 {
      PostMoves(l, j, a);
      if a in Touched(j.postings) {
        var p :| p in j.postings && AccountOf(p) == a;
        assert p.kind == a.kind;
      } else {
        DeltaUntouched(j.postings, a);
      }
    }
  }

  lemma RecordKeepsSound(l: LedgerState, j: Journal)
    requires Sound(l) && Record(l, j).Ok?
    ensures Sound(Record(l, j).value.ledger)
    ensures l.journals <= Record(l, j).value.ledger.journals
  {
    if Record(l, j).value.created {
      PostKeepsSound(l, j);
    }
  }

  lemma StepKeepsSound(l: LedgerState, c: Call)
    requires Sound(l)
    ensures Sound(Step(l, c))
    ensures l.journals <= Step(l, c).journals
  {
    hide Record, Sound;
    var j := match c
      case RecordCall(j) => Some(j)
      case ReverseCall(id) => if id < |l.journals| then Some(ReversalOf(l, id)) else None;
    if j.Some? && Record(l, j.value).Ok? {
      RecordKeepsSound(l, j.value);
    }
  }

  /** Every run of Record and Reverse calls keeps the ledger sound and only ever
      appends journals. */
  lemma {:induction false} RunKeepsSound(l: LedgerState, cs: seq<Call>)
    requires Sound(l)
    ensures Sound(Run(l, cs))
    ensures l.journals <= Run(l, cs).journals
  {
    if cs != [] {
      var prior := cs[..|cs| - 1];
      RunKeepsSound(l, prior);
      StepKeepsSound(Run(l, prior), cs[|cs| - 1]);
    }
  }

  /** Starting empty, after any run: the cache is the sum of postings, money in an
      asset is neither made nor lost, and only outside accounts are ever negative. */
  lemma LedgerConservesMoney(cs: seq<Call>, a: Account, asset: string)
    ensures var l := Run(EMPTY, cs);
      && Balance(l, a) == Posted(l.journals, a)
      && PostedInAsset(l.journals, asset) == 0.0
      && (Balance(l, a) < 0.0 ==> a.kind == ExternalBank || a.kind == ExternalChain || a.kind == DevMint)
  {
    RunKeepsSound(EMPTY, cs);
    BalancedJournalsSumToZero(Run(EMPTY, cs).journals, asset);
  }

  lemma {:induction false} BalancedJournalsSumToZero(js: seq<Journal>, asset: string)
    requires forall i :: 0 <= i < |js| ==> ValidJournal(js[i])
    ensures PostedInAsset(js, asset) == 0.0
  {
    if js != [] {
      ValidJournalBalances(js[|js| - 1], asset);
      BalancedJournalsSumToZero(js[..|js| - 1], asset);
    }
  }

  // -------------------------------------------------------------------- replay

  lemma KeyIsFound(l: LedgerState, i: nat)
    requires KeysUnique(l) && i < |l.journals|
    ensures FindKey(l.journals, l.journals[i].key) == Some(i)
  {
    var found := FindKey(l.journals, l.journals[i].key);
    assert found.Some?;
  }

  /** How often a list of postings puts an amount on an account. */
  function Count(ps: seq<Posting>, a: Account, amount: real): nat {
    if ps == [] then 0
    else
      var p := ps[|ps| - 1];
      Count(ps[..|ps| - 1], a, amount) + if AccountOf(p) == a && p.amount == amount then 1 else 0
  }

  /** Same event, same reference, and every amount on every account as often. */
  ghost predicate SameContent(stored: Journal, j: Journal) {
    && stored.event == j.event && stored.refKind == j.refKind && stored.refId == j.refId && stored.reverses == j.reverses
    && forall a, amount :: Count(stored.postings, a, amount) == Count(j.postings, a, amount)
  }

  lemma {:induction false} TuplesCount(ps: seq<Posting>, a: Account, amount: real)
    ensures multiset(Tuples(ps))[(a, amount)] == Count(ps, a, amount)
  {
    if ps != [] {
      var n := |ps| - 1;
      assert Tuples(ps) == Tuples(ps[..n]) + [(AccountOf(ps[n]), ps[n].amount)];
      TuplesCount(ps[..n], a, amount);
    } else {
      assert Tuples(ps) == [];
    }
  }

  lemma SameJournalMeans(stored: Journal, j: Journal)
    ensures SameJournal(stored, j) <==> SameContent(stored, j)
  {
    var s, t := multiset(Tuples(stored.postings)), multiset(Tuples(j.postings));
    forall a, amount
      ensures s[(a, amount)] == Count(stored.postings, a, amount) && t[(a, amount)] == Count(j.postings, a, amount)
    {
      TuplesCount(stored.postings, a, amount);
      TuplesCount(j.postings, a, amount);
    }
    if SameContent(stored, j) {
      forall x: (Account, real) ensures s[x] == t[x] {
        assert x == (x.0, x.1);
        assert Count(stored.postings, x.0, x.1) == Count(j.postings, x.0, x.1);
      }
      assert s == t;
    }
  }

  /** Under a known key a valid journal is answered by what it says alone: with the content
      on file it succeeds under the old id and changes nothing, with any other content it
      is refused. Balances play no part. */
  lemma KnownKeyIsAnswered(l: LedgerState, j: Journal, i: nat)
    requires KeysUnique(l) && ValidJournal(j) && i < |l.journals| && l.journals[i].key == j.key
    ensures Record(l, j) == if SameContent(l.journals[i], j) then Ok(Recorded(l, i, false)) else Err(Conflict)
  {
    hide SameContent, SameJournal, ValidJournal;
    KeyIsFound(l, i);
    SameJournalMeans(l.journals[i], j);
  }

  /** Whatever happens after a journal is recorded, recording under its key again either
      repeats it and changes nothing, or differs from it and is refused; current balances
      play no part in either answer. */
  lemma ReplayIsDecidedByContent(l: LedgerState, j: Journal, cs: seq<Call>, again: Journal)
    requires Sound(l)
    requires Record(l, j).Ok? && Record(l, j).value.created
    requires ValidJournal(again) && again.key == j.key
    ensures var later := Run(Record(l, j).value.ledger, cs);
      Record(later, again) == if SameContent(j, again) then Ok(Recorded(later, |l.journals|, false)) else Err(Conflict)
  {
    hide SameContent;
    PostKeepsSound(l, j);
    var first := Post(l, j);
    RunKeepsSound(first, cs);
    var later := Run(first, cs);
    var n := |l.journals|;
    assert later.journals[n] == j by {
      assert first.journals[n] == j;
      assert later.journals[..|first.journals|] == first.journals;
    }
    KnownKeyIsAnswered(later, again, n);
  }

  // ------------------------------------------------------------------- reversal

  lemma {:induction false} NegatedDelta(ps: seq<Posting>, a: Account)
    ensures Delta(Negated(ps), a) == -Delta(ps, a)
  {
    if ps != [] {
      var n := |ps| - 1;
      assert Negated(ps)[..n] == Negated(ps[..n]);
      NegatedDelta(ps[..n], a);
    }
  }

  lemma {:induction false} NegatedAssetSum(ps: seq<Posting>, asset: string)
    ensures AssetSum(Negated(ps), asset) == -AssetSum(ps, asset)
  {
    if ps != [] {
      var n := |ps| - 1;
      assert Negated(ps)[..n] == Negated(ps[..n]);
      NegatedAssetSum(ps[..n], asset);
    }
  }

  lemma ReversalIsValid(l: LedgerState, id: nat)
    requires Sound(l) && id < |l.journals|
    ensures ValidJournal(ReversalOf(l, id))
  {
    var ps := l.journals[id].postings;
    forall p | p in Negated(ps) ensures ValidPosting(p) && AssetSum(Negated(ps), p.asset) == 0.0 {
      var i :| 0 <= i < |ps| && p == ps[i].(amount := -ps[i].amount);
      assert ps[i] in ps;
      NegatedAssetSum(ps, p.asset);
    }
  }

  /** What comes of the first attempt to reverse a journal of sound books. */
  lemma ReversalIsDecided(l: LedgerState, id: nat)
    requires Sound(l) && id < |l.journals|
    requires forall i :: 0 <= i < |l.journals| ==> l.journals[i].key != ReversalKey(id) && l.journals[i].reverses != Some(id)
    ensures
      if !Affords(l, a => -Delta(l.journals[id].postings, a)) then Reverse(l, id) == Err(Conflict)
      else
        && Reverse(l, id).Ok? && Reverse(l, id).value.created && Reverse(l, id).value.id == |l.journals|
        && |Reverse(l, id).value.ledger.journals| == |l.journals| + 1 && l.journals <= Reverse(l, id).value.ledger.journals
        && forall a :: Balance(Reverse(l, id).value.ledger, a) == Balance(l, a) - Delta(l.journals[id].postings, a)
  {
    hide Record, Delta, Balanced, CacheAgrees, KeysUnique;
    var j := ReversalOf(l, id);
    assert ValidJournal(j) by { ReversalIsValid(l, id); }
    hide ValidJournal;
    forall a ensures Delta(j.postings, a) == -Delta(l.journals[id].postings, a) {
      NegatedDelta(l.journals[id].postings, a);
    }
    NewJournalIsDecided(l, j);
  }

  /** The first reversal takes the original back on every account; from then on, and
      whatever happens in between, reversing the same journal again is accepted and
      moves nothing. */
  lemma ReversalCancelsExactlyOnce(l: LedgerState, id: nat, cs: seq<Call>)
    requires Sound(l) && id < |l.journals|
    requires Reverse(l, id).Ok? && Reverse(l, id).value.created
    ensures var undone := Reverse(l, id).value.ledger;
      var later := Run(undone, cs);
      && (forall a :: Balance(undone, a) == Balance(l, a) - Delta(l.journals[id].postings, a))
      && Reverse(later, id) == Ok(Recorded(later, |l.journals|, false))
  {
    var j := ReversalOf(l, id);
    var undone := Reverse(l, id).value.ledger;
    forall a ensures Balance(undone, a) == Balance(l, a) - Delta(l.journals[id].postings, a) {
      PostMoves(l, j, a);
      NegatedDelta(l.journals[id].postings, a);
    }
    PostKeepsSound(l, j);
    RunKeepsSound(undone, cs);
    var later := Run(undone, cs);
    assert later.journals[id] == undone.journals[id] == l.journals[id];
    assert ReversalOf(later, id) == j;
    ReplayIsDecidedByContent(l, j, cs, j);
  }
}
