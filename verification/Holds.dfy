/** Accepting new orders: idempotency keys, holds, and the decision each request of a
    group gets when the group is worked through one request at a time. */
module Holds {
  import opened Prelude
  import opened Ledger
  import opened Settlement
  import opened Orders

  datatype Idem = Idem(key: string, fingerprint: string, version: nat)
  datatype HoldRequest = HoldRequest(order: Order, idem: Option<Idem>)

  datatype KeyOutcome = OutcomePending | OutcomeAccepted | OutcomeRejected | OutcomeUnknown
  datatype KeyRecord = KeyRecord(fingerprint: string, version: nat, order: Option<nat>, outcome: KeyOutcome)

  datatype HoldState = HoldState(store: Store, keys: map<(nat, string), KeyRecord>)

  /** What a caller learns: the order made, the error, and whether an earlier request
      owns the key. */
  datatype HoldResult = HoldResult(order: Option<nat>, err: Option<Error>, follower: bool, existing: Option<KeyRecord>)

  function Made(id: nat): HoldResult { HoldResult(Some(id), None, false, None) }
  function Refused(e: Error): HoldResult { HoldResult(None, Some(e), false, None) }
  function Known(record: KeyRecord): HoldResult { HoldResult(None, None, true, Some(record)) }
  function Following(leader: HoldResult): HoldResult { leader.(follower := true) }

  // ------------------------------------------------------------------ grouping

  function KeyOf(q: HoldRequest): (nat, string)
    requires q.idem.Some?
  {
    (q.order.user, q.idem.value.key)
  }

  predicate SameKey(p: HoldRequest, q: HoldRequest) {
    p.idem.Some? && q.idem.Some? && KeyOf(p) == KeyOf(q)
  }

  datatype Role = Owner | Follower(leader: nat) | Clash

  /** The first request from `k` on that has the key of request `i`. */
  function FirstWithKey(qs: seq<HoldRequest>, i: nat, k: nat): (leader: nat)
    requires k <= i < |qs|
    ensures k <= leader <= i
    ensures leader < i ==> SameKey(qs[leader], qs[i])
    ensures forall e :: k <= e < leader ==> !SameKey(qs[e], qs[i])
    decreases i - k
  {
    if k == i || SameKey(qs[k], qs[i]) then k else FirstWithKey(qs, i, k + 1)
  }

  /** The roles are decided by arrival: the first request with a key owns it, a later
      one with the same fingerprint follows it, any other later one clashes. */
  function RoleAt(qs: seq<HoldRequest>, i: nat): Role
    requires i < |qs|
  {
    var leader := FirstWithKey(qs, i, 0);
    if leader == i then Owner
    else if qs[leader].idem.value.fingerprint == qs[i].idem.value.fingerprint then Follower(leader)
    else Clash
  }

  /** Two requests of one user under one idempotency key. */
  predicate Alike(p: HoldRequest, q: HoldRequest) {
    p.idem.Some? && q.idem.Some? && p.order.user == q.order.user && p.idem.value.key == q.idem.value.key
  }

  /** Request `k` is the first of the group under the key of request `i`. */
  predicate IsFirst(qs: seq<HoldRequest>, i: nat, k: nat)
    requires i < |qs|
  {
    k <= i && (k < i ==> Alike(qs[k], qs[i])) && forall e :: 0 <= e < k ==> !Alike(qs[e], qs[i])
  }

  predicate SamePrint(p: HoldRequest, q: HoldRequest) {
    p.idem.Some? && q.idem.Some? && p.idem.value.fingerprint == q.idem.value.fingerprint
  }

  /** A role as the group itself decides it: the first request under a key owns it, a
      repetition follows that one, and another request under the same key clashes. */
  predicate HasRole(qs: seq<HoldRequest>, i: nat, role: Role)
    requires i < |qs|
  {
    match role
    case Owner => IsFirst(qs, i, i)
    case Follower(k) => k < i && IsFirst(qs, i, k) && SamePrint(qs[k], qs[i])
    case Clash => exists k :: 0 <= k < i && IsFirst(qs, i, k) && !SamePrint(qs[k], qs[i])
  }

  lemma RolesMean(qs: seq<HoldRequest>, i: nat, role: Role)
    requires i < |qs|
    ensures RoleAt(qs, i) == role <==> HasRole(qs, i, role)
  {
    var first := FirstWithKey(qs, i, 0);
    assert forall p: HoldRequest, q: HoldRequest :: SameKey(p, q) <==> Alike(p, q);
    assert IsFirst(qs, i, first);
    forall k | 0 <= k <= i && IsFirst(qs, i, k) ensures k == first {
    }
  }

  /** Every key in a group has exactly one owner, and a leader is that owner. */
  lemma LeadersAreOwners(qs: seq<HoldRequest>, i: nat)
    requires i < |qs| && !RoleAt(qs, i).Owner?
    ensures RoleAt(qs, FirstWithKey(qs, i, 0)) == Owner
    ensures forall k :: 0 <= k < |qs| && SameKey(qs[k], qs[i]) && RoleAt(qs, k).Owner? ==> k == FirstWithKey(qs, i, 0)
  {
    var leader := FirstWithKey(qs, i, 0);
    forall k | 0 <= k < |qs| && SameKey(qs[k], qs[i]) && RoleAt(qs, k).Owner? ensures k == leader {
      assert SameKey(qs[leader], qs[k]) && SameKey(qs[k], qs[leader]);
      assert RoleAt(qs, leader).Owner? by {
        var top := FirstWithKey(qs, leader, 0);
        assert SameKey(qs[top], qs[i]) || top == leader;
      }
    }
  }

  // ------------------------------------------------------------- one at a time

  /** One owner in one transaction: claim the key, then make the order and its hold; a
      refusal takes the key back with it. */
  function HoldOne(hs: HoldState, q: HoldRequest): (HoldState, HoldResult) {
    if q.idem.Some? && KeyOf(q) in hs.keys then (hs, Known(hs.keys[KeyOf(q)]))
    else
      match PlaceOrder(hs.store, q.order)
      case Err(e) => (hs, Refused(e))
      case Ok(st) =>
        var id := |hs.store.orders| + 1;
        var keys := if q.idem.None? then hs.keys
          else hs.keys[KeyOf(q) := KeyRecord(q.idem.value.fingerprint, q.idem.value.version, Some(id), OutcomePending)];
        (HoldState(st, keys), Made(id))
  }

  /** The first `n` requests of a group, one transaction each. */
  function HoldEach(hs: HoldState, qs: seq<HoldRequest>, n: nat): (r: (HoldState, seq<HoldResult>))
    requires n <= |qs|
    ensures |r.1| == n
  {
    if n == 0 then (hs, [])
    else
      var (mid, done) := HoldEach(hs, qs, n - 1);
      match RoleAt(qs, n - 1)
      case Owner => var (last, r) := HoldOne(mid, qs[n - 1]); (last, done + [r])
      case Follower(leader) => (mid, done + [Following(done[leader])])
      case Clash => (mid, done + [Refused(Conflict)])
  }

  // ----------------------------------------------------- when an order is accepted

  /** The ledger holds no hold for an order that does not exist yet. */
  ghost predicate HoldKeysFresh(st: Store) {
    forall i :: 0 <= i < |st.ledger.journals| && st.ledger.journals[i].key.HoldKey? ==>
      HasOrder(st.orders, st.ledger.journals[i].key.order)
  }

  function Available(o: Order): Account {
    Account(UserAvailable, o.user, HoldAsset(o))
  }

  /** What holding an order's money does to an account. */
  function HoldMove(o: Order, a: Account): real {
    if a == Account(UserAvailable, o.user, HoldAsset(o)) then -HoldAmount(o)
    else if a == Account(UserLocked, o.user, HoldAsset(o)) then HoldAmount(o) else 0.0
  }

  lemma HoldIsValid(id: nat, o: Order)
    requires HoldAmount(o) > 0.0 && HoldAsset(o) != ""
    ensures ValidJournal(PlaceJournal(id, o))
  {
    var ps := PlaceJournal(id, o).postings;
    assert ps[..1] == [ps[0]] && [ps[0]][..0] == [];
    assert AssetSum([ps[0]], HoldAsset(o)) == -HoldAmount(o);
  }

  lemma HoldDelta(o: Order, id: nat, a: Account)
    ensures Delta(PlaceJournal(id, o).postings, a) ==
      if a == Available(o) then -HoldAmount(o)
      else if a == Account(UserLocked, o.user, HoldAsset(o)) then HoldAmount(o) else 0.0
  {
    var ps := PlaceJournal(id, o).postings;
    DeltaOfTwo(ps[0], ps[1], a);
  }

  /** With a positive hold, acceptance is decided by the available balance alone, and it
      moves the hold from available to locked. */
  lemma AcceptedIffAffordable(st: Store, o: Order)
    requires HoldKeysFresh(st) && NonNegative(st.ledger) && HoldAmount(o) > 0.0 && HoldAsset(o) != ""
    ensures PlaceOrder(st, o).Ok? <==> Balance(st.ledger, Available(o)) >= HoldAmount(o)
    ensures PlaceOrder(st, o).Err? ==> PlaceOrder(st, o).error == Conflict
    ensures PlaceOrder(st, o).Ok? ==>
      var st' := PlaceOrder(st, o).value;
      && HoldKeysFresh(st') && NonNegative(st'.ledger)
      && st' == st.(orders := st.orders + [o], ledger := st'.ledger) && |st'.ledger.journals| == |st.ledger.journals| + 1
      && (forall a :: Balance(st'.ledger, a) == Balance(st.ledger, a) + HoldMove(o, a))
      && forall x: Order :: Balance(st'.ledger, Available(x)) ==
           Balance(st.ledger, Available(x)) - (if Available(x) == Available(o) then HoldAmount(o) else 0.0)
  {
    hide Delta, ValidJournal, HoldAmount, HoldAsset;
    var id := |st.orders| + 1;
    var j := PlaceJournal(id, o);
    HoldIsValid(id, o);
    assert FindKey(st.ledger.journals, j.key).None?;
    HoldAffordable(st.ledger, o, id);
    if PlaceOrder(st, o).Ok? {
      var l' := PlaceOrder(st, o).value.ledger;
      RecordNewMoves(st.ledger, j);
      forall a ensures Balance(l', a) == Balance(st.ledger, a) +
        (if a == Available(o) then -HoldAmount(o)
         else if a == Account(UserLocked, o.user, HoldAsset(o)) then HoldAmount(o) else 0.0)
      {
        HoldDelta(o, id, a);
      }
    }
  }

  lemma HoldAffordable(l: LedgerState, o: Order, id: nat)
    requires NonNegative(l) && HoldAmount(o) > 0.0
    ensures WouldGoNegative(l, PlaceJournal(id, o).postings) <==> Balance(l, Available(o)) < HoldAmount(o)
  {
    var ps := PlaceJournal(id, o).postings;
    HoldDelta(o, id, Available(o));
    HoldDelta(o, id, Account(UserLocked, o.user, HoldAsset(o)));
    assert AccountOf(ps[0]) == Available(o) && AccountOf(ps[1]) == Account(UserLocked, o.user, HoldAsset(o));
    if Balance(l, Available(o)) < HoldAmount(o) {
      assert ps[0] in ps;
    }
  }
}
