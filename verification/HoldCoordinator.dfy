/** The hold coordinator: a whole group of requests in one transaction, and the fallback
    that takes them one by one. The batch claims keys, checks balances against a running
    copy, drops the keys of refused owners, and only then writes orders and holds. */
module HoldCoordinators {
  import opened Prelude
  import opened Ledger
  import opened Settlement
  import opened SettlementBatch
  import opened Orders
  import opened Holds

  // -------------------------------------------------- the one-by-one run in detail

  /** An owner whose key is not on file yet. */
  predicate IsActive(hs: HoldState, qs: seq<HoldRequest>, i: nat)
    requires i < |qs|
  {
    RoleAt(qs, i).Owner? && (qs[i].idem.None? || KeyOf(qs[i]) !in hs.keys)
  }

  ghost predicate Consistent(st: Store) {
    HoldKeysFresh(st) && NonNegative(st.ledger)
  }

  ghost predicate AssetsNamed(qs: seq<HoldRequest>) {
    forall i :: 0 <= i < |qs| ==> HoldAsset(qs[i].order) != ""
  }

  function At(hs: HoldState, qs: seq<HoldRequest>, n: nat): HoldState
    requires n <= |qs|
  {
    HoldEach(hs, qs, n).0
  }

  lemma {:induction false} ConsistentDuring(hs: HoldState, qs: seq<HoldRequest>, n: nat)
    requires n <= |qs| && Consistent(hs.store) && AssetsNamed(qs)
    ensures Consistent(At(hs, qs, n).store)
  {
    hide PlaceOrder, HoldKeysFresh, NonNegative;
    if n > 0 {
      ConsistentDuring(hs, qs, n - 1);
      var st := At(hs, qs, n - 1).store;
      PlaceKeepsConsistent(st, qs[n - 1].order);
    }
  }

  lemma PlaceKeepsConsistent(st: Store, o: Order)
    requires Consistent(st) && HoldAsset(o) != ""
    ensures PlaceOrder(st, o).Ok? ==> Consistent(PlaceOrder(st, o).value)
  {
    hide Record, HoldAsset;
    if HoldAmount(o) > 0.0 {
      AcceptedIffAffordable(st, o);
    }
  }

  /** Until its turn comes, nobody in the group takes an owner's key. */
  lemma {:induction false} KeyStillFree(hs: HoldState, qs: seq<HoldRequest>, n: nat, k: (nat, string))
    requires n <= |qs|
    requires forall e :: 0 <= e < n && RoleAt(qs, e).Owner? && qs[e].idem.Some? ==> KeyOf(qs[e]) != k
    ensures k in At(hs, qs, n).keys <==> k in hs.keys
    ensures k in hs.keys ==> At(hs, qs, n).keys[k] == hs.keys[k]
  {
    hide PlaceOrder;
    if n > 0 {
      KeyStillFree(hs, qs, n - 1, k);
    }
  }

  lemma OwnersDiffer(qs: seq<HoldRequest>, i: nat, e: nat)
    requires e < i < |qs| && RoleAt(qs, i).Owner? && qs[i].idem.Some? && qs[e].idem.Some?
    ensures KeyOf(qs[e]) != KeyOf(qs[i])
  {
    assert !SameKey(qs[e], qs[i]);
  }

  function NewRecord(q: HoldRequest, order: Option<nat>): KeyRecord
    requires q.idem.Some?
  {
    KeyRecord(q.idem.value.fingerprint, q.idem.value.version, order, OutcomePending)
  }

  /** What the one-by-one run does with request `i`. */
  lemma StepAt(hs: HoldState, qs: seq<HoldRequest>, i: nat)
    requires i < |qs|
    ensures var before, after, result := At(hs, qs, i), At(hs, qs, i + 1), HoldEach(hs, qs, i + 1).1[i];
      match RoleAt(qs, i)
      case Owner =>
        if IsActive(hs, qs, i) then
          (match PlaceOrder(before.store, qs[i].order)
           case Err(e) => after == before && result == Refused(e)
           case Ok(st) =>
             && after.store == st && result == Made(|before.store.orders| + 1)
             && after.keys == if qs[i].idem.None? then before.keys
                  else before.keys[KeyOf(qs[i]) := NewRecord(qs[i], Some(|before.store.orders| + 1))])
        else after == before && result == Known(hs.keys[KeyOf(qs[i])])
      case Follower(leader) => after == before && result == Following(HoldEach(hs, qs, i).1[leader])
      case Clash => after == before && result == Refused(Conflict)
    ensures HoldEach(hs, qs, i + 1).1[..i] == HoldEach(hs, qs, i).1
  {
    hide PlaceOrder;
    if RoleAt(qs, i).Owner? && qs[i].idem.Some? {
      forall e | 0 <= e < i && RoleAt(qs, e).Owner? && qs[e].idem.Some? ensures KeyOf(qs[e]) != KeyOf(qs[i]) {
        OwnersDiffer(qs, i, e);
      }
      KeyStillFree(hs, qs, i, KeyOf(qs[i]));
    }
  }

  /** What the first `n` requests of a group locked out of one account. */
  function AcceptedHolds(hs: HoldState, qs: seq<HoldRequest>, n: nat, a: Account): real
    requires n <= |qs|
  {
    if n == 0 then 0.0
    else
      AcceptedHolds(hs, qs, n - 1, a)
      + if IsActive(hs, qs, n - 1) && PlaceOrder(At(hs, qs, n - 1).store, qs[n - 1].order).Ok? && Available(qs[n - 1].order) == a
        then HoldAmount(qs[n - 1].order) else 0.0
  }

  /** However many requests share an account, what is accepted comes out of the balance it
      started with and never exceeds it. */
  lemma {:induction false} HoldsFitStartingBalance(hs: HoldState, qs: seq<HoldRequest>, n: nat, o: Order)
    requires n <= |qs| && Consistent(hs.store) && AssetsNamed(qs)
    ensures Balance(At(hs, qs, n).store.ledger, Available(o)) == Balance(hs.store.ledger, Available(o)) - AcceptedHolds(hs, qs, n, Available(o))
    ensures 0.0 <= AcceptedHolds(hs, qs, n, Available(o)) <= Balance(hs.store.ledger, Available(o))
  {
    hide HoldEach, Record, HoldAmount, HoldAsset, RoleAt, NonNegative, HoldKeysFresh;
    if n > 0 {
      HoldsFitStartingBalance(hs, qs, n - 1, o);
      ConsistentDuring(hs, qs, n - 1);
      ConsistentDuring(hs, qs, n);
      StepAt(hs, qs, n - 1);
      var st := At(hs, qs, n - 1).store;
      if HoldAmount(qs[n - 1].order) > 0.0 {
        AcceptedIffAffordable(st, qs[n - 1].order);
      }
      AvailableStays(At(hs, qs, n).store.ledger, o);
    } else {
      StartAt(hs, qs);
      AvailableStays(hs.store.ledger, o);
    }
  }

  lemma AvailableStays(l: LedgerState, o: Order)
    requires NonNegative(l)
    ensures Balance(l, Available(o)) >= 0.0
  {
  }

  /** An owner's key is on file afterwards exactly when its order was made. */
  lemma {:induction false} FailedOwnersLeaveNoKey(hs: HoldState, qs: seq<HoldRequest>, n: nat, i: nat)
    requires i < n <= |qs| && IsActive(hs, qs, i) && qs[i].idem.Some?
    ensures KeyOf(qs[i]) in At(hs, qs, n).keys <==> HoldEach(hs, qs, n).1[i].order.Some?
  {
    hide HoldEach, PlaceOrder, RoleAt;
    StepAt(hs, qs, n - 1);
    if i == n - 1 {
      OwnKeyFree(hs, qs, i);
    } else {
      FailedOwnersLeaveNoKey(hs, qs, n - 1, i);
      assert HoldEach(hs, qs, n).1[..n - 1][i] == HoldEach(hs, qs, n).1[i];
      if RoleAt(qs, n - 1).Owner? && qs[n - 1].idem.Some? {
        OwnersDiffer(qs, n - 1, i);
      }
    }
  }

  lemma OwnKeyFree(hs: HoldState, qs: seq<HoldRequest>, i: nat)
    requires i < |qs| && IsActive(hs, qs, i) && qs[i].idem.Some?
    ensures KeyOf(qs[i]) !in At(hs, qs, i).keys
  {
    hide HoldEach;
    forall e | 0 <= e < i && RoleAt(qs, e).Owner? && qs[e].idem.Some? ensures KeyOf(qs[e]) != KeyOf(qs[i]) {
      OwnersDiffer(qs, i, e);
    }
    KeyStillFree(hs, qs, i, KeyOf(qs[i]));
  }

  // ------------------------------------------------------------------- grouping

  method GroupIdempotentRequests(qs: seq<HoldRequest>) returns (roles: seq<Role>)
    ensures |roles| == |qs| && forall i :: 0 <= i < |qs| ==> roles[i] == RoleAt(qs, i) && HasRole(qs, i, roles[i])
  {
    hide HasRole, RoleAt;
    roles := AssignRoles(qs);
    forall i | 0 <= i < |qs| ensures HasRole(qs, i, roles[i]) {
      RolesMean(qs, i, roles[i]);
    }
  }

  method AssignRoles(qs: seq<HoldRequest>) returns (roles: seq<Role>)
    ensures |roles| == |qs| && forall i :: 0 <= i < |qs| ==> roles[i] == RoleAt(qs, i)
  {
    roles := [];
    var first: map<(nat, string), nat> := map[];
    for i := 0 to |qs|
      invariant |roles| == i
      invariant forall e :: 0 <= e < i ==> roles[e] == RoleAt(qs, e)
      invariant forall k :: k in first ==>
                  && first[k] < i && qs[first[k]].idem.Some? && KeyOf(qs[first[k]]) == k
                  && forall e :: 0 <= e < first[k] && qs[e].idem.Some? ==> KeyOf(qs[e]) != k
      invariant forall e :: 0 <= e < i && qs[e].idem.Some? ==> KeyOf(qs[e]) in first
    {
      var q := qs[i];
      if q.idem.None? {
        roles := roles + [Owner];
      } else if KeyOf(q) !in first {
        first := first[KeyOf(q) := i];
        roles := roles + [Owner];
      } else {
        var leader := first[KeyOf(q)];
        assert FirstWithKey(qs, i, 0) == leader by {
          var f := FirstWithKey(qs, i, 0);
          assert SameKey(qs[leader], qs[i]);
          assert f <= leader;
        }
        if qs[leader].idem.value.fingerprint == q.idem.value.fingerprint {
          roles := roles + [Follower(leader)];
        } else {
          roles := roles + [Clash];
        }
      }
    }
  }

  // ------------------------------------------------------------------- decisions

  /** The batch's verdicts are the one-by-one verdicts of the first `n` requests. */
  ghost predicate Decides(hs: HoldState, qs: seq<HoldRequest>, passing: seq<bool>, n: nat)
    requires n <= |qs| && n <= |passing|
  {
    forall i :: 0 <= i < n ==> (passing[i] <==> IsActive(hs, qs, i) && PlaceOrder(At(hs, qs, i).store, qs[i].order).Ok?)
  }

  ghost predicate AllPositive(qs: seq<HoldRequest>, passing: seq<bool>)
    requires |passing| <= |qs|
  {
    forall i :: 0 <= i < |passing| && passing[i] ==> HoldAmount(qs[i].order) > 0.0
  }

  /** The running copy of available balances agrees with a ledger. */
  ghost predicate CopyAgrees(copy: map<Account, real>, qs: seq<HoldRequest>, l: LedgerState) {
    forall i :: 0 <= i < |qs| ==>
      && Available(qs[i].order) in copy
      && copy[Available(qs[i].order)] == Balance(l, Available(qs[i].order))
  }

  lemma CopyFollows(copy: map<Account, real>, hs: HoldState, qs: seq<HoldRequest>, i: nat)
    requires i < |qs| && Consistent(At(hs, qs, i).store) && AssetsNamed(qs) && IsActive(hs, qs, i)
    requires CopyAgrees(copy, qs, At(hs, qs, i).store.ledger)
    requires HoldAmount(qs[i].order) > 0.0
    ensures var a := Available(qs[i].order);
      var left := copy[a] - HoldAmount(qs[i].order);
      && (left >= 0.0 <==> PlaceOrder(At(hs, qs, i).store, qs[i].order).Ok?)
      && (left >= 0.0 ==> CopyAgrees(copy[a := left], qs, At(hs, qs, i + 1).store.ledger))
      && (left < 0.0 ==> CopyAgrees(copy, qs, At(hs, qs, i + 1).store.ledger)
                         && PlaceOrder(At(hs, qs, i).store, qs[i].order) == Err(Conflict))
  {
    hide PlaceOrder, HoldEach, HoldAmount, HoldAsset;
    AcceptedIffAffordable(At(hs, qs, i).store, qs[i].order);
    StepAt(hs, qs, i);
  }

  lemma CopyNonNegative(copy: map<Account, real>, qs: seq<HoldRequest>, st: Store, i: nat)
    requires i < |qs| && Consistent(st) && CopyAgrees(copy, qs, st.ledger)
    ensures copy[Available(qs[i].order)] >= 0.0
  {
  }

  lemma StartAt(hs: HoldState, qs: seq<HoldRequest>)
    ensures At(hs, qs, 0) == hs && HoldEach(hs, qs, 0).1 == []
  {
  }

  lemma SameUnlessActive(hs: HoldState, qs: seq<HoldRequest>, i: nat)
    requires i < |qs| && !IsActive(hs, qs, i)
    ensures At(hs, qs, i + 1) == At(hs, qs, i)
  {
    hide HoldEach, PlaceOrder;
    StepAt(hs, qs, i);
  }

  /** The verdicts so far are right: an owner passes exactly when its order is accepted,
      and fails for want of balance only. */
  ghost predicate Verdicts(hs: HoldState, qs: seq<HoldRequest>, active: seq<bool>, passing: seq<bool>)
    requires |passing| <= |qs| == |active|
  {
    forall i :: 0 <= i < |passing| ==>
      && (passing[i] <==> active[i] && PlaceOrder(At(hs, qs, i).store, qs[i].order).Ok?)
      && (active[i] && !passing[i] ==> PlaceOrder(At(hs, qs, i).store, qs[i].order) == Err(Conflict))
  }

  lemma {:induction false} VerdictNext(hs: HoldState, qs: seq<HoldRequest>, active: seq<bool>, passing: seq<bool>, pass: bool)
    requires |passing| < |qs| == |active|
    ensures AllPositive(qs, passing + [pass]) <==>
      AllPositive(qs, passing) && (pass ==> HoldAmount(qs[|passing|].order) > 0.0)
    ensures var r := PlaceOrder(At(hs, qs, |passing|).store, qs[|passing|].order);
      Verdicts(hs, qs, active, passing + [pass]) <==>
      Verdicts(hs, qs, active, passing) && (pass <==> active[|passing|] && r.Ok?) && (active[|passing|] && !pass ==> r == Err(Conflict))
  {
    hide PlaceOrder, HoldAmount, At;
    var next := passing + [pass];
    assert next[|passing|] == pass;
    assert forall i :: 0 <= i < |passing| ==> next[i] == passing[i];
  }

  /** Folds the active owners over a copy of their available balances. */
  method CheckBalances(hs: HoldState, qs: seq<HoldRequest>, active: seq<bool>) returns (passing: seq<bool>)
    requires Consistent(hs.store) && AssetsNamed(qs)
    requires |active| == |qs| && forall i :: 0 <= i < |qs| ==> active[i] == IsActive(hs, qs, i)
    ensures |passing| == |qs|
    ensures AllPositive(qs, passing) ==> Decides(hs, qs, passing, |qs|)
    ensures AllPositive(qs, passing) ==> forall i :: 0 <= i < |qs| && active[i] && !passing[i] ==>
              PlaceOrder(At(hs, qs, i).store, qs[i].order) == Err(Conflict)
    ensures forall i :: 0 <= i < |qs| && passing[i] ==> active[i]
  {
    passing := FoldBalances(hs, qs, active);
  }

  method FoldBalances(hs: HoldState, qs: seq<HoldRequest>, active: seq<bool>) returns (passing: seq<bool>)
    requires Consistent(hs.store) && AssetsNamed(qs)
    requires |active| == |qs| && forall i :: 0 <= i < |qs| ==> active[i] == IsActive(hs, qs, i)
    ensures |passing| == |qs| && (AllPositive(qs, passing) ==> Verdicts(hs, qs, active, passing))
    ensures forall i :: 0 <= i < |qs| && passing[i] ==> active[i]
  {
    hide PlaceOrder, HoldAmount, At, IsActive, Consistent, AssetsNamed, Verdicts, AllPositive;
    passing := [];
    var copy := map i | 0 <= i < |qs| :: Available(qs[i].order) := Balance(hs.store.ledger, Available(qs[i].order));
    StartAt(hs, qs);
    NoVerdicts(hs, qs, active);
    for i := 0 to |qs|
      invariant |passing| == i
      invariant forall e :: 0 <= e < i && passing[e] ==> active[e]
      invariant forall e :: 0 <= e < |qs| ==> Available(qs[e].order) in copy
      invariant AllPositive(qs, passing) ==> Verdicts(hs, qs, active, passing) && CopyAgrees(copy, qs, At(hs, qs, i).store.ledger)
    {
      var a := Available(qs[i].order);
      var left := copy[a] - HoldAmount(qs[i].order);
      var pass := active[i] && left >= 0.0;
      VerdictNext(hs, qs, active, passing, pass);
      ConsistentDuring(hs, qs, i);
      if !active[i] {
        SameUnlessActive(hs, qs, i);
      } else if AllPositive(qs, passing) {
        CopyNonNegative(copy, qs, At(hs, qs, i).store, i);
        if HoldAmount(qs[i].order) > 0.0 {
          CopyFollows(copy, hs, qs, i);
        }
      }
      if pass {
        copy := copy[a := left];
      }
      passing := passing + [pass];
    }
  }

  lemma NoVerdicts(hs: HoldState, qs: seq<HoldRequest>, active: seq<bool>)
    requires |active| == |qs|
    ensures Verdicts(hs, qs, active, [])
  {
  }

  // ------------------------------------------------------------------------ keys

  /** The key table with a record for each flagged owner among the first `n`. */
  function KeyTable(
    base: map<(nat, string), KeyRecord>, qs: seq<HoldRequest>, flags: seq<bool>, links: seq<Option<nat>>, n: nat
  ): map<(nat, string), KeyRecord>
    requires n <= |qs| && n <= |flags| && n <= |links|
  {
    if n == 0 then base
    else
      var before := KeyTable(base, qs, flags, links, n - 1);
      if flags[n - 1] && qs[n - 1].idem.Some?
      then before[KeyOf(qs[n - 1]) := NewRecord(qs[n - 1], links[n - 1])] else before
  }

  function Unlinked(n: nat): seq<Option<nat>> {
    seq(n, _ => None)
  }

  /** Flagged owners have pairwise different keys that are not in the old table. */
  ghost predicate OwnersOnly(base: map<(nat, string), KeyRecord>, qs: seq<HoldRequest>, flags: seq<bool>) {
    && |flags| == |qs|
    && (forall e :: 0 <= e < |qs| && flags[e] && qs[e].idem.Some? ==> KeyOf(qs[e]) !in base)
    && (forall e, f :: 0 <= e < f < |qs| && flags[e] && flags[f] && qs[e].idem.Some? && qs[f].idem.Some? ==>
          KeyOf(qs[e]) != KeyOf(qs[f]))
  }

  lemma ActiveAreOwners(hs: HoldState, qs: seq<HoldRequest>, active: seq<bool>)
    requires |active| == |qs| && forall i :: 0 <= i < |qs| && active[i] ==> IsActive(hs, qs, i)
    ensures OwnersOnly(hs.keys, qs, active)
  {
    forall e, f | 0 <= e < f < |qs| && active[e] && active[f] && qs[e].idem.Some? && qs[f].idem.Some?
      ensures KeyOf(qs[e]) != KeyOf(qs[f])
    {
      OwnersDiffer(qs, f, e);
    }
  }

  lemma {:induction false} TableLookup(
    base: map<(nat, string), KeyRecord>, qs: seq<HoldRequest>, flags: seq<bool>, links: seq<Option<nat>>, n: nat, k: (nat, string))
    requires n <= |qs| && n <= |flags| && n <= |links| && k !in base
    requires forall e :: 0 <= e < n && flags[e] && qs[e].idem.Some? ==> KeyOf(qs[e]) != k
    ensures k !in KeyTable(base, qs, flags, links, n)
  {
    if n > 0 {
      TableLookup(base, qs, flags, links, n - 1, k);
    }
  }

  /** Claims the key of every owner that is new; the rest already have a record. */
  method ClaimKeys(hs: HoldState, qs: seq<HoldRequest>, roles: seq<Role>)
    returns (keys: map<(nat, string), KeyRecord>, active: seq<bool>)
    requires |roles| == |qs| && forall i :: 0 <= i < |qs| ==> roles[i] == RoleAt(qs, i)
    ensures |active| == |qs| && forall i :: 0 <= i < |qs| ==> active[i] == IsActive(hs, qs, i)
    ensures keys == KeyTable(hs.keys, qs, active, Unlinked(|qs|), |qs|)
  {
    hide RoleAt;
    keys, active := hs.keys, [];
    for i := 0 to |qs|
      invariant |active| == i
      invariant forall e :: 0 <= e < i ==> active[e] == IsActive(hs, qs, e)
      invariant keys == KeyTable(hs.keys, qs, active, Unlinked(|qs|), i)
    {
      var q := qs[i];
      var claims := roles[i].Owner? && (q.idem.None? || KeyOf(q) !in hs.keys);
      if claims && q.idem.Some? {
        keys := keys[KeyOf(q) := NewRecord(q, None)];
      }
      SameFlags(hs.keys, qs, active, active + [claims], Unlinked(|qs|), i);
      active := active + [claims];
    }
  }

  lemma {:induction false} SameFlags(
    base: map<(nat, string), KeyRecord>, qs: seq<HoldRequest>, flags: seq<bool>, flags': seq<bool>, links: seq<Option<nat>>, n: nat)
    requires n <= |qs| && n <= |flags| && n <= |flags'| && n <= |links|
    requires forall e :: 0 <= e < n ==> flags[e] == flags'[e]
    ensures KeyTable(base, qs, flags', links, n) == KeyTable(base, qs, flags, links, n)
  {
    if n > 0 {
      SameFlags(base, qs, flags, flags', links, n - 1);
    }
  }

  function RefusedKeys(qs: seq<HoldRequest>, active: seq<bool>, passing: seq<bool>, n: nat): set<(nat, string)>
    requires n <= |qs| && n <= |active| && n <= |passing|
  {
    if n == 0 then {}
    else
      RefusedKeys(qs, active, passing, n - 1)
      + (if active[n - 1] && !passing[n - 1] && qs[n - 1].idem.Some? then {KeyOf(qs[n - 1])} else {})
  }

  lemma {:induction false} RefusedLookup(qs: seq<HoldRequest>, active: seq<bool>, passing: seq<bool>, n: nat, k: (nat, string))
    requires n <= |qs| && n <= |active| && n <= |passing|
    requires forall e :: 0 <= e < n && active[e] && qs[e].idem.Some? ==> KeyOf(qs[e]) != k
    ensures k !in RefusedKeys(qs, active, passing, n)
  {
    if n > 0 {
      RefusedLookup(qs, active, passing, n - 1, k);
    }
  }

  /** Taking the refused keys out leaves the table of the accepted owners. */
  lemma {:induction false} DroppingRefused(
    base: map<(nat, string), KeyRecord>, qs: seq<HoldRequest>, active: seq<bool>, passing: seq<bool>, n: nat)
    requires n <= |qs| == |passing| && OwnersOnly(base, qs, active)
    requires forall i :: 0 <= i < |qs| && passing[i] ==> active[i]
    ensures KeyTable(base, qs, active, Unlinked(|qs|), n) - RefusedKeys(qs, active, passing, n)
         == KeyTable(base, qs, passing, Unlinked(|qs|), n)
  {
    if n > 0 {
      DroppingRefused(base, qs, active, passing, n - 1);
      if active[n - 1] && qs[n - 1].idem.Some? {
        var k := KeyOf(qs[n - 1]);
        RefusedLookup(qs, active, passing, n - 1, k);
        TableLookup(base, qs, passing, Unlinked(|qs|), n - 1, k);
      }
    }
  }

  /** Deletes the keys of owners that were refused. */
  method DropRefused(
    base: map<(nat, string), KeyRecord>, qs: seq<HoldRequest>, active: seq<bool>, passing: seq<bool>,
    claimed: map<(nat, string), KeyRecord>) returns (keys: map<(nat, string), KeyRecord>)
    requires OwnersOnly(base, qs, active) && |passing| == |qs|
    requires forall i :: 0 <= i < |qs| && passing[i] ==> active[i]
    requires claimed == KeyTable(base, qs, active, Unlinked(|qs|), |qs|)
    ensures keys == KeyTable(base, qs, passing, Unlinked(|qs|), |qs|)
  {
    hide KeyTable;
    keys := claimed;
    for i := 0 to |qs|
      invariant keys == claimed - RefusedKeys(qs, active, passing, i)
    {
      if active[i] && !passing[i] && qs[i].idem.Some? {
        keys := keys - {KeyOf(qs[i])};
      }
    }
    DroppingRefused(base, qs, active, passing, |qs|);
  }

  lemma {:induction false} LinkingOne(
    base: map<(nat, string), KeyRecord>, qs: seq<HoldRequest>, flags: seq<bool>, links: seq<Option<nat>>, n: nat, i: nat, id: Option<nat>)
    requires i < n <= |qs| == |links| && OwnersOnly(base, qs, flags) && flags[i] && qs[i].idem.Some?
    ensures KeyTable(base, qs, flags, links[i := id], n)
         == KeyTable(base, qs, flags, links, n)[KeyOf(qs[i]) := NewRecord(qs[i], id)]
  {
    if i < n - 1 {
      LinkingOne(base, qs, flags, links, n - 1, i, id);
    } else {
      SameLinksWhereKeyed(base, qs, flags, links, links[i := id], i);
    }
  }

  /** Writes the order ids into the keys of the accepted owners. */
  method LinkKeys(
    base: map<(nat, string), KeyRecord>, qs: seq<HoldRequest>, passing: seq<bool>, ids: seq<Option<nat>>,
    unlinked: map<(nat, string), KeyRecord>) returns (keys: map<(nat, string), KeyRecord>)
    requires OwnersOnly(base, qs, passing) && |ids| == |qs|
    requires unlinked == KeyTable(base, qs, passing, Unlinked(|qs|), |qs|)
    ensures keys == KeyTable(base, qs, passing, ids, |qs|)
  {
    hide KeyTable;
    keys := unlinked;
    ghost var links := Unlinked(|qs|);
    for i := 0 to |qs|
      invariant |links| == |qs| && forall e :: 0 <= e < i && passing[e] && qs[e].idem.Some? ==> links[e] == ids[e]
      invariant keys == KeyTable(base, qs, passing, links, |qs|)
    {
      if passing[i] && qs[i].idem.Some? {
        LinkingOne(base, qs, passing, links, |qs|, i, ids[i]);
        keys := keys[KeyOf(qs[i]) := NewRecord(qs[i], ids[i])];
        links := links[i := ids[i]];
      }
    }
    SameLinksWhereKeyed(base, qs, passing, links, ids, |qs|);
  }

  lemma {:induction false} SameLinksWhereKeyed(
    base: map<(nat, string), KeyRecord>, qs: seq<HoldRequest>, flags: seq<bool>, links: seq<Option<nat>>, links': seq<Option<nat>>, n: nat)
    requires n <= |qs| && n <= |flags| && n <= |links| && n <= |links'|
    requires forall e :: 0 <= e < n && flags[e] && qs[e].idem.Some? ==> links[e] == links'[e]
    ensures KeyTable(base, qs, flags, links', n) == KeyTable(base, qs, flags, links, n)
  {
    if n > 0 {
      SameLinksWhereKeyed(base, qs, flags, links, links', n - 1);
    }
  }

  /** The one-by-one run leaves the same records. */
  lemma {:induction false} KeysOneByOne(hs: HoldState, qs: seq<HoldRequest>, passing: seq<bool>, ids: seq<Option<nat>>, n: nat)
    requires n <= |qs| == |passing| == |ids| && Decides(hs, qs, passing, |qs|)
    requires forall i :: 0 <= i < |qs| && passing[i] ==> ids[i] == Some(|At(hs, qs, i).store.orders| + 1)
    ensures At(hs, qs, n).keys == KeyTable(hs.keys, qs, passing, ids, n)
  {
    hide PlaceOrder, HoldEach, RoleAt;
    if n == 0 {
      StartAt(hs, qs);
    } else {
      KeysOneByOne(hs, qs, passing, ids, n - 1);
      StepAt(hs, qs, n - 1);
    }
  }

  // --------------------------------------------------------------------- writing

  /** Accepting orders touches the orders and the ledger only. */
  lemma {:induction false} RestUntouched(hs: HoldState, qs: seq<HoldRequest>, n: nat)
    requires n <= |qs|
    ensures At(hs, qs, n).store == hs.store.(orders := At(hs, qs, n).store.orders, ledger := At(hs, qs, n).store.ledger)
  {
    hide Record, RoleAt;
    if n > 0 {
      RestUntouched(hs, qs, n - 1);
    }
  }

  /** An accepted owner appends its order under the next id and records its hold. */
  lemma AcceptedStep(hs: HoldState, qs: seq<HoldRequest>, passing: seq<bool>, i: nat)
    requires |passing| == |qs| && i < |qs| && Decides(hs, qs, passing, |qs|)
    ensures var before, after := At(hs, qs, i).store, At(hs, qs, i + 1).store;
      if passing[i] then
        && after.orders == before.orders + [qs[i].order]
        && Record(before.ledger, PlaceJournal(|before.orders| + 1, qs[i].order)).Ok?
        && after.ledger == Record(before.ledger, PlaceJournal(|before.orders| + 1, qs[i].order)).value.ledger
      else after == before
  {
    hide HoldEach, Record;
    StepAt(hs, qs, i);
  }

  /** Inserts the accepted orders in order and hands out their ids. */
  method InsertOrders(hs: HoldState, qs: seq<HoldRequest>, passing: seq<bool>)
    returns (orders: seq<Order>, ids: seq<Option<nat>>)
    requires |passing| == |qs|
    ensures |ids| == |qs| && forall i :: 0 <= i < |qs| ==> (passing[i] <==> ids[i].Some?)
    ensures Decides(hs, qs, passing, |qs|) ==>
      && orders == At(hs, qs, |qs|).store.orders
      && forall i :: 0 <= i < |qs| && passing[i] ==> ids[i] == Some(|At(hs, qs, i).store.orders| + 1)
  {
    hide HoldEach, Record, PlaceOrder, IsActive, PlaceJournal, Decides;
    orders, ids := hs.store.orders, [];
    StartAt(hs, qs);
    for i := 0 to |qs|
      invariant |ids| == i && forall e :: 0 <= e < i ==> (passing[e] <==> ids[e].Some?)
      invariant Decides(hs, qs, passing, |qs|) ==>
                  && orders == At(hs, qs, i).store.orders
                  && forall e :: 0 <= e < i && passing[e] ==> ids[e] == Some(|At(hs, qs, e).store.orders| + 1)
    {
      if Decides(hs, qs, passing, |qs|) {
        AcceptedStep(hs, qs, passing, i);
      }
      if passing[i] {
        orders := orders + [qs[i].order];
        ids := ids + [Some(|orders|)];
      } else {
        ids := ids + [None];
      }
    }
  }

  /** Records one hold per accepted order. */
  method RecordHolds(hs: HoldState, qs: seq<HoldRequest>, passing: seq<bool>, ids: seq<Option<nat>>, provisioned: LedgerState)
    returns (r: Result<LedgerState>)
    requires |passing| == |qs| == |ids| && forall i :: 0 <= i < |qs| && passing[i] ==> ids[i].Some?
    requires SameBooks(hs.store.ledger, provisioned)
    requires AllPositive(qs, passing) ==> Decides(hs, qs, passing, |qs|)
    requires Decides(hs, qs, passing, |qs|) ==>
      forall i :: 0 <= i < |qs| && passing[i] ==> ids[i] == Some(|At(hs, qs, i).store.orders| + 1)
    ensures r.Ok? <==> AllPositive(qs, passing)
    ensures r.Ok? ==> SameBooks(At(hs, qs, |qs|).store.ledger, r.value)
  {
    hide HoldEach, Record, PlaceOrder, IsActive, PlaceJournal, Decides, SameBooks;
    StartAt(hs, qs);
    var l := provisioned;
    for i := 0 to |qs|
      invariant forall e :: 0 <= e < i && passing[e] ==> HoldAmount(qs[e].order) > 0.0
      invariant AllPositive(qs, passing) ==> SameBooks(At(hs, qs, i).store.ledger, l)
    {
      if AllPositive(qs, passing) {
        AcceptedStep(hs, qs, passing, i);
      }
      if passing[i] {
        if HoldAmount(qs[i].order) <= 0.0 {
          return Err(Invalid);
        }
        var j := PlaceJournal(ids[i].value, qs[i].order);
        if AllPositive(qs, passing) {
          SameBooksRecord(At(hs, qs, i).store.ledger, l, j);
        }
        var done := Record(l, j);
        if done.Err? {
          return Err(done.error);
        }
        l := done.value.ledger;
      }
    }
    return Ok(l);
  }

  /** What each request of a committed group is told. */
  method CollectResults(hs: HoldState, qs: seq<HoldRequest>, roles: seq<Role>, passing: seq<bool>, ids: seq<Option<nat>>)
    returns (results: seq<HoldResult>)
    requires |roles| == |passing| == |ids| == |qs| && forall i :: 0 <= i < |qs| ==> roles[i] == RoleAt(qs, i)
    requires Decides(hs, qs, passing, |qs|)
    requires forall i :: 0 <= i < |qs| && IsActive(hs, qs, i) && !passing[i] ==>
               PlaceOrder(At(hs, qs, i).store, qs[i].order) == Err(Conflict)
    requires forall i :: 0 <= i < |qs| && passing[i] ==> ids[i] == Some(|At(hs, qs, i).store.orders| + 1)
    ensures results == HoldEach(hs, qs, |qs|).1
  {
    hide HoldEach, PlaceOrder;
    StartAt(hs, qs);
    results := [];
    for i := 0 to |qs|
      invariant results == HoldEach(hs, qs, i).1
    {
      StepAt(hs, qs, i);
      var q := qs[i];
      match roles[i]
      case Owner =>
        if q.idem.Some? && KeyOf(q) in hs.keys {
          results := results + [Known(hs.keys[KeyOf(q)])];
        } else if passing[i] {
          results := results + [Made(ids[i].value)];
        } else {
          results := results + [Refused(Conflict)];
        }
      case Follower(leader) => results := results + [Following(results[leader])];
      case Clash => results := results + [Refused(Conflict)];
    }
  }

  // ------------------------------------------------------------- what a group gets

  /** A request got an order of its own, rather than sharing another's. */
  predicate IsMade(r: HoldResult) {
    r.order.Some? && !r.follower
  }

  /** The orders made for the first requests, in order. */
  function MadeOrders(qs: seq<HoldRequest>, results: seq<HoldResult>): seq<Order>
    requires |results| <= |qs|
  {
    if results == [] then []
    else
      var n := |results| - 1;
      MadeOrders(qs, results[..n]) + if IsMade(results[n]) then [qs[n].order] else []
  }

  /** The keys on file after them: each order made under a key is on file with it. */
  function MadeKeys(keys: map<(nat, string), KeyRecord>, qs: seq<HoldRequest>, results: seq<HoldResult>)
    : map<(nat, string), KeyRecord>
    requires |results| <= |qs|
  {
    if results == [] then keys
    else
      var n := |results| - 1;
      var before := MadeKeys(keys, qs, results[..n]);
      if IsMade(results[n]) && qs[n].idem.Some?
      then before[(qs[n].order.user, qs[n].idem.value.key) :=
        KeyRecord(qs[n].idem.value.fingerprint, qs[n].idem.value.version, results[n].order, OutcomePending)]
      else before
  }

  /** What their holds have done to an account. */
  function MadeMoves(qs: seq<HoldRequest>, results: seq<HoldResult>, a: Account): real
    requires |results| <= |qs|
  {
    if results == [] then 0.0
    else
      var n := |results| - 1;
      MadeMoves(qs, results[..n], a) + if IsMade(results[n]) then HoldMove(qs[n].order, a) else 0.0
  }

  predicate OnFile(hs: HoldState, q: HoldRequest) {
    q.idem.Some? && (q.order.user, q.idem.value.key) in hs.keys
  }

  /** What the last of these requests is told. A repetition shares the answer of the first
      under its key, another request under that key is refused; the first itself is told of
      the record on file, or gets an order exactly when its hold is positive and what is
      still available covers it. */
  ghost predicate Answered(hs: HoldState, qs: seq<HoldRequest>, results: seq<HoldResult>)
    requires 0 < |results| <= |qs|
  {
    var n := |results| - 1;
    var q, r := qs[n], results[n];
    && (forall k :: 0 <= k < n && IsFirst(qs, n, k) ==>
          r == if SamePrint(qs[k], q) then results[k].(follower := true) else HoldResult(None, Some(Conflict), false, None))
    && (IsFirst(qs, n, n) && OnFile(hs, q) ==>
          r == HoldResult(None, None, true, Some(hs.keys[(q.order.user, q.idem.value.key)])))
    && (IsFirst(qs, n, n) && !OnFile(hs, q) ==>
          && !r.follower && r.existing.None?
          && (r.order.Some? ==> r.err.None? && r.order.value == |hs.store.orders| + |MadeOrders(qs, results[..n])| + 1)
          && (r.order.None? ==> r.err.Some?)
          && (Consistent(hs.store) && AssetsNamed(qs) ==>
                var hold, free := HoldAmount(q.order),
                  Balance(hs.store.ledger, Available(q.order)) + MadeMoves(qs, results[..n], Available(q.order));
                && (r.order.Some? <==> hold > 0.0 && free >= hold)
                && (r.err == Some(Conflict) <==> hold > 0.0 && free < hold)))
  }

  /** The outcome of a group, told from the requests and the start alone. */
  ghost predicate GroupDecided(hs: HoldState, qs: seq<HoldRequest>, after: HoldState, results: seq<HoldResult>)
    requires |results| <= |qs|
  {
    && (forall n :: 0 < n <= |results| ==> Answered(hs, qs, results[..n]))
    && after.store.orders == hs.store.orders + MadeOrders(qs, results)
    && after.keys == MadeKeys(hs.keys, qs, results)
    && (Consistent(hs.store) && AssetsNamed(qs) ==>
          && |after.store.ledger.journals| == |hs.store.ledger.journals| + |MadeOrders(qs, results)|
          && forall a :: Balance(after.store.ledger, a) == Balance(hs.store.ledger, a) + MadeMoves(qs, results, a))
  }

  lemma NothingDecided(hs: HoldState, qs: seq<HoldRequest>)
    ensures GroupDecided(hs, qs, hs, [])
  {
    assert hs.store.orders + [] == hs.store.orders;
  }

  /** One more request, worked through after a decided part of the group. */
  lemma DecidedNext(hs: HoldState, qs: seq<HoldRequest>, mid: HoldState, done: seq<HoldResult>, after: HoldState, r: HoldResult)
    requires |done| < |qs| && GroupDecided(hs, qs, mid, done) && Answered(hs, qs, done + [r])
    requires after.store.orders == mid.store.orders + if IsMade(r) then [qs[|done|].order] else []
    requires after.keys == MadeKeys(hs.keys, qs, done + [r])
    requires Consistent(hs.store) && AssetsNamed(qs) ==>
      && |after.store.ledger.journals| == |mid.store.ledger.journals| + (if IsMade(r) then 1 else 0)
      && forall a :: Balance(after.store.ledger, a) ==
           Balance(mid.store.ledger, a) + if IsMade(r) then HoldMove(qs[|done|].order, a) else 0.0
    ensures GroupDecided(hs, qs, after, done + [r])
  {
    hide Answered, HoldMove, Consistent, AssetsNamed;
    var results := done + [r];
    assert results[..|done|] == done;
    forall n | 0 < n <= |results| ensures Answered(hs, qs, results[..n]) {
      if n <= |done| {
        assert results[..n] == done[..n];
      } else {
        assert results[..n] == results;
      }
    }
    assert after.store.orders == hs.store.orders + MadeOrders(qs, results);
  }

  lemma MadeNext(keys: map<(nat, string), KeyRecord>, qs: seq<HoldRequest>, done: seq<HoldResult>, r: HoldResult)
    requires |done| < |qs|
    ensures var q := qs[|done|];
      MadeKeys(keys, qs, done + [r]) ==
      if IsMade(r) && q.idem.Some?
      then MadeKeys(keys, qs, done)[(q.order.user, q.idem.value.key) :=
        KeyRecord(q.idem.value.fingerprint, q.idem.value.version, r.order, OutcomePending)]
      else MadeKeys(keys, qs, done)
  {
    assert (done + [r])[..|done|] == done;
  }

  /** Working through a group one request at a time decides it in this way. */
  lemma {:induction false} OneByOneDecides(hs: HoldState, qs: seq<HoldRequest>, n: nat)
    requires n <= |qs|
    ensures GroupDecided(hs, qs, At(hs, qs, n), HoldEach(hs, qs, n).1)
  {
    hide HoldEach, GroupDecided, Answered, PlaceOrder, RoleAt, Consistent, AssetsNamed;
    StartAt(hs, qs);
    if n == 0 {
      NothingDecided(hs, qs);
    } else {
      var done, mid, r := HoldEach(hs, qs, n - 1).1, At(hs, qs, n - 1), HoldEach(hs, qs, n).1[n - 1];
      OneByOneDecides(hs, qs, n - 1);
      StepAt(hs, qs, n - 1);
      assert HoldEach(hs, qs, n).1 == done + [r];
      StepAnswers(hs, qs, n - 1);
      StepWrites(hs, qs, n - 1);
      DecidedNext(hs, qs, mid, done, At(hs, qs, n), r);
    }
  }

  /** What one step writes. */
  lemma StepWrites(hs: HoldState, qs: seq<HoldRequest>, i: nat)
    requires i < |qs| && GroupDecided(hs, qs, At(hs, qs, i), HoldEach(hs, qs, i).1)
    ensures var mid, after, r := At(hs, qs, i), At(hs, qs, i + 1), HoldEach(hs, qs, i + 1).1[i];
      && after.store.orders == mid.store.orders + (if IsMade(r) then [qs[i].order] else [])
      && after.keys == MadeKeys(hs.keys, qs, HoldEach(hs, qs, i).1 + [r])
      && (Consistent(hs.store) && AssetsNamed(qs) ==>
           && |after.store.ledger.journals| == |mid.store.ledger.journals| + (if IsMade(r) then 1 else 0)
           && forall a :: Balance(after.store.ledger, a) ==
                Balance(mid.store.ledger, a) + if IsMade(r) then HoldMove(qs[i].order, a) else 0.0)
  {
    hide HoldEach, PlaceOrder, RoleAt, HoldMove, Consistent, AssetsNamed, HoldAmount, HoldAsset;
    StepAt(hs, qs, i);
    var mid, r := At(hs, qs, i), HoldEach(hs, qs, i + 1).1[i];
    MadeNext(hs.keys, qs, HoldEach(hs, qs, i).1, r);
    PlaceAdds(mid.store, qs[i].order);
    assert mid.store.orders + [] == mid.store.orders;
    if Consistent(hs.store) && AssetsNamed(qs) {
      ConsistentDuring(hs, qs, i);
      PlaceMoves(mid.store, qs, i);
    }
  }

  lemma PlaceAdds(st: Store, o: Order)
    ensures PlaceOrder(st, o).Ok? ==> PlaceOrder(st, o).value.orders == st.orders + [o]
  {
    hide Record;
  }

  lemma PlaceMoves(st: Store, qs: seq<HoldRequest>, i: nat)
    requires i < |qs| && Consistent(st) && AssetsNamed(qs)
    ensures var o := qs[i].order;
      && (PlaceOrder(st, o).Ok? <==> HoldAmount(o) > 0.0 && Balance(st.ledger, Available(o)) >= HoldAmount(o))
      && (PlaceOrder(st, o) == Err(Conflict) <==> HoldAmount(o) > 0.0 && Balance(st.ledger, Available(o)) < HoldAmount(o))
      && (PlaceOrder(st, o).Ok? ==>
            && |PlaceOrder(st, o).value.ledger.journals| == |st.ledger.journals| + 1
            && forall a :: Balance(PlaceOrder(st, o).value.ledger, a) == Balance(st.ledger, a) + HoldMove(o, a))
  {
    hide Record, HoldMove, HoldAmount;
    if HoldAmount(qs[i].order) > 0.0 {
      AcceptedIffAffordable(st, qs[i].order);
    }
  }

  lemma StepAnswers(hs: HoldState, qs: seq<HoldRequest>, i: nat)
    requires i < |qs| && GroupDecided(hs, qs, At(hs, qs, i), HoldEach(hs, qs, i).1)
    ensures Answered(hs, qs, HoldEach(hs, qs, i).1 + [HoldEach(hs, qs, i + 1).1[i]])
  {
    hide HoldEach, PlaceOrder, RoleAt, HoldMove, Consistent, AssetsNamed, HoldAmount, HoldAsset, MadeMoves, MadeKeys;
    StepAt(hs, qs, i);
    var done, r := HoldEach(hs, qs, i).1, HoldEach(hs, qs, i + 1).1[i];
    var results := done + [r];
    assert results[..i] == done && results[i] == r;
    RolesMean(qs, i, RoleAt(qs, i));
    forall k, e | 0 <= k <= i && 0 <= e <= i && IsFirst(qs, i, k) && IsFirst(qs, i, e) ensures k == e {
    }
    if RoleAt(qs, i).Owner? && Consistent(hs.store) && AssetsNamed(qs) {
      ConsistentDuring(hs, qs, i);
      PlaceMoves(At(hs, qs, i).store, qs, i);
    }
    if RoleAt(qs, i).Owner? && !OnFile(hs, qs[i]) {
      assert IsActive(hs, qs, i);
    }
  }

  lemma DecidedSame(hs: HoldState, qs: seq<HoldRequest>, after: HoldState, same: HoldState, results: seq<HoldResult>)
    requires |results| <= |qs| && GroupDecided(hs, qs, after, results)
    requires same.keys == after.keys && SameStore(same.store, after.store)
    ensures GroupDecided(hs, qs, same, results)
  {
    hide Answered, Consistent, AssetsNamed, MadeMoves, MadeOrders, MadeKeys;
  }

  // ------------------------------------------------------------------ coordinator

  class HoldCoordinator {
    var store: Store
    var keys: map<(nat, string), KeyRecord>

    function State(): HoldState
      reads this
    {
      HoldState(store, keys)
    }

    constructor (store: Store, keys: map<(nat, string), KeyRecord>)
      ensures State() == HoldState(store, keys)
    {
      this.store, this.keys := store, keys;
    }

    /** Owners in their own transactions, in arrival order; the others share or clash. */
    method FallbackPerRequest(qs: seq<HoldRequest>) returns (results: seq<HoldResult>)
      modifies this
      ensures HoldEach(old(State()), qs, |qs|) == (State(), results)
      ensures GroupDecided(old(State()), qs, State(), results)
    {
      OneByOneDecides(State(), qs, |qs|);
      hide HoldEach, GroupDecided;
      results := OneByOne(qs);
    }

    method OneByOne(qs: seq<HoldRequest>) returns (results: seq<HoldResult>)
      modifies this
      ensures HoldEach(old(State()), qs, |qs|) == (State(), results)
    {
      hide HoldOne, HasRole;
      var roles := GroupIdempotentRequests(qs);
      results := [];
      for i := 0 to |qs|
        invariant HoldEach(old(State()), qs, i) == (State(), results)
      {
        match roles[i]
        case Owner =>
          var (after, r) := HoldOne(State(), qs[i]);
          store, keys := after.store, after.keys;
          results := results + [r];
        case Follower(leader) => results := results + [Following(results[leader])];
        case Clash => results := results + [Refused(Conflict)];
      }
    }

    /** A group in one transaction. It commits exactly when every owner it lets through
        has something to hold, and then every request gets the decision, and every
        table the rows, that the fallback would have produced from the same start. */
    method HoldBatch(qs: seq<HoldRequest>) returns (r: Result<seq<HoldResult>>)
      requires Consistent(store) && AssetsNamed(qs)
      modifies this
      ensures r.Ok? ==>
        && r.value == HoldEach(old(State()), qs, |qs|).1
        && keys == HoldEach(old(State()), qs, |qs|).0.keys
        && SameStore(store, HoldEach(old(State()), qs, |qs|).0.store)
        && GroupDecided(old(State()), qs, State(), r.value)
      ensures r.Err? ==> State() == old(State())
      ensures (forall i :: 0 <= i < |qs| ==> HoldAmount(qs[i].order) > 0.0) ==> r.Ok?
    {
      OneByOneDecides(State(), qs, |qs|);
      hide HoldEach, Record, PlaceOrder, HoldAmount, IsActive, OwnersOnly, KeyTable, Decides, Consistent, AssetsNamed,
           GroupDecided, HasRole;
      var start := State();
      var roles := GroupIdempotentRequests(qs);
      var claimed, active := ClaimKeys(start, qs, roles);
      ActiveAreOwners(start, qs, active);
      var passing := CheckBalances(start, qs, active);
      var kept := DropRefused(keys, qs, active, passing, claimed);
      ActiveAreOwners(start, qs, passing);
      var orders, ids := InsertOrders(start, qs, passing);
      var accounts := set i, k | 0 <= i < |qs| && active[i] && k in {UserAvailable, UserLocked} ::
        Account(k, qs[i].order.user, HoldAsset(qs[i].order));
      var provisioned := store.ledger.(balances := map a | a in store.ledger.balances.Keys + accounts :: Balance(store.ledger, a));
      var recorded := RecordHolds(start, qs, passing, ids, provisioned);
      if recorded.Err? {
        return Err(recorded.error);
      }
      var linked := LinkKeys(keys, qs, passing, ids, kept);
      KeysOneByOne(start, qs, passing, ids, |qs|);
      RestUntouched(start, qs, |qs|);
      var results := CollectResults(start, qs, roles, passing, ids);
      store := store.(orders := orders, ledger := recorded.value);
      keys := linked;
      DecidedSame(start, qs, At(start, qs, |qs|), State(), results);
      return Ok(results);
    }
  }
}
