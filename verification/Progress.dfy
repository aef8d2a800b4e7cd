/** Consequences of the reservation invariant: transactions that cannot fail because the
    money they need is reserved, and the two places where the invariant would break. */
module Progress {
  import opened Prelude
  import opened Ledger
  import opened Fees
  import opened Settlement
  import opened Orders
  import opened Reservation
  import H = Holds
  import T = Transfers

  // ------------------------------------------------------------- start and soundness

  const NOTHING := Exchange(Store([], [], EMPTY, map[], map[]), [], map[])

  /** An empty exchange satisfies the invariant, so every run from nothing does. */
  lemma NothingIsReserved()
    ensures Inv(NOTHING) && Sound(NOTHING.store.ledger)
  {
    var b := TransfersOf(NOTHING);
    forall id: nat, a ensures T.PostedFor(b.ledger.journals, id, a) == T.EffectOf(b.rows, id, a) {
    }
    forall user, asset ensures Withdrawing(NOTHING.rows, user, asset) == 0.0 {
    }
  }

  /** The ledger afterwards is the ledger before or one recorded journal further. */
  ghost predicate OneJournalOn(l: LedgerState, l': LedgerState) {
    l' == l || exists j :: Record(l, j).Ok? && l' == Record(l, j).value.ledger
  }

  lemma EachStepRecordsOnce(x: Exchange, a: Action)
    ensures OneJournalOn(x.store.ledger, Do(x, a).store.ledger)
  {
    hide Record;
    var l, x' := x.store.ledger, Do(x, a);
    match a
    case Place(o) =>
      var j := PlaceJournal(|x.store.orders| + 1, o);
      assert x'.store.ledger == l || (Record(l, j).Ok? && x'.store.ledger == Record(l, j).value.ledger);
    case Settle(item) => if SettleTrade(x.store, item).Ok? { SettleRecordsOnce(x.store, item); }
    case Cancel(id) => CloseRecordsOnce(x, a, id);
    case Complete(c) => CloseRecordsOnce(x, a, c.order);
    case Reject(id) => CloseRecordsOnce(x, a, id);
    case Transferring(e) => TransferRecordsOnce(TransfersOf(x), e);
    case Fund(j) =>
  }

  lemma SettleRecordsOnce(st: Store, item: Item)
    requires SettleTrade(st, item).Ok?
    ensures OneJournalOn(st.ledger, SettleTrade(st, item).value.0.ledger)
  {
    hide ApplyTrade, FindTrade, Record;
    var t := WithFees(item.trade);
    if FindTrade(st.trades, t.key).None? {
      ApplyParts(st, t);
    }
  }

  lemma CloseRecordsOnce(x: Exchange, a: Action, id: nat)
    requires (a.Cancel? && a.id == id) || (a.Complete? && a.completion.order == id) || (a.Reject? && a.id == id)
    ensures OneJournalOn(x.store.ledger, Do(x, a).store.ledger)
  {
    hide Record;
  }

  lemma TransferRecordsOnce(b: T.TransferBook, e: T.Event)
    ensures OneJournalOn(b.ledger, T.Step(b, e).ledger)
  {
    hide Record;
  }

  lemma StepKeepsSound(x: Exchange, a: Action)
    requires Sound(x.store.ledger)
    ensures Sound(Do(x, a).store.ledger)
  {
    hide Do, Sound, Record;
    EachStepRecordsOnce(x, a);
    var l, l' := x.store.ledger, Do(x, a).store.ledger;
    if l' != l {
      var j :| Record(l, j).Ok? && l' == Record(l, j).value.ledger;
      RecordKeepsSound(l, j);
    }
  }

  // ---------------------------------------------------- what is reserved is there

  /** An open market buy that has spent more, fees included, than its budget. */
  predicate Overspent(o: Order) {
    IsOpen(o) && IsMarketBuy(o) && WithFee(o.filledQuote) > o.quote
  }

  /** None of a user's orders on an asset has overspent, one order left aside. */
  ghost predicate NoOtherOverspend(st: Store, user: nat, asset: string, id: nat) {
    forall i :: 0 <= i < |st.orders| && i + 1 != id && st.orders[i].user == user && HoldAsset(st.orders[i]) == asset ==>
      !Overspent(st.orders[i])
  }

  /** What a user has locked in an asset besides one order's reservation. */
  ghost function Others(x: Exchange, user: nat, asset: string, id: nat): real {
    Held(x.store, user, asset) - HeldBy(x.store, user, asset, id) + Withdrawing(x.rows, user, asset)
  }

  /** Only an overspent market buy reserves a negative amount. */
  lemma ReservationSign(x: Exchange, id: nat)
    requires Inv(x) && HasOrder(x.store.orders, id)
    ensures var o := x.store.orders[id - 1];
      Reserved(x.store.trades, id, o) < 0.0 <==> Overspent(o)
    ensures var o := x.store.orders[id - 1];
      IsOpen(o) && !IsMarketBuy(o) ==> Reserved(x.store.trades, id, o) > 0.0
  {
    ShapeOf(x, id);
    var o := x.store.orders[id - 1];
    if o.kind == Limit && IsOpen(o) {
      NotionalPositive(o.price, Remaining(o));
    }
  }

  lemma NotionalPositive(price: real, quantity: real)
    requires price > 0.0 && quantity > 0.0
    ensures Notional(price, quantity) > 0.0
  {
  }

  lemma {:induction false} OthersHold(x: Exchange, user: nat, asset: string, id: nat, n: nat)
    requires Inv(x) && NoOtherOverspend(x.store, user, asset, id) && n <= |x.store.orders|
    ensures HeldUpTo(x.store, user, asset, n) >= if 1 <= id <= n then HeldBy(x.store, user, asset, id) else 0.0
  {
    hide Inv, Reserved, Overspent;
    if n > 0 {
      OthersHold(x, user, asset, id, n - 1);
      ReservationSign(x, n);
    }
  }

  lemma {:induction false} WithdrawingNonNegative(rows: seq<T.Transfer>, user: nat, asset: string)
    requires forall i :: 0 <= i < |rows| ==> rows[i].amount > 0.0 && rows[i].fee >= 0.0
    ensures Withdrawing(rows, user, asset) >= 0.0
  {
    if rows != [] {
      WithdrawingNonNegative(rows[..|rows| - 1], user, asset);
    }
  }

  lemma OthersNonNegative(x: Exchange, user: nat, asset: string, id: nat)
    requires Inv(x) && NoOtherOverspend(x.store, user, asset, id)
    ensures Others(x, user, asset, id) >= 0.0
  {
    hide NoOtherOverspend;
    OthersHold(x, user, asset, id, |x.store.orders|);
    WithdrawingNonNegative(x.rows, user, asset);
  }

  /** The locked balance is one order's reservation and the others'. */
  lemma LockedSplits(x: Exchange, id: nat)
    requires Inv(x) && HasOrder(x.store.orders, id)
    ensures var o := x.store.orders[id - 1];
      Balance(x.store.ledger, Locked(o.user, HoldAsset(o))) ==
      Reserved(x.store.trades, id, o) + Others(x, o.user, HoldAsset(o), id)
  {
    hide Reserved;
  }

  // ----------------------------------------------------------------- closing an order

  /** An order gets a status, `amount` of its hold is available again, nothing else moves. */
  ghost predicate Released(st: Store, st': Store, id: nat, amount: real, status: Status)
    requires HasOrder(st.orders, id)
  {
    var o := st.orders[id - 1];
    && st' == st.(orders := st.orders[id - 1 := o.(status := status)], ledger := st'.ledger)
    && forall a :: Balance(st'.ledger, a) == Balance(st.ledger, a) +
         if a == H.Available(o) then amount
         else if a == Locked(o.user, HoldAsset(o)) then -amount else 0.0
  }

  /** An order is closed, and exactly what it reserved is available again. */
  ghost predicate GivenBack(st: Store, st': Store, id: nat, status: Status)
    requires HasOrder(st.orders, id)
  {
    && status != Pending && status != Partial
    && Released(st, st', id, Reserved(st.trades, id, st.orders[id - 1]), status)
  }

  lemma MoveIsValid(o: Order, from: AccountKind, to: AccountKind, amount: real, j: Journal)
    requires {from, to} == {UserAvailable, UserLocked} && amount > 0.0 && HoldAsset(o) != ""
    requires j.postings == MovePostings(o, from, to, amount) && j.event != Reversal && j.reverses.None?
    ensures ValidJournal(j)
  {
    var ps := j.postings;
    forall asset ensures AssetSum(ps, asset) == 0.0 {
      assert ps[..1] == [ps[0]] && [ps[0]][..0] == [];
      assert AssetSum([ps[0]], asset) == if HoldAsset(o) == asset then -amount else 0.0;
    }
  }

  /** A release under a new key is recorded exactly when the locked balance covers it. */
  lemma ReleaseRecords(l: LedgerState, id: nat, o: Order, amount: real, reason: ReleaseReason)
    requires Sound(l) && amount > 0.0 && HoldAsset(o) != ""
    requires FindKey(l.journals, ReleaseKey(id, reason)).None?
    ensures Record(l, ReleaseJournal(id, o, amount, reason)).Ok? <==>
      Balance(l, Locked(o.user, HoldAsset(o))) >= amount
  {
    hide Delta, ValidJournal;
    var j := ReleaseJournal(id, o, amount, reason);
    var ps := j.postings;
    MoveIsValid(o, UserLocked, UserAvailable, amount, j);
    DeltaOfTwo(ps[0], ps[1], AccountOf(ps[0]));
    DeltaOfTwo(ps[0], ps[1], AccountOf(ps[1]));
    assert ps[0] in ps;
  }

  lemma ReleaseKeyIsNew(x: Exchange, id: nat, reason: ReleaseReason)
    requires Inv(x) && HasOrder(x.store.orders, id) && IsOpen(x.store.orders[id - 1])
    ensures FindKey(x.store.ledger.journals, ReleaseKey(id, reason)).None?
  {
  }

  lemma ReleaseMoves(x: Exchange, id: nat, amount: real, reason: ReleaseReason, status: Status)
    requires Inv(x) && HasOrder(x.store.orders, id) && IsOpen(x.store.orders[id - 1])
    requires ReleaseAndClose(x.store, id, amount, reason, status).Ok?
    ensures Released(x.store, ReleaseAndClose(x.store, id, amount, reason, status).value, id, amount, status)
  {
    hide Inv, Record, Delta;
    var st, o := x.store, x.store.orders[id - 1];
    var j := ReleaseJournal(id, o, amount, reason);
    ReleaseKeyIsNew(x, id, reason);
    RecordNewMoves(st.ledger, j);
    forall a ensures Delta(j.postings, a) ==
      if a == H.Available(o) then amount else if a == Locked(o.user, HoldAsset(o)) then -amount else 0.0
    {
      DeltaOfTwo(j.postings[0], j.postings[1], a);
    }
  }

  /** Giving back all an open order reserves succeeds exactly when nothing else of the
      user has eaten into it. */
  lemma ReleaseSucceeds(x: Exchange, id: nat, reason: ReleaseReason, status: Status)
    requires Inv(x) && Sound(x.store.ledger) && HasOrder(x.store.orders, id) && IsOpen(x.store.orders[id - 1])
    requires Reserved(x.store.trades, id, x.store.orders[id - 1]) > 0.0
    ensures var o := x.store.orders[id - 1];
      ReleaseAndClose(x.store, id, Reserved(x.store.trades, id, o), reason, status).Ok? <==>
      Others(x, o.user, HoldAsset(o), id) >= 0.0
  {
    hide Inv, Record, Reserved, Others;
    var o := x.store.orders[id - 1];
    ShapeOf(x, id);
    ReleaseKeyIsNew(x, id, reason);
    ReleaseRecords(x.store.ledger, id, o, Reserved(x.store.trades, id, o), reason);
    LockedSplits(x, id);
  }

  /** What a cancellation that commits has done: every open order but a market buy, which
      has no quantity to give back, is closed and all it reserved is returned. */
  ghost predicate Cancels(st: Store, st': Store, id: nat)
    requires HasOrder(st.orders, id)
  {
    if IsOpen(st.orders[id - 1]) && !IsMarketBuy(st.orders[id - 1]) then GivenBack(st, st', id, Cancelled) else st' == st
  }

  lemma CancellationMoves(x: Exchange, id: nat)
    requires Inv(x) && HasOrder(x.store.orders, id) && CancelOrder(x.store, id).Ok?
    ensures Cancels(x.store, CancelOrder(x.store, id).value, id)
  {
    hide Inv, ReleaseAndClose, Released;
    var o := x.store.orders[id - 1];
    ShapeOf(x, id);
    if IsOpen(o) && !IsMarketBuy(o) {
      ReleaseMoves(x, id, Reserved(x.store.trades, id, o), ReasonCancel, Cancelled);
    }
  }

  /** An engine cancellation never fails for lack of money unless another of the user's
      orders overspent. */
  lemma CancellationSucceeds(x: Exchange, id: nat)
    requires Inv(x) && Sound(x.store.ledger) && HasOrder(x.store.orders, id)
    requires var o := x.store.orders[id - 1]; NoOtherOverspend(x.store, o.user, HoldAsset(o), id)
    ensures CancelOrder(x.store, id).Ok? && Cancels(x.store, CancelOrder(x.store, id).value, id)
  {
    hide Inv, ReleaseAndClose, Cancels, NoOtherOverspend, Others;
    var o := x.store.orders[id - 1];
    ShapeOf(x, id);
    if IsOpen(o) && !IsMarketBuy(o) {
      ReservationSign(x, id);
      OthersNonNegative(x, o.user, HoldAsset(o), id);
      ReleaseSucceeds(x, id, ReasonCancel, Cancelled);
    }
    CancellationMoves(x, id);
  }

  lemma RejectionMoves(x: Exchange, id: nat)
    requires Inv(x) && HasOrder(x.store.orders, id) && Parsed(x.store.orders[id - 1]) && RejectOrder(x.store, id).Ok?
    ensures GivenBack(x.store, RejectOrder(x.store, id).value, id, Rejected)
  {
    hide Inv, ReleaseAndClose, Released;
    UntouchedReserves(x, id);
    ReleaseMoves(x, id, HoldAmount(x.store.orders[id - 1]), ReasonRejected, Rejected);
  }

  /** Rejecting an order the engine never saw succeeds in the same way. */
  lemma RejectionSucceeds(x: Exchange, id: nat)
    requires Inv(x) && Sound(x.store.ledger) && HasOrder(x.store.orders, id) && Parsed(x.store.orders[id - 1])
    requires var o := x.store.orders[id - 1]; NoOtherOverspend(x.store, o.user, HoldAsset(o), id)
    ensures RejectOrder(x.store, id).Ok? && GivenBack(x.store, RejectOrder(x.store, id).value, id, Rejected)
  {
    hide Inv, ReleaseAndClose, GivenBack, NoOtherOverspend, Others;
    var o := x.store.orders[id - 1];
    UntouchedReserves(x, id);
    OthersNonNegative(x, o.user, HoldAsset(o), id);
    ReleaseSucceeds(x, id, ReasonRejected, Rejected);
    RejectionMoves(x, id);
  }

  /** An order nothing has happened to reserves what placing it locked. */
  lemma UntouchedReserves(x: Exchange, id: nat)
    requires Inv(x) && HasOrder(x.store.orders, id) && Parsed(x.store.orders[id - 1])
    ensures Reserved(x.store.trades, id, x.store.orders[id - 1]) == HoldAmount(x.store.orders[id - 1]) > 0.0
  {
    hide Inv;
    var o := x.store.orders[id - 1];
    ShapeOf(x, id);
    assert Remaining(o) == o.amount;
    if o.kind == Limit {
      NotionalPositive(o.price, o.amount);
    }
  }

  /** The status a completion leaves. */
  function CompletedStatus(o: Order, c: Completion): Status {
    if o.side == Buy then (if c.remainingQuote > 0.0 then Cancelled else Filled)
    else (if o.filled == o.amount then Filled else Cancelled)
  }

  /** Completing an open market order succeeds exactly when the database has seen the
      engine's fills and a buy has not, fees included, spent more than its budget; it
      then returns all the order reserves. The bound on a buy is exact whatever was
      filled, also short of the executable quote. */
  lemma CompletionSucceeds(x: Exchange, c: Completion)
    requires Inv(x) && Sound(x.store.ledger) && HasOrder(x.store.orders, c.order)
    requires var o := x.store.orders[c.order - 1];
      IsOpen(o) && o.kind == Market && NoOtherOverspend(x.store, o.user, HoldAsset(o), c.order)
    ensures var o := x.store.orders[c.order - 1];
      CompleteMarket(x.store, c).Ok? <==>
      c.filled <= o.filled && c.filledQuote <= o.filledQuote && (o.side == Buy ==> WithFee(o.filledQuote) <= o.quote)
    ensures CompleteMarket(x.store, c).Ok? ==>
      GivenBack(x.store, CompleteMarket(x.store, c).value, c.order, CompletedStatus(x.store.orders[c.order - 1], c))
  {
    hide Inv, ReleaseAndClose, Released, NoOtherOverspend, Others;
    var o := x.store.orders[c.order - 1];
    ShapeOf(x, c.order);
    ReservationSign(x, c.order);
    OthersNonNegative(x, o.user, HoldAsset(o), c.order);
    if Reserved(x.store.trades, c.order, o) > 0.0 {
      ReleaseSucceeds(x, c.order, ReasonMarketRemain, CompletedStatus(o, c));
    }
    if CompleteMarket(x.store, c).Ok? {
      CompletionMoves(x, c);
    }
  }

  lemma CompletionMoves(x: Exchange, c: Completion)
    requires Inv(x) && HasOrder(x.store.orders, c.order) && CompleteMarket(x.store, c).Ok?
    requires var o := x.store.orders[c.order - 1]; IsOpen(o) && o.kind == Market
    ensures GivenBack(x.store, CompleteMarket(x.store, c).value, c.order, CompletedStatus(x.store.orders[c.order - 1], c))
  {
    hide Inv, ReleaseAndClose;
    var o := x.store.orders[c.order - 1];
    var amount, status := Reserved(x.store.trades, c.order, o), CompletedStatus(o, c);
    if amount > 0.0 {
      ReleaseMoves(x, c.order, amount, ReasonMarketRemain, status);
    } else {
      assert CompleteMarket(x.store, c).value == Close(x.store, c.order, status);
    }
  }

  // ------------------------------------------------------------------- withdrawals

  lemma {:induction false} WithdrawingAtLeast(rows: seq<T.Transfer>, user: nat, asset: string, k: nat)
    requires forall i :: 0 <= i < |rows| ==> rows[i].amount > 0.0 && rows[i].fee >= 0.0
    requires k < |rows|
    ensures Withdrawing(rows, user, asset) >= T.Effect(rows[k], Locked(user, asset))
  {
    var n := |rows| - 1;
    if k < n {
      WithdrawingAtLeast(rows[..n], user, asset, k);
    } else {
      WithdrawingNonNegative(rows[..n], user, asset);
    }
  }

  /** A final outcome of a dispatched transfer can always be booked: a withdrawal's money
      is locked until then. */
  lemma ConfirmationSucceeds(x: Exchange, id: nat, o: T.Outcome)
    requires Inv(x) && Sound(x.store.ledger) && T.IsFinal(o)
    requires T.HasRow(TransfersOf(x), id) && x.rows[id - 1].status == T.Processing
    requires NoOtherOverspend(x.store, x.rows[id - 1].user, x.rows[id - 1].asset, 0)
    ensures T.Confirm(TransfersOf(x), id, o).Ok?
  {
    hide KeysAccounted, FeesMatch, Shaped, T.EffectsHold, T.KeysAccounted, T.Confirm;
    var t := x.rows[id - 1];
    OthersHold(x, t.user, t.asset, 0, |x.store.orders|);
    WithdrawingAtLeast(x.rows, t.user, t.asset, id - 1);
    T.ConfirmableWhenLocked(TransfersOf(x), id, o);
  }

  // --------------------------------------------------- where the invariant would break

  /** What a market order has not spent. */
  function Unspent(st: Store, id: nat): real
    requires HasOrder(st.orders, id)
  {
    var o := st.orders[id - 1];
    if o.side == Buy then o.quote - o.filledQuote - BuyerFees(st.trades, id) else Remaining(o)
  }

  /** Completing a market order with something unspent and no earlier completion keeps
      locked balances equal to reservations exactly when the order was not REJECTED:
      the completion does not look for that status and gives the hold back again. */
  lemma CompletionNeedsUnrejected(x: Exchange, c: Completion)
    requires Inv(x) && HasOrder(x.store.orders, c.order) && CompleteMarket(x.store, c).Ok?
    requires Unspent(x.store, c.order) > 0.0
    requires FindKey(x.store.ledger.journals, ReleaseKey(c.order, ReasonMarketRemain)).None?
    ensures Covered(Do(x, Complete(c))) <==> x.store.orders[c.order - 1].status != Rejected
  {
    hide ReleaseAndClose, Close, Inv, Covered;
    if x.store.orders[c.order - 1].status != Rejected {
      CompleteKeepsInv(x, c);
      assert Covered(Do(x, Complete(c))) by { InvCovers(Do(x, Complete(c))); }
    } else {
      RejectedReleaseBreaks(x, c.order, Unspent(x.store, c.order), CompletedStatus(x.store.orders[c.order - 1], c));
    }
  }

  lemma InvCovers(x: Exchange)
    requires Inv(x)
    ensures Covered(x)
  {
  }

  lemma RejectedReleaseBreaks(x: Exchange, id: nat, amount: real, status: Status)
    requires Inv(x) && HasOrder(x.store.orders, id) && x.store.orders[id - 1].status == Rejected
    requires amount > 0.0 && status != Pending && status != Partial
    requires FindKey(x.store.ledger.journals, ReleaseKey(id, ReasonMarketRemain)).None?
    requires ReleaseAndClose(x.store, id, amount, ReasonMarketRemain, status).Ok?
    ensures !Covered(x.(store := ReleaseAndClose(x.store, id, amount, ReasonMarketRemain, status).value))
  {
    hide Record, Reserved;
    var st, st' := x.store, ReleaseAndClose(x.store, id, amount, ReasonMarketRemain, status).value;
    var o := st.orders[id - 1];
    RecordNewMoves(st.ledger, ReleaseJournal(id, o, amount, ReasonMarketRemain));
    MoveDelta(o, UserLocked, UserAvailable, amount, o.user, HoldAsset(o));
    ClosedReservesNothing(st.trades, id, o);
    ClosedReservesNothing(st'.trades, id, st'.orders[id - 1]);
    HeldSame(st, st', o.user, HoldAsset(o), |st.orders|);
    assert Balance(st.ledger, Locked(o.user, HoldAsset(o)))
        == Held(st, o.user, HoldAsset(o)) + Withdrawing(x.rows, o.user, HoldAsset(o));
  }

  /** The states one after another, whether or not the actions are enabled. */
  function Play(x: Exchange, actions: seq<Action>): Exchange {
    if actions == [] then x else Do(Play(x, actions[..|actions| - 1]), actions[|actions| - 1])
  }

  lemma PlayNext(x: Exchange, actions: seq<Action>, a: Action)
    ensures Play(x, actions + [a]) == Do(Play(x, actions), a)
  {
    assert (actions + [a])[..|actions|] == actions;
  }

  const GRANT := Journal(DevFund, OtherKey("grant"), RefDevFund, 1, None,
    [Posting(DevMint, None, "BTC", -2.0), Posting(UserAvailable, Some(1), "BTC", 2.0)])
  const SALE := Order(1, "BTC", Sell, Market, 0.0, 1.0, 0.0, 0.0, 0.0, Pending)
  const OFFER := Order(1, "BTC", Sell, Limit, 100.0, 1.0, 0.0, 0.0, 0.0, Pending)
  const MISTAKE := [Fund(GRANT), Place(SALE), Place(OFFER), Reject(1), Complete(Completion(1, 0.0, 0.0, 0.0))]

  lemma GrantRecords()
    ensures Record(EMPTY, GRANT).Ok? && Record(EMPTY, GRANT).value.ledger.journals == [GRANT]
    ensures Balance(Record(EMPTY, GRANT).value.ledger, H.Available(SALE)) == 2.0
  {
    hide Delta, AssetSum;
    var ps := GRANT.postings;
    AssetSumOfTwo(ps[0], ps[1], "BTC");
    DeltaOfTwo(ps[0], ps[1], AccountOf(ps[1]));
    assert ValidJournal(GRANT);
    assert !WouldGoNegative(EMPTY, ps);
    RecordNewMoves(EMPTY, GRANT);
  }

  lemma Granted()
    ensures var x := Do(NOTHING, Fund(GRANT));
      && Inv(x) && Sound(x.store.ledger) && x.store.orders == [] && x.store.ledger.journals == [GRANT]
      && Balance(x.store.ledger, H.Available(SALE)) == 2.0
  {
    hide Inv, Record, Sound;
    GrantRecords();
    NothingIsReserved();
    StepKeepsInv(NOTHING, Fund(GRANT));
    StepKeepsSound(NOTHING, Fund(GRANT));
  }

  lemma Placed(x: Exchange, o: Order)
    requires Inv(x) && Sound(x.store.ledger) && Parsed(o)
    requires HoldAmount(o) > 0.0 && Balance(x.store.ledger, H.Available(o)) >= HoldAmount(o)
    ensures var x' := Do(x, Place(o));
      && Inv(x') && Sound(x'.store.ledger) && x'.store.orders == x.store.orders + [o]
      && x'.store.ledger.journals == x.store.ledger.journals + [PlaceJournal(|x.store.orders| + 1, o)]
      && Balance(x'.store.ledger, H.Available(o)) == Balance(x.store.ledger, H.Available(o)) - HoldAmount(o)
  {
    hide Record, HoldAmount, Shaped, FeesMatch, Covered, T.Inv;
    var j := PlaceJournal(|x.store.orders| + 1, o);
    assert H.HoldKeysFresh(x.store);
    H.AcceptedIffAffordable(x.store, o);
    RecordNewMoves(x.store.ledger, j);
    StepKeepsInv(x, Place(o));
    StepKeepsSound(x, Place(o));
  }

  lemma SaleRejected(x: Exchange)
    requires Inv(x) && Sound(x.store.ledger) && x.store.orders == [SALE, OFFER]
    requires forall i :: 0 <= i < |x.store.ledger.journals| ==> !x.store.ledger.journals[i].key.ReleaseKey?
    ensures var x' := Do(x, Reject(1));
      && Inv(x') && Sound(x'.store.ledger) && x'.store.orders == [SALE.(status := Rejected), OFFER]
      && x'.rows == x.rows
      && FindKey(x'.store.ledger.journals, ReleaseKey(1, ReasonMarketRemain)).None?
  {
    hide Inv, Sound, Record;
    RejectionSucceeds(x, 1);
    RecordNewMoves(x.store.ledger, ReleaseJournal(1, SALE, 1.0, ReasonRejected));
    StepKeepsInv(x, Reject(1));
    StepKeepsSound(x, Reject(1));
  }

  lemma CompletedAgain(x: Exchange)
    requires Inv(x) && Sound(x.store.ledger) && x.store.orders == [SALE.(status := Rejected), OFFER]
    requires FindKey(x.store.ledger.journals, ReleaseKey(1, ReasonMarketRemain)).None?
    ensures !Covered(Do(x, Complete(Completion(1, 0.0, 0.0, 0.0))))
  {
    hide Inv, Sound, Record, Covered, Others;
    var c := Completion(1, 0.0, 0.0, 0.0);
    assert NoOtherOverspend(x.store, 1, "BTC", 2);
    OthersNonNegative(x, 1, "BTC", 2);
    LockedSplits(x, 2);
    ReleaseRecords(x.store.ledger, 1, x.store.orders[0], 1.0, ReasonMarketRemain);
    CompletionNeedsUnrejected(x, c);
  }

  /** A run in which it happens: a user sells one coin at market and offers another, the
      sale is rejected and then completed. All is well up to the rejection; completing
      the rejected sale takes the coin that is locked for the offer. */
  lemma CompletingRejectedBreaks()
    ensures IsRejectedSale(Play(NOTHING, MISTAKE[..4])) && !Covered(Play(NOTHING, MISTAKE))
  {
    hide Inv, Sound, Covered, Do;
    var x1 := Do(NOTHING, Fund(GRANT));
    var x2 := Do(x1, Place(SALE));
    var x3 := Do(x2, Place(OFFER));
    var x4 := Do(x3, Reject(1));
    Granted();
    Placed(x1, SALE);
    Placed(x2, OFFER);
    SaleRejected(x3);
    CompletedAgain(x4);
    PlayNext(NOTHING, [], MISTAKE[0]);
    PlayNext(NOTHING, MISTAKE[..1], MISTAKE[1]);
    PlayNext(NOTHING, MISTAKE[..2], MISTAKE[2]);
    PlayNext(NOTHING, MISTAKE[..3], MISTAKE[3]);
    PlayNext(NOTHING, MISTAKE[..4], MISTAKE[4]);
    assert [] + [MISTAKE[0]] == MISTAKE[..1] && MISTAKE[..1] + [MISTAKE[1]] == MISTAKE[..2];
    assert MISTAKE[..2] + [MISTAKE[2]] == MISTAKE[..3] && MISTAKE[..3] + [MISTAKE[3]] == MISTAKE[..4];
    assert MISTAKE[..4] + [MISTAKE[4]] == MISTAKE;
  }

  ghost predicate IsRejectedSale(x: Exchange) {
    Inv(x) && Sound(x.store.ledger) && x.store.orders == [SALE.(status := Rejected), OFFER]
  }

  // ------------------------------------------------------------------- settlement

  /** A trade the engine may have made: the fees are the policy's, the key is new, both
      orders are open, the seller has the quantity left, and so has a limit buyer, whose
      limit the price keeps to. */
  ghost predicate Tradable(st: Store, t: Trade) {
    && WellFormed(t) && t.feeRate > 0.0
    && t.buyerFee == TradingFee(Quote(t)) && t.sellerFee == TradingFee(Quote(t))
    && FindTrade(st.trades, t.key).None?
    && HasOrder(st.orders, t.buyOrder) && HasOrder(st.orders, t.sellOrder)
    && var b, s := st.orders[t.buyOrder - 1], st.orders[t.sellOrder - 1];
       && TermsAgree(t, b, s) && IsOpen(b) && IsOpen(s)
       && s.filled + t.quantity <= s.amount
       && (b.kind == Limit ==> t.price <= b.price && b.filled + t.quantity <= b.amount)
  }

  /** The optional refund and fee lines. */
  function RefundLine(buyer: nat, refund: real): seq<Posting> {
    if refund > 0.0 then [UserPosting(UserAvailable, buyer, KRW, refund)] else []
  }

  function FeeLine(fees: real): seq<Posting> {
    if fees > 0.0 then [Posting(FeeIncome, None, KRW, fees)] else []
  }

  /** The postings of a trade cancel out in every asset when the refund is not negative
      and the fees are what separates buyer's cost and seller's net. */
  lemma TradePostingsBalance(t: Trade, buyer: nat, seller: nat, reserved: real, cost: real, net: real, asset: string)
    requires reserved >= cost && t.buyerFee + t.sellerFee >= 0.0 && cost == net + t.buyerFee + t.sellerFee
    ensures AssetSum(TradePostings(t, buyer, seller, reserved, cost, net), asset) == 0.0
  {
    var ps := TradePostings(t, buyer, seller, reserved, cost, net);
    var refund, fee := RefundLine(buyer, reserved - cost), FeeLine(t.buyerFee + t.sellerFee);
    assert ps == [ps[0], ps[1]] + [ps[2], ps[3]] + refund + fee;
    AssetSumAppend([ps[0], ps[1]] + [ps[2], ps[3]] + refund, fee, asset);
    AssetSumAppend([ps[0], ps[1]] + [ps[2], ps[3]], refund, asset);
    AssetSumAppend([ps[0], ps[1]], [ps[2], ps[3]], asset);
    AssetSumOfTwo(ps[0], ps[1], asset);
    AssetSumOfTwo(ps[2], ps[3], asset);
    if refund != [] { AssetSumOfOne(refund[0], asset); }
    if fee != [] { AssetSumOfOne(fee[0], asset); }
  }

  /** The amounts of such a trade: the reserved debit covers the cost, the seller's net
      is positive, fees are positive. */
  lemma TradeAmounts(t: Trade, b: Order)
    requires t.price > 0.0 && t.quantity > 0.0 && (b.kind == Limit ==> t.price <= b.price)
    requires t.buyerFee == TradingFee(Quote(t)) && t.sellerFee == TradingFee(Quote(t))
    ensures Quote(t) > 0.0
    ensures ReservedDebit(b, t) >= Quote(t) + t.buyerFee > 0.0
    ensures Quote(t) - t.sellerFee > 0.0 && t.buyerFee + t.sellerFee > 0.0
  {
    NotionalPositive(t.price, t.quantity);
    if b.kind == Limit {
      NotionalGrows(t.price, b.price, t.quantity);
    }
  }

  lemma NotionalGrows(p: real, q: real, quantity: real)
    requires p <= q && quantity > 0.0
    ensures Notional(p, quantity) <= Notional(q, quantity)
  {
    assert (q - p) * quantity >= 0.0;
  }

  lemma TradeJournalIsValid(t: Trade, b: Order, s: Order, id: nat)
    requires WellFormed(t) && TermsAgree(t, b, s) && (b.kind == Limit ==> t.price <= b.price)
    requires t.buyerFee == TradingFee(Quote(t)) && t.sellerFee == TradingFee(Quote(t))
    ensures PlanTrade(t, b, s).Ok? && ValidJournal(TradeJournal(t, id, PlanTrade(t, b, s).value.postings))
  {
    hide AssetSum, ReservedDebit;
    TradeAmounts(t, b);
    var plan := PlanTrade(t, b, s).value;
    forall p | p in plan.postings ensures ValidPosting(p) && AssetSum(plan.postings, p.asset) == 0.0 {
      TradePostingsBalance(t, b.user, s.user, ReservedDebit(b, t), plan.cost, Quote(t) - t.sellerFee, p.asset);
    }
  }

  lemma {:induction false} DeltaOfCredits(ps: seq<Posting>, a: Account, k: nat)
    requires k < |ps| && AccountOf(ps[k]) == a
    requires forall i :: 0 <= i < |ps| && AccountOf(ps[i]) == a ==> ps[i].amount > 0.0
    ensures Delta(ps, a) >= ps[k].amount
  {
    var n := |ps| - 1;
    if k < n {
      DeltaOfCredits(ps[..n], a, k);
    } else if exists i :: 0 <= i < n && AccountOf(ps[i]) == a {
      var i :| 0 <= i < n && AccountOf(ps[i]) == a;
      DeltaOfCredits(ps[..n], a, i);
    } else {
      assert a !in Touched(ps[..n]);
      DeltaUntouched(ps[..n], a);
    }
  }

  lemma CreditsStayCovered(
    l: LedgerState, t: Trade, buyer: nat, seller: nat, reserved: real, cost: real, net: real, k: nat)
    requires NonNegative(l) && t.quantity > 0.0 && net > 0.0
    requires var ps := TradePostings(t, buyer, seller, reserved, cost, net); k < |ps| && ps[k].kind != UserLocked
    ensures var ps := TradePostings(t, buyer, seller, reserved, cost, net);
      AllowsNegative(ps[k].kind) || Balance(l, AccountOf(ps[k])) + Delta(ps, AccountOf(ps[k])) >= 0.0
  {
    hide Delta;
    DeltaOfCredits(TradePostings(t, buyer, seller, reserved, cost, net),
      AccountOf(TradePostings(t, buyer, seller, reserved, cost, net)[k]), k);
  }

  /** The two locked accounts are the only ones a trade can overdraw. */
  lemma TradeOverdraws(
    l: LedgerState, t: Trade, buyer: nat, seller: nat, reserved: real, cost: real, net: real, ps: seq<Posting>)
    requires NonNegative(l) && t.quantity > 0.0 && net > 0.0 && reserved > 0.0 && buyer != seller
    requires ps == TradePostings(t, buyer, seller, reserved, cost, net)
    ensures WouldGoNegative(l, ps) <==>
      Balance(l, Locked(buyer, KRW)) < reserved || Balance(l, Locked(seller, t.symbol)) < t.quantity
  {
    hide Delta, NonNegative;
    assert AccountOf(ps[0]) == Locked(buyer, KRW) && AccountOf(ps[2]) == Locked(seller, t.symbol);
    assert ps[0] in ps && ps[2] in ps;
    TradeDelta(t, buyer, seller, reserved, cost, net, buyer, KRW);
    TradeDelta(t, buyer, seller, reserved, cost, net, seller, t.symbol);
    if WouldGoNegative(l, ps) {
      var p :| p in ps && !AllowsNegative(p.kind) && Balance(l, AccountOf(p)) + Delta(ps, AccountOf(p)) < 0.0;
      var k :| 0 <= k < |ps| && ps[k] == p;
      if p.kind != UserLocked {
        CreditsStayCovered(l, t, buyer, seller, reserved, cost, net, k);
      } else {
        assert k == 0 || k == 2;
      }
    }
  }

  /** What the trade takes from the buyer and from the seller is locked. */
  ghost predicate BothLocked(x: Exchange, t: Trade)
    requires HasOrder(x.store.orders, t.buyOrder) && HasOrder(x.store.orders, t.sellOrder)
  {
    var b, s := x.store.orders[t.buyOrder - 1], x.store.orders[t.sellOrder - 1];
    && Balance(x.store.ledger, Locked(b.user, KRW)) >= ReservedDebit(b, t)
    && Balance(x.store.ledger, Locked(s.user, t.symbol)) >= t.quantity
  }

  lemma TradableParts(st: Store, t: Trade)
    requires Tradable(st, t)
    ensures WellFormed(t) && t.buyerFee == TradingFee(Quote(t)) && t.sellerFee == TradingFee(Quote(t))
    ensures HasOrder(st.orders, t.buyOrder) && HasOrder(st.orders, t.sellOrder)
    ensures var b, s := st.orders[t.buyOrder - 1], st.orders[t.sellOrder - 1];
      TermsAgree(t, b, s) && IsOpen(b) && IsOpen(s) && (b.kind == Limit ==> t.price <= b.price)
  {
  }

  lemma NotionalMonotone(price: real, x: real, y: real)
    requires price > 0.0 && x <= y
    ensures Notional(price, x) <= Notional(price, y)
  {
    assert price * (y - x) >= 0.0;
  }

  /** The journal of such a trade always balances, and is recorded exactly when the
      ledger has locked what it takes. */
  lemma TradeRecords(x: Exchange, t: Trade)
    requires Inv(x) && Sound(x.store.ledger) && Tradable(x.store, t)
    ensures var b, s := x.store.orders[t.buyOrder - 1], x.store.orders[t.sellOrder - 1];
      && PlanTrade(t, b, s).Ok?
      && (Record(x.store.ledger, TradeJournal(t, |x.store.trades| + 1, PlanTrade(t, b, s).value.postings)).Ok? <==>
          BothLocked(x, t))
  {
    hide Inv, Tradable, Delta, ValidJournal, WouldGoNegative, ReservedDebit, TradePostings;
    TradableParts(x.store, t);
    var b, s := x.store.orders[t.buyOrder - 1], x.store.orders[t.sellOrder - 1];
    TradeAmounts(t, b);
    TradeJournalIsValid(t, b, s, |x.store.trades| + 1);
    TradeOverdraws(x.store.ledger, t, b.user, s.user, ReservedDebit(b, t), Quote(t) + t.buyerFee, Quote(t) - t.sellerFee,
      PlanTrade(t, b, s).value.postings);
    TradeKeyIsNew(x, t);
  }

  /** Such a trade settles exactly when a market buyer's quote keeps within the budget and
      the ledger has locked what the trade takes: no other account can go negative and no
      order is over-filled. */
  lemma SettlesWhenLocked(x: Exchange, t: Trade)
    requires Inv(x) && Sound(x.store.ledger) && Tradable(x.store, t)
    ensures var b := x.store.orders[t.buyOrder - 1];
      ApplyTrade(x.store, t).Ok? <==> (IsMarketBuy(b) ==> b.filledQuote + Quote(t) <= b.quote) && BothLocked(x, t)
  {
    hide Inv, Sound, Tradable, Record, PlanTrade, Fill, ReservedDebit, BothLocked;
    TradableParts(x.store, t);
    TradeRecords(x, t);
    FillsFit(x.store, t);
    if BothLocked(x, t) {
      var b, s := x.store.orders[t.buyOrder - 1], x.store.orders[t.sellOrder - 1];
      BuyerEndsWithHoldings(x, t, PlanTrade(t, b, s).value.postings);
    }
  }

  lemma SellerIsLocked(x: Exchange, t: Trade)
    requires Inv(x) && Tradable(x.store, t)
    requires NoOtherOverspend(x.store, x.store.orders[t.sellOrder - 1].user, t.symbol, t.sellOrder)
    ensures Balance(x.store.ledger, Locked(x.store.orders[t.sellOrder - 1].user, t.symbol)) >= t.quantity
  {
    hide Inv, NoOtherOverspend, Others;
    LockedSplits(x, t.sellOrder);
    OthersNonNegative(x, x.store.orders[t.sellOrder - 1].user, t.symbol, t.sellOrder);
  }

  /** Against a limit buyer every such trade settles. */
  lemma TradeSettles(x: Exchange, t: Trade)
    requires Inv(x) && Sound(x.store.ledger) && Tradable(x.store, t) && x.store.orders[t.buyOrder - 1].kind == Limit
    requires NoOtherOverspend(x.store, x.store.orders[t.buyOrder - 1].user, KRW, t.buyOrder)
    requires NoOtherOverspend(x.store, x.store.orders[t.sellOrder - 1].user, t.symbol, t.sellOrder)
    ensures ApplyTrade(x.store, t).Ok?
  {
    hide Inv, NoOtherOverspend, Others, ApplyTrade;
    var b := x.store.orders[t.buyOrder - 1];
    LockedSplits(x, t.buyOrder);
    OthersNonNegative(x, b.user, KRW, t.buyOrder);
    ShapeOf(x, t.buyOrder);
    NotionalMonotone(b.price, t.quantity, Remaining(b));
    SellerIsLocked(x, t);
    SettlesWhenLocked(x, t);
  }

  /** Against a market buyer it settles exactly when the quote keeps within the budget and
      the quote with fees within the budget and whatever else the buyer has locked. */
  lemma MarketTradeSettles(x: Exchange, t: Trade)
    requires Inv(x) && Sound(x.store.ledger) && Tradable(x.store, t) && IsMarketBuy(x.store.orders[t.buyOrder - 1])
    requires NoOtherOverspend(x.store, x.store.orders[t.sellOrder - 1].user, t.symbol, t.sellOrder)
    ensures var b := x.store.orders[t.buyOrder - 1];
      ApplyTrade(x.store, t).Ok? <==>
      && b.filledQuote + Quote(t) <= b.quote
      && WithFee(b.filledQuote + Quote(t)) <= b.quote + Others(x, b.user, KRW, t.buyOrder)
  {
    hide Inv, NoOtherOverspend, Others, ApplyTrade;
    LockedSplits(x, t.buyOrder);
    ShapeOf(x, t.buyOrder);
    SellerIsLocked(x, t);
    SettlesWhenLocked(x, t);
  }

  /** The trade that spends the rest of the executable quote of a buyer with nothing else
      locked is refused exactly on the budgets whose quotient was rounded up: neither
      side of it is ever settled. */
  lemma LastTradeSettles(x: Exchange, t: Trade, n: int)
    requires Inv(x) && Sound(x.store.ledger) && Tradable(x.store, t) && IsMarketBuy(x.store.orders[t.buyOrder - 1])
    requires NoOtherOverspend(x.store, x.store.orders[t.sellOrder - 1].user, t.symbol, t.sellOrder)
    requires var b := x.store.orders[t.buyOrder - 1];
      && n > 0 && b.quote * SCALE == n as real
      && b.filledQuote + Quote(t) == ExecutableQuote(b.quote)
      && Others(x, b.user, KRW, t.buyOrder) == 0.0
    ensures ApplyTrade(x.store, t).Ok? <==> n % 2001 == 0 || n % 2001 >= 1001
  {
    hide Inv, NoOtherOverspend, Others, ApplyTrade, Tradable, ExecutableQuote;
    TradableParts(x.store, t);
    var b := x.store.orders[t.buyOrder - 1];
    MarketTradeSettles(x, t);
    FullSpendFitsBudget(b.quote, n);
    ExecutableQuoteNearBudget(b.quote);
  }

  lemma TradeKeyIsNew(x: Exchange, t: Trade)
    requires Inv(x) && Tradable(x.store, t)
    ensures FindKey(x.store.ledger.journals, TradeKey(t.key)).None?
  {
  }

  lemma FillsFit(st: Store, t: Trade)
    requires Tradable(st, t)
    ensures var b, s := st.orders[t.buyOrder - 1], st.orders[t.sellOrder - 1];
      && Fill(s, t.quantity, Quote(t)).Ok?
      && (Fill(b, t.quantity, Quote(t)).Ok? <==> (IsMarketBuy(b) ==> b.filledQuote + Quote(t) <= b.quote))
  {
    NotionalPositive(t.price, t.quantity);
  }

  lemma BuyerEndsWithHoldings(x: Exchange, t: Trade, ps: seq<Posting>)
    requires Inv(x) && Sound(x.store.ledger) && Tradable(x.store, t)
    requires var b, s := x.store.orders[t.buyOrder - 1], x.store.orders[t.sellOrder - 1];
      PlanTrade(t, b, s).Ok? && ps == PlanTrade(t, b, s).value.postings
    requires Record(x.store.ledger, TradeJournal(t, |x.store.trades| + 1, ps)).Ok?
    ensures var l' := Record(x.store.ledger, TradeJournal(t, |x.store.trades| + 1, ps)).value.ledger;
      Holdings(l', x.store.orders[t.buyOrder - 1].user, t.symbol) > 0.0
  {
    hide Inv, Delta, ReservedDebit, Tradable, Record;
    TradableParts(x.store, t);
    TradeKeyIsNew(x, t);
    var b, s := x.store.orders[t.buyOrder - 1], x.store.orders[t.sellOrder - 1];
    var j := TradeJournal(t, |x.store.trades| + 1, ps);
    RecordNewMoves(x.store.ledger, j);
    BuyerIsCredited(t, b, s);
    RecordKeepsSound(x.store.ledger, j);
  }

  lemma BuyerIsCredited(t: Trade, b: Order, s: Order)
    requires WellFormed(t) && (b.kind == Limit ==> t.price <= b.price) && PlanTrade(t, b, s).Ok?
    requires t.buyerFee == TradingFee(Quote(t)) && t.sellerFee == TradingFee(Quote(t))
    ensures Delta(PlanTrade(t, b, s).value.postings, Account(UserAvailable, b.user, t.symbol)) >= t.quantity
  {
    hide Delta, ReservedDebit;
    TradeAmounts(t, b);
    DeltaOfCredits(PlanTrade(t, b, s).value.postings, Account(UserAvailable, b.user, t.symbol), 3);
  }
}
