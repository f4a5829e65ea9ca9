/**
 * The hooks on package requests and listings: the wallet action fired before a
 * request is saved with a new status, and the profile counters recomputed after
 * every save or delete.
 */
module ListingsSignals {
  import opened Wrappers
  import MoneyModels
  import WalletService
  import opened ListingsModels

  datatype WalletAction = NoAction | ReleasePayment | RefundLock

  /**
   * `handle_package_request_status_change`: `isNew` for a row without a
   * primary key, `stored` the status read back from the database (None when
   * the row is missing), `next` the status being saved.
   */
  function StatusChangeAction(isNew: bool, stored: Option<RequestStatus>, next: RequestStatus): (a: WalletAction)
    ensures a == ReleasePayment <==> !isNew && stored == Some(Accepted) && next == RequestStatus.Completed
    ensures a == RefundLock <==> !isNew && stored.Some? && stored.value in {Pending, Accepted} && next == Rejected
    ensures isNew || stored.None? || stored == Some(next) ==> a == NoAction
  {
    if isNew then NoAction
    else match stored
      case None => NoAction
      case Some(old_) =>
        if old_ == next then NoAction
        else if next == RequestStatus.Completed && old_ == Accepted then ReleasePayment
        else if next == Rejected && old_ in {Pending, Accepted} then RefundLock
        else NoAction
  }

  /** Every transition of the request state machine and what it does to the wallets. */
  lemma TransitionTable()
    ensures StatusChangeAction(false, Some(Pending), Accepted) == NoAction
    ensures StatusChangeAction(false, Some(Pending), Rejected) == RefundLock
    ensures StatusChangeAction(false, Some(Accepted), Rejected) == RefundLock
    ensures StatusChangeAction(false, Some(Accepted), RequestStatus.Completed) == ReleasePayment
    ensures StatusChangeAction(false, Some(Pending), RequestStatus.Completed) == NoAction
    ensures StatusChangeAction(false, Some(Rejected), RequestStatus.Completed) == NoAction
    ensures StatusChangeAction(false, Some(RequestStatus.Completed), Rejected) == NoAction
  {
  }

  /**
   * Saving a request with status `next`: the hook reads the stored status,
   * moves the money, then the row is written. The wallet calls cannot fail in
   * this model, so the hook's re-raise never stops the save.
   */
  method SaveStatus(req: PackageRequest, next: RequestStatus,
                    requesterWallet: MoneyModels.Wallet, travelerWallet: MoneyModels.Wallet,
                    ledger: MoneyModels.Ledger, config: MoneyModels.PlatformConfig,
                    firstRef: string, secondRef: string)
    requires requesterWallet.owner == req.requester && travelerWallet.owner == req.listing.owner
    requires req.requester != req.listing.owner
    requires ledger.Valid()
    requires StatusChangeAction(false, Some(req.status), next) != NoAction ==>
      firstRef !in MoneyModels.References(ledger.transactions)
    requires StatusChangeAction(false, Some(req.status), next) == ReleasePayment ==>
      firstRef != secondRef && secondRef !in MoneyModels.References(ledger.transactions)
    modifies req, requesterWallet, travelerWallet, ledger
    ensures ledger.Valid()
    ensures req.status == next
    ensures req.weight == old(req.weight) && req.counts == old(req.counts)
    ensures req.totalPrice == old(req.totalPrice) && req.description == old(req.description)
    ensures req.listing == old(req.listing)
    ensures match StatusChangeAction(false, Some(old(req.status)), next)
      case NoAction =>
        && requesterWallet.Snapshot() == old(requesterWallet.Snapshot())
        && travelerWallet.Snapshot() == old(travelerWallet.Snapshot())
        && ledger.transactions == old(ledger.transactions)
      case ReleasePayment =>
        var (travelerAmount, commission) := WalletService.CommissionSplit(req.totalPrice, config);
        && (requesterWallet.Snapshot(), travelerWallet.Snapshot())
           == WalletService.ReleaseOutcome(old(requesterWallet.Snapshot()), old(travelerWallet.Snapshot()), req.totalPrice, config)
        && ledger.transactions == old(ledger.transactions)
           + [WalletService.ReleaseRecord(requesterWallet, travelerWallet, travelerAmount, firstRef, req.id),
              WalletService.CommissionRecord(requesterWallet, commission, secondRef, req.id)]
      case RefundLock =>
        && requesterWallet.Snapshot() == WalletService.RefundOutcome(old(requesterWallet.Snapshot()), req.totalPrice)
        && travelerWallet.Snapshot() == old(travelerWallet.Snapshot())
        && ledger.transactions == old(ledger.transactions)
           + [WalletService.UnlockRecord(requesterWallet, req.totalPrice, firstRef, req.id)]
  {
    var action := StatusChangeAction(false, Some(req.status), next);
    match action {
      case NoAction =>
      case ReleasePayment =>
        var _, _ := WalletService.ReleasePaymentToTraveler(requesterWallet, travelerWallet, ledger, config,
                                                           req.id, req.totalPrice, firstRef, secondRef);
      case RefundLock =>
        var _ := WalletService.RefundLockedAmount(requesterWallet, ledger, req.id, req.totalPrice, firstRef);
    }
    req.status := next;
  }

  // ---------------------------------------------------------------------------
  // Profile counters, recomputed from the tables after every save or delete
  // ---------------------------------------------------------------------------

  /** A request as the counters see it. */
  datatype RequestRow = RequestRow(requester: UserId, traveler: UserId, status: RequestStatus)

  /** `total_trips_created`: the listings owned by `u`, given the owners of all listings. */
  function TripsCreated(owners: seq<UserId>, u: UserId): (n: nat)
    ensures n <= |owners|
    ensures n == |set i | 0 <= i < |owners| && owners[i] == u|
  {
    if owners == [] then 0
    else
      var m := |owners| - 1;
      var prev := owners[..m];
      assert (set i | 0 <= i < |owners| && owners[i] == u)
          == (set i | 0 <= i < m && prev[i] == u) + (if owners[m] == u then {m} else {});
      TripsCreated(prev, u) + (if owners[m] == u then 1 else 0)
  }

  /** `total_offer_sent`: the requests `u` made. */
  function OffersSent(rows: seq<RequestRow>, u: UserId): (n: nat)
    ensures n <= |rows|
    ensures n == |set i | 0 <= i < |rows| && rows[i].requester == u|
  {
    if rows == [] then 0
    else
      var m := |rows| - 1;
      var prev := rows[..m];
      assert (set i | 0 <= i < |rows| && rows[i].requester == u)
          == (set i | 0 <= i < m && prev[i].requester == u) + (if rows[m].requester == u then {m} else {});
      OffersSent(prev, u) + (if rows[m].requester == u then 1 else 0)
  }

  /** `total_offer_received`: the requests on listings of `u`. */
  function OffersReceived(rows: seq<RequestRow>, u: UserId): (n: nat)
    ensures n <= |rows|
    ensures n == |set i | 0 <= i < |rows| && rows[i].traveler == u|
  {
    if rows == [] then 0
    else
      var m := |rows| - 1;
      var prev := rows[..m];
      assert (set i | 0 <= i < |rows| && rows[i].traveler == u)
          == (set i | 0 <= i < m && prev[i].traveler == u) + (if rows[m].traveler == u then {m} else {});
      OffersReceived(prev, u) + (if rows[m].traveler == u then 1 else 0)
  }

  /** `total_completed_deliveries`: the completed requests on listings of `u`. */
  function CompletedDeliveries(rows: seq<RequestRow>, u: UserId): nat {
    if rows == [] then 0
    else
      var r := rows[|rows| - 1];
      CompletedDeliveries(rows[..|rows| - 1], u) + (if r.traveler == u && r.status == RequestStatus.Completed then 1 else 0)
  }

  /** Only requests received can be completed deliveries. */
  lemma {:induction false} CompletedAtMostReceived(rows: seq<RequestRow>, u: UserId)
    ensures CompletedDeliveries(rows, u) <= OffersReceived(rows, u)
  {
    if rows != [] {
      CompletedAtMostReceived(rows[..|rows| - 1], u);
    }
  }

  /** A new request adds one offer sent for its requester and one received for its traveler, and nothing else. */
  lemma NewRequestCounts(rows: seq<RequestRow>, r: RequestRow, u: UserId)
    ensures OffersSent(rows + [r], u) == OffersSent(rows, u) + (if r.requester == u then 1 else 0)
    ensures OffersReceived(rows + [r], u) == OffersReceived(rows, u) + (if r.traveler == u then 1 else 0)
  {
    assert (rows + [r])[..|rows|] == rows;
  }

  /** Completing one accepted request adds exactly one delivery, for its traveler only; offers are unchanged. */
  lemma {:induction false} CompletionCountsOnce(rows: seq<RequestRow>, k: nat, u: UserId)
    requires k < |rows| && rows[k].status == Accepted
    ensures var rows' := rows[k := rows[k].(status := RequestStatus.Completed)];
      && CompletedDeliveries(rows', u) == CompletedDeliveries(rows, u) + (if rows[k].traveler == u then 1 else 0)
      && OffersSent(rows', u) == OffersSent(rows, u)
      && OffersReceived(rows', u) == OffersReceived(rows, u)
    decreases |rows|
  {
    var rows' := rows[k := rows[k].(status := RequestStatus.Completed)];
    var n := |rows| - 1;
    if k == n {
      assert rows'[..n] == rows[..n];
    } else {
      assert rows'[..n] == rows[..n][k := rows[k].(status := RequestStatus.Completed)];
      CompletionCountsOnce(rows[..n], k, u);
    }
  }
}
