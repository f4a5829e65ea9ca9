/**
 * The request actions of the API: accept, reject and complete (each a status
 * change saved through the wallet hook), the creation flow with its chat
 * message, and the visibility rule for listings.
 */
module ListingsViews {
  import opened Wrappers
  import opened Text
  import MoneyModels
  import WalletService
  import opened ListingsModels
  import opened ListingsSignals
  import opened ListingsSerializers

  /**
   * A refused action carries its HTTP status and error; `NotFound` is the 404
   * of the lookup (the request is not among the user's); `Done` is the
   * serialized request.
   */
  datatype ActionResponse = Refused(statusCode: nat, error: string) | NotFound | Done

  /** The 403 of the object permission: only the listing's owner may change a request's status. */
  const PermissionDenied := Refused(403, "You do not have permission to perform this action.")

  // ---------------------------------------------------------------------------
  // Accept, reject, complete
  // ---------------------------------------------------------------------------

  /**
   * `accept`: only the listing's owner, only from pending. The lookup answers
   * first: a user who is neither the requester nor the listing's owner does
   * not see the request (404), and the requester is refused by the object
   * permission (403); the view's own owner check then never refuses. The
   * request is saved as accepted, then the listing's capacity drops by the
   * request's weight, down to 0 and fully booked at the bottom.
   */
  method Accept(req: PackageRequest, actor: UserId,
                requesterWallet: MoneyModels.Wallet, travelerWallet: MoneyModels.Wallet,
                ledger: MoneyModels.Ledger, config: MoneyModels.PlatformConfig)
    returns (r: ActionResponse)
    requires requesterWallet.owner == req.requester && travelerWallet.owner == req.listing.owner
    requires req.requester != req.listing.owner
    requires ledger.Valid()
    modifies req, req.listing, requesterWallet, travelerWallet, ledger
    ensures req.listing == old(req.listing)
    ensures requesterWallet.Snapshot() == old(requesterWallet.Snapshot())
    ensures travelerWallet.Snapshot() == old(travelerWallet.Snapshot())
    ensures ledger.transactions == old(ledger.transactions)
    ensures actor != req.requester && actor != req.listing.owner ==>
      r == NotFound && req.status == old(req.status) && unchanged(req.listing)
    ensures actor == req.requester ==>
      r == PermissionDenied && req.status == old(req.status) && unchanged(req.listing)
    ensures actor == req.listing.owner && old(req.status) != Pending ==>
      && r == Refused(400, "Cannot accept request in '" + RequestStatusName(old(req.status)) + "' status.")
      && req.status == old(req.status) && unchanged(req.listing)
    ensures actor == req.listing.owner && old(req.status) == Pending ==>
      var (left, full) := CapacityAfterAccept(old(req.listing.maximumWeight), req.weight);
      && r == Done
      && req.status == Accepted
      && req.listing.maximumWeight == left
      && req.listing.status == (if full then FullyBooked else old(req.listing.status))
      && req.listing.prices == old(req.listing.prices)
  {
    var listing := req.listing;
    if actor != req.requester && actor != listing.owner {
      return NotFound;
    }
    if actor != listing.owner {
      return PermissionDenied;
    }
    if req.status != Pending {
      return Refused(400, "Cannot accept request in '" + RequestStatusName(req.status) + "' status.");
    }
    SaveStatus(req, Accepted, requesterWallet, travelerWallet, ledger, config, "", "");
    listing.maximumWeight := listing.maximumWeight - req.weight;
    if listing.maximumWeight <= 0.0 {
      listing.maximumWeight := 0.0;
      listing.status := FullyBooked;
    }
    r := Done;
  }

  /**
   * `reject`: only the listing's owner, only from pending; the hook refunds
   * the lock. Others are answered by the lookup as in `Accept`.
   */
  method Reject(req: PackageRequest, actor: UserId,
                requesterWallet: MoneyModels.Wallet, travelerWallet: MoneyModels.Wallet,
                ledger: MoneyModels.Ledger, config: MoneyModels.PlatformConfig, unlockRef: string)
    returns (r: ActionResponse)
    requires requesterWallet.owner == req.requester && travelerWallet.owner == req.listing.owner
    requires req.requester != req.listing.owner
    requires ledger.Valid() && unlockRef !in MoneyModels.References(ledger.transactions)
    modifies req, requesterWallet, travelerWallet, ledger
    ensures ledger.Valid()
    ensures travelerWallet.Snapshot() == old(travelerWallet.Snapshot())
    ensures actor != req.requester && actor != req.listing.owner ==>
      && r == NotFound
      && req.status == old(req.status)
      && requesterWallet.Snapshot() == old(requesterWallet.Snapshot())
      && ledger.transactions == old(ledger.transactions)
    ensures actor == req.requester ==>
      && r == PermissionDenied
      && req.status == old(req.status)
      && requesterWallet.Snapshot() == old(requesterWallet.Snapshot())
      && ledger.transactions == old(ledger.transactions)
    ensures actor == req.listing.owner && old(req.status) != Pending ==>
      && r == Refused(400, "Cannot reject request in '" + RequestStatusName(old(req.status)) + "' status.")
      && req.status == old(req.status)
      && requesterWallet.Snapshot() == old(requesterWallet.Snapshot())
      && ledger.transactions == old(ledger.transactions)
    ensures actor == req.listing.owner && old(req.status) == Pending ==>
      && r == Done
      && req.status == Rejected
      && requesterWallet.Snapshot() == WalletService.RefundOutcome(old(requesterWallet.Snapshot()), req.totalPrice)
      && ledger.transactions == old(ledger.transactions)
         + [WalletService.UnlockRecord(requesterWallet, req.totalPrice, unlockRef, req.id)]
  {
    if actor != req.requester && actor != req.listing.owner {
      return NotFound;
    }
    if actor != req.listing.owner {
      return PermissionDenied;
    }
    if req.status != Pending {
      return Refused(400, "Cannot reject request in '" + RequestStatusName(req.status) + "' status.");
    }
    SaveStatus(req, Rejected, requesterWallet, travelerWallet, ledger, config, unlockRef, "");
    r := Done;
  }

  /**
   * `complete`: only the listing's owner, only from accepted; the hook
   * releases the payment. Others are answered by the lookup as in `Accept`.
   */
  method Complete(req: PackageRequest, actor: UserId,
                  requesterWallet: MoneyModels.Wallet, travelerWallet: MoneyModels.Wallet,
                  ledger: MoneyModels.Ledger, config: MoneyModels.PlatformConfig,
                  releaseRef: string, commissionRef: string)
    returns (r: ActionResponse)
    requires requesterWallet.owner == req.requester && travelerWallet.owner == req.listing.owner
    requires req.requester != req.listing.owner
    requires ledger.Valid() && releaseRef != commissionRef
    requires releaseRef !in MoneyModels.References(ledger.transactions)
    requires commissionRef !in MoneyModels.References(ledger.transactions)
    modifies req, requesterWallet, travelerWallet, ledger
    ensures ledger.Valid()
    ensures actor != req.requester && actor != req.listing.owner ==>
      && r == NotFound
      && req.status == old(req.status)
      && requesterWallet.Snapshot() == old(requesterWallet.Snapshot())
      && travelerWallet.Snapshot() == old(travelerWallet.Snapshot())
      && ledger.transactions == old(ledger.transactions)
    ensures actor == req.requester ==>
      && r == PermissionDenied
      && req.status == old(req.status)
      && requesterWallet.Snapshot() == old(requesterWallet.Snapshot())
      && travelerWallet.Snapshot() == old(travelerWallet.Snapshot())
      && ledger.transactions == old(ledger.transactions)
    ensures actor == req.listing.owner && old(req.status) != Accepted ==>
      && r == Refused(400, "Cannot complete request in '" + RequestStatusName(old(req.status))
                           + "' status. Request must be accepted first.")
      && req.status == old(req.status)
      && requesterWallet.Snapshot() == old(requesterWallet.Snapshot())
      && travelerWallet.Snapshot() == old(travelerWallet.Snapshot())
      && ledger.transactions == old(ledger.transactions)
    ensures actor == req.listing.owner && old(req.status) == Accepted ==>
      var (travelerAmount, commission) := WalletService.CommissionSplit(req.totalPrice, config);
      && r == Done
      && req.status == RequestStatus.Completed
      && (requesterWallet.Snapshot(), travelerWallet.Snapshot())
         == WalletService.ReleaseOutcome(old(requesterWallet.Snapshot()), old(travelerWallet.Snapshot()), req.totalPrice, config)
      && ledger.transactions == old(ledger.transactions)
         + [WalletService.ReleaseRecord(requesterWallet, travelerWallet, travelerAmount, releaseRef, req.id),
            WalletService.CommissionRecord(requesterWallet, commission, commissionRef, req.id)]
  {
    if actor != req.requester && actor != req.listing.owner {
      return NotFound;
    }
    if actor != req.listing.owner {
      return PermissionDenied;
    }
    if req.status != Accepted {
      return Refused(400, "Cannot complete request in '" + RequestStatusName(req.status)
                          + "' status. Request must be accepted first.");
    }
    SaveStatus(req, RequestStatus.Completed, requesterWallet, travelerWallet, ledger, config, releaseRef, commissionRef);
    r := Done;
  }

  /**
   * The listing's own `complete` action. The action is open to anyone, and
   * the lookup goes through the listing query: a listing the query does not
   * show to `actor` under the `status` and `date` parameters is a 404, even
   * to its owner. Of the listings shown, only the owner's may be marked
   * completed. `travelDay` is the listing's travel date.
   */
  method CompleteListing(listing: TravelListing, travelDay: int, actor: Option<UserId>, status: Option<string>,
                         date: DateFilter) returns (r: ActionResponse)
    modifies listing
    ensures var row := ListingRow(listing.owner, old(listing.status), travelDay);
      !(VisibleTo(row, actor, status) && OnOrAfter(row, date)) ==>
        r == NotFound && listing.status == old(listing.status)
    ensures var row := ListingRow(listing.owner, old(listing.status), travelDay);
      VisibleTo(row, actor, status) && OnOrAfter(row, date) && actor != Some(listing.owner) ==>
        r == Refused(403, "You do not have permission to complete this listing.") && listing.status == old(listing.status)
    ensures var row := ListingRow(listing.owner, old(listing.status), travelDay);
      VisibleTo(row, actor, status) && OnOrAfter(row, date) && actor == Some(listing.owner) ==>
        r == Done && listing.status == ListingStatus.Completed
    ensures listing.maximumWeight == old(listing.maximumWeight) && listing.prices == old(listing.prices)
  {
    var row := ListingRow(listing.owner, listing.status, travelDay);
    if !(VisibleTo(row, actor, status) && OnOrAfter(row, date)) {
      return NotFound;
    }
    if actor != Some(listing.owner) {
      return Refused(403, "You do not have permission to complete this listing.");
    }
    listing.status := ListingStatus.Completed;
    r := Done;
  }

  /**
   * Without a status filter the owner of a fully booked listing cannot reach
   * it through the lookup, so `complete` answers 404; with the filter
   * "fully-booked" the owner can.
   */
  lemma FullyBookedNotCompletable(owner: UserId, travelDay: int, date: DateFilter)
    ensures !VisibleTo(ListingRow(owner, FullyBooked, travelDay), Some(owner), None)
    ensures VisibleTo(ListingRow(owner, FullyBooked, travelDay), Some(owner), Some(ListingStatusName(FullyBooked)))
  {
  }

  /**
   * The escrow over a request's life: the fee leaves, the price is locked, and
   * completion moves the price out of the lock, to the traveler net of the
   * commission; rejection puts it back in the balance. Either way the lock is
   * back where it started.
   */
  lemma EscrowRoundTrip(requester: MoneyModels.Funds, traveler: MoneyModels.Funds,
                        config: MoneyModels.PlatformConfig, price: real)
    requires WalletService.CheckBalanceForRequest(requester, config, price)
    ensures var locked := WalletService.RequestFeeAndLockOutcome(requester, config, price).value;
      var (r, t) := WalletService.ReleaseOutcome(locked, traveler, price, config);
      var refunded := WalletService.RefundOutcome(locked, price);
      && r.locked == requester.locked
      && r.balance == requester.balance - config.minBalanceForPackageRequest - price
      && t.balance == traveler.balance + WalletService.CommissionSplit(price, config).0
      && refunded == MoneyModels.Funds(requester.balance - config.minBalanceForPackageRequest, requester.locked)
  {
  }

  // ---------------------------------------------------------------------------
  // The chat message sent with a new request
  // ---------------------------------------------------------------------------

  /** The items listed in the message, in this order, with their labels. */
  const MessageItems: seq<(string, ItemField)> :=
    [("phone", Phones), ("PC", Pcs), ("tablet", Tablets), ("document", Documents), ("full suitcase", FullSuitcases)]

  const Greeting := "Hi! I'd like to send the following items:"

  const EmptyRequestError := "Cannot create an empty request. Please specify items or weight."

  function ItemLine(item: string, count: nat): string {
    "- " + NatToString(count) + " x " + item + (if count > 1 then "s" else "")
  }

  /** The item lines for the first `n` entries of `MessageItems`: only counts above zero. */
  function ItemLines(counts: ItemCounts, n: nat): (lines: seq<string>)
    requires n <= |MessageItems|
    ensures |lines| <= n
  {
    if n == 0 then []
    else
      var (item, field) := MessageItems[n - 1];
      ItemLines(counts, n - 1) + (if counts.Count(field) > 0 then [ItemLine(item, counts.Count(field))] else [])
  }

  /** A request is empty when it has no item and no weight. */
  predicate HasItems(counts: ItemCounts, weight: real) {
    (exists f: ItemField :: counts.Count(f) > 0) || weight > 0.0
  }

  function WeightLine(weightText: string, description: string): string {
    "- " + weightText + "kg of other items (" + description + ")."
  }

  /** All the lines of the message. `weightText` is how the weight prints. */
  function MessageLines(counts: ItemCounts, weight: real, weightText: string, description: string): seq<string> {
    [Greeting] + ItemLines(counts, |MessageItems|) + (if weight > 0.0 then [WeightLine(weightText, description)] else [])
  }

  /** Some item line is written exactly when some counter is above zero. */
  lemma ItemLinesNonEmpty(counts: ItemCounts)
    ensures ItemLines(counts, |MessageItems|) != [] <==> exists f: ItemField :: counts.Count(f) > 0
  {
    var n := |MessageItems|;
    assert MessageItems[0].1 == Phones && MessageItems[1].1 == Pcs && MessageItems[2].1 == Tablets;
    assert MessageItems[3].1 == Documents && MessageItems[4].1 == FullSuitcases;
    assert ItemLines(counts, 1) != [] <==> counts.phones > 0;
    assert ItemLines(counts, 2) != [] <==> counts.phones > 0 || counts.pcs > 0;
    assert ItemLines(counts, 3) != [] <==> counts.phones > 0 || counts.pcs > 0 || counts.tablets > 0;
    assert ItemLines(counts, 4) != [] <==> counts.phones > 0 || counts.pcs > 0 || counts.tablets > 0 || counts.documents > 0;
    if exists f: ItemField :: counts.Count(f) > 0 {
      var f: ItemField :| counts.Count(f) > 0;
    }
  }

  /**
   * The message part of `perform_create`: one line per item with a count above
   * zero (plural above one), one for the weight, and an error when there is
   * neither.
   */
  method BuildRequestMessage(counts: ItemCounts, weight: real, weightText: string, description: string)
    returns (r: Result<string, string>)
    ensures r.Ok? <==> HasItems(counts, weight)
    ensures r.Ok? ==> r.value == Join(MessageLines(counts, weight, weightText, description), "\n")
    ensures r.Err? ==> r.error == EmptyRequestError
  {
    var messageLines := [Greeting];
    var hasItems := false;
    var i := 0;
    while i < |MessageItems|
      invariant 0 <= i <= |MessageItems|
      invariant messageLines == [Greeting] + ItemLines(counts, i)
      invariant hasItems <==> ItemLines(counts, i) != []
    {
      var (item, field) := MessageItems[i];
      var count := counts.Count(field);
      if count > 0 {
        hasItems := true;
        messageLines := messageLines + [ItemLine(item, count)];
      }
      i := i + 1;
    }
    if weight > 0.0 {
      hasItems := true;
      messageLines := messageLines + [WeightLine(weightText, description)];
    }
    ItemLinesNonEmpty(counts);
    assert messageLines == MessageLines(counts, weight, weightText, description);
    if !hasItems {
      return Err(EmptyRequestError);
    }
    r := Ok(Join(messageLines, "\n"));
  }

  /**
   * Why a creation failed: the wallet refused, the request is empty, or (as
   * written) an attribute the code reads does not exist, a server error.
   */
  datatype CreateError =
    | WalletRefused(error: WalletService.WalletError)
    | EmptyRequest(message: string)
    | AttributeRaised(name: string)

  /**
   * `perform_create` as written: once the request is saved (fee and lock
   * taken), the code reads `conversation.package_request`, a field a
   * conversation does not have. Every creation the wallet allows therefore
   * ends in a server error, with the wallet charged, before the emptiness
   * check and before any message is sent.
   */
  method PerformCreateAsWritten(market: Marketplace, id: nat, requester: UserId, listing: TravelListing,
                                description: string, weight: real, counts: ItemCounts,
                                wallet: MoneyModels.Wallet, ledger: MoneyModels.Ledger, config: MoneyModels.PlatformConfig,
                                feeRef: string, lockRef: string)
    returns (r: Result<(PackageRequest, string), CreateError>)
    requires wallet.owner == requester
    requires ledger.Valid() && feeRef != lockRef
    requires feeRef !in MoneyModels.References(ledger.transactions) && lockRef !in MoneyModels.References(ledger.transactions)
    modifies market, wallet, ledger
    ensures ledger.Valid()
    ensures r.Err?
    ensures var price := ReferencePrice(weight, counts, listing.prices);
      && (r.error.WalletRefused? <==> !WalletService.CheckBalanceForRequest(old(wallet.Snapshot()), config, price))
      && (WalletService.CheckBalanceForRequest(old(wallet.Snapshot()), config, price) ==>
            && r.error == AttributeRaised("package_request")
            && wallet.Snapshot() == WalletService.RequestFeeAndLockOutcome(old(wallet.Snapshot()), config, price).value
            && |market.requests| == |old(market.requests)| + 1)
  {
    var saved := CreateRequest(market, id, requester, listing, description, weight, counts,
                               wallet, ledger, config, feeRef, lockRef);
    if saved.Err? {
      return Err(WalletRefused(saved.error));
    }
    r := Err(AttributeRaised("package_request"));
  }

  /**
   * `perform_create` for the request and its message, as intended: the
   * request is saved (fee and lock taken) before the emptiness check, so an
   * empty request is refused with the wallet already charged; otherwise the
   * message lists the items.
   */
  method PerformCreate(market: Marketplace, id: nat, requester: UserId, listing: TravelListing,
                       description: string, weight: real, weightText: string, counts: ItemCounts,
                       wallet: MoneyModels.Wallet, ledger: MoneyModels.Ledger, config: MoneyModels.PlatformConfig,
                       feeRef: string, lockRef: string)
    returns (r: Result<(PackageRequest, string), CreateError>)
    requires wallet.owner == requester
    requires ledger.Valid() && feeRef != lockRef
    requires feeRef !in MoneyModels.References(ledger.transactions) && lockRef !in MoneyModels.References(ledger.transactions)
    modifies market, wallet, ledger
    ensures ledger.Valid()
    ensures var price := ReferencePrice(weight, counts, listing.prices);
      && (r.Err? && r.error.WalletRefused? <==> !WalletService.CheckBalanceForRequest(old(wallet.Snapshot()), config, price))
      && (WalletService.CheckBalanceForRequest(old(wallet.Snapshot()), config, price) ==>
            && wallet.Snapshot() == WalletService.RequestFeeAndLockOutcome(old(wallet.Snapshot()), config, price).value
            && |market.requests| == |old(market.requests)| + 1)
    ensures r.Err? && r.error.EmptyRequest? <==>
      WalletService.CheckBalanceForRequest(old(wallet.Snapshot()), config, ReferencePrice(weight, counts, listing.prices))
      && !HasItems(counts, weight)
    ensures r.Ok? ==> r.value.1 == Join(MessageLines(counts, weight, weightText, description), "\n")
  {
    var saved := CreateRequest(market, id, requester, listing, description, weight, counts,
                               wallet, ledger, config, feeRef, lockRef);
    if saved.Err? {
      return Err(WalletRefused(saved.error));
    }
    var instance := saved.value;
    var message := BuildRequestMessage(instance.counts, instance.weight, weightText, instance.description);
    if message.Err? {
      return Err(EmptyRequest(message.error));
    }
    r := Ok((instance, message.value));
  }

  // ---------------------------------------------------------------------------
  // Which listings a user sees
  // ---------------------------------------------------------------------------

  /** A listing as the list view filters it; `travelDate` is a day number. */
  datatype ListingRow = ListingRow(owner: UserId, status: ListingStatus, travelDate: int)

  /** The `travel_date` query parameter: absent (or empty), unparsable, or a day. */
  datatype DateFilter = NoDate | Unparsable | FromDay(day: int)

  /** A `status` parameter counts only when present and non-empty. */
  predicate StatusGiven(status: Option<string>) {
    status.Some? && status.value != ""
  }

  /** The visibility rule for one listing. */
  predicate VisibleTo(l: ListingRow, viewer: Option<UserId>, status: Option<string>) {
    match viewer
    case Some(u) =>
      if StatusGiven(status) then l.owner == u && ListingStatusName(l.status) == status.value
      else l.status == Published || (l.owner == u && l.status in {Drafted, ListingStatus.Completed, Canceled})
    case None =>
      if StatusGiven(status) then status.value == "published" && l.status == Published
      else l.status == Published
  }

  predicate OnOrAfter(l: ListingRow, date: DateFilter) {
    match date
    case NoDate => true
    case Unparsable => false
    case FromDay(d) => l.travelDate >= d
  }

  /** `TravelListingViewSet.get_queryset`, restricted to the visibility rule and the date filter. */
  function VisibleListings(all: seq<ListingRow>, viewer: Option<UserId>, status: Option<string>, date: DateFilter)
    : (r: seq<ListingRow>)
    ensures forall l :: l in r <==> l in all && VisibleTo(l, viewer, status) && OnOrAfter(l, date)
    ensures |r| <= |all|
  {
    if all == [] then []
    else
      var l := all[|all| - 1];
      VisibleListings(all[..|all| - 1], viewer, status, date)
      + (if VisibleTo(l, viewer, status) && OnOrAfter(l, date) then [l] else [])
  }

  /** Anonymous users see published listings only, and nothing at all for any other status filter. */
  lemma AnonymousSeesPublished(all: seq<ListingRow>, status: Option<string>, date: DateFilter)
    ensures forall l | l in VisibleListings(all, None, status, date) :: l.status == Published
    ensures StatusGiven(status) && status.value != "published" ==> VisibleListings(all, None, status, date) == []
  {
  }

  /** With a status filter a signed-in user sees only their own listings. */
  lemma StatusFilterShowsOwn(all: seq<ListingRow>, u: UserId, status: Option<string>, date: DateFilter)
    requires StatusGiven(status)
    ensures forall l | l in VisibleListings(all, Some(u), status, date) :: l.owner == u
  {
  }

  /** An unparsable date empties the list. */
  lemma UnparsableDateEmpty(all: seq<ListingRow>, viewer: Option<UserId>, status: Option<string>)
    ensures VisibleListings(all, viewer, status, Unparsable) == []
  {
  }

  /** Without a status filter nobody, not even the owner, sees a fully booked listing. */
  lemma FullyBookedHidden(all: seq<ListingRow>, viewer: Option<UserId>, status: Option<string>, date: DateFilter)
    requires !StatusGiven(status)
    ensures forall l | l in VisibleListings(all, viewer, status, date) :: l.status != FullyBooked
  {
  }
}
