/**
 * Validation and persistence of listings and requests: the pricing rule, the
 * balance checks done before a row is written, the capacity rule, the price
 * calculation, and the compensating delete when the wallet refuses the fee.
 *
 * Input data is split into what the client sent (absent keys are `None` or
 * missing from a map) and the stored instance on update, because every rule
 * falls back from one to the other.
 */
module ListingsSerializers {
  import opened Wrappers
  import opened Text
  import MoneyModels
  import WalletService
  import opened ListingsModels

  // ---------------------------------------------------------------------------
  // Travel listings
  // ---------------------------------------------------------------------------

  /** The six prices of which at least one is needed; `PerFile` is not among them. */
  const PricingFields: set<PriceField> := {PerKg, PerDocument, PerPhone, PerTablet, PerPc, FullSuitcase}

  /** A price as validation sees it: what the client sent (possibly null), else the stored value on update. */
  function EffectivePrice(data: map<PriceField, Option<real>>, instance: Option<Prices>, f: PriceField): Option<real> {
    if f in data then data[f]
    else if instance.Some? && f in instance.value then Some(instance.value[f])
    else None
  }

  predicate HasPricing(data: map<PriceField, Option<real>>, instance: Option<Prices>) {
    exists f | f in PricingFields :: EffectivePrice(data, instance, f).Some?
  }

  datatype ListingError = NoPricing | InsufficientListingBalance(minimum: real)

  /**
   * `TravelListingSerializer.validate`: `instance` holds the stored prices on
   * update; `requestPresent` whether the call comes with a request context.
   */
  function ValidateListing(data: map<PriceField, Option<real>>, instance: Option<Prices>, requestPresent: bool,
                           funds: MoneyModels.Funds, config: MoneyModels.PlatformConfig): (r: Result<(), ListingError>)
    ensures r.Ok? <==> (HasPricing(data, instance)
                        && (requestPresent && instance.None? ==> WalletService.CheckBalanceForListing(funds, config)))
    ensures r == Err(NoPricing) <==> !HasPricing(data, instance)
    ensures r.Err? && r.error.InsufficientListingBalance? ==> r.error.minimum == config.minBalanceForTravelListing
  {
    if !HasPricing(data, instance) then Err(NoPricing)
    else if requestPresent && instance.None? && !WalletService.CheckBalanceForListing(funds, config)
    then Err(InsufficientListingBalance(config.minBalanceForTravelListing))
    else Ok(())
  }

  /** The balance is checked on creation only: on update the wallet makes no difference. */
  lemma UpdateIgnoresBalance(data: map<PriceField, Option<real>>, stored: Prices, requestPresent: bool,
                             f1: MoneyModels.Funds, f2: MoneyModels.Funds, config: MoneyModels.PlatformConfig)
    ensures ValidateListing(data, Some(stored), requestPresent, f1, config)
         == ValidateListing(data, Some(stored), requestPresent, f2, config)
  {
  }

  /**
   * On update the stored prices stand in for the ones not sent, but a price
   * sent as null hides the stored one.
   */
  lemma UpdateFallsBackToStored(data: map<PriceField, Option<real>>, stored: Prices)
    ensures (forall f | f in PricingFields :: f !in data) ==>
      (HasPricing(data, Some(stored)) <==> exists f | f in PricingFields :: f in stored)
    ensures (forall f | f in PricingFields :: f in data && data[f].None?) ==> !HasPricing(data, Some(stored))
  {
    if forall f | f in PricingFields :: f !in data {
      if exists f | f in PricingFields :: f in stored {
        var f :| f in PricingFields && f in stored;
        assert EffectivePrice(data, Some(stored), f).Some?;
      }
    }
  }

  /**
   * `TravelListingSerializer.create`: the listing is written, then the fee is
   * taken; if the wallet refuses, the listing is deleted again and the
   * wallet's error is returned.
   */
  method CreateListing(market: Marketplace, id: nat, owner: UserId, departure: int, status: ListingStatus,
                       maximumWeight: real, prices: Prices,
                       wallet: MoneyModels.Wallet, ledger: MoneyModels.Ledger, config: MoneyModels.PlatformConfig,
                       feeRef: string)
    returns (r: Result<TravelListing, WalletService.WalletError>)
    requires wallet.owner == owner
    requires ledger.Valid() && feeRef !in MoneyModels.References(ledger.transactions)
    modifies market, wallet, ledger
    ensures ledger.Valid()
    ensures r.Ok? <==> WalletService.CheckBalanceForListing(old(wallet.Snapshot()), config)
    ensures r.Err? ==>
      && r.error == WalletService.ListingFeeOutcome(old(wallet.Snapshot()), config).error
      && market.listings == old(market.listings)
      && wallet.Snapshot() == old(wallet.Snapshot())
      && ledger.transactions == old(ledger.transactions)
    ensures r.Ok? ==>
      && fresh(r.value)
      && market.listings == old(market.listings) + [r.value]
      && View(r.value) == ListingView(owner, status, departure, maximumWeight, prices)
      && r.value.id == id
      && wallet.Snapshot() == WalletService.ListingFeeOutcome(old(wallet.Snapshot()), config).value
      && ledger.transactions == old(ledger.transactions)
         + [WalletService.ListingFeeRecord(wallet, config.minBalanceForTravelListing, feeRef, id)]
    ensures market.requests == old(market.requests)
  {
    var listing := new TravelListing(id, owner, departure, status, maximumWeight, prices);
    market.listings := market.listings + [listing];
    var fee := WalletService.DeductListingFee(wallet, ledger, config, id, feeRef);
    if fee.Err? {
      market.listings := market.listings[..|market.listings| - 1];
      return Err(fee.error);
    }
    r := Ok(listing);
  }

  // ---------------------------------------------------------------------------
  // Price of a request
  // ---------------------------------------------------------------------------

  /** The order in which the item prices are added up. */
  const ItemOrder: seq<ItemField> := [Documents, Phones, Tablets, Pcs, FullSuitcases]

  /** The listing price that applies to an item counter. */
  function ItemPrice(f: ItemField): PriceField {
    match f
    case Documents => PerDocument
    case Phones => PerPhone
    case Tablets => PerTablet
    case Pcs => PerPc
    case FullSuitcases => FullSuitcase
  }

  /** A stored price, null counting as 0. */
  function PriceOf(prices: Prices, f: PriceField): real {
    if f in prices then prices[f] else 0.0
  }

  /** The price of a request: weight times price per kg plus count times price for each item. */
  function ReferencePrice(weight: real, counts: ItemCounts, prices: Prices): real {
    weight * PriceOf(prices, PerKg)
    + counts.documents as real * PriceOf(prices, PerDocument)
    + counts.phones as real * PriceOf(prices, PerPhone)
    + counts.tablets as real * PriceOf(prices, PerTablet)
    + counts.pcs as real * PriceOf(prices, PerPc)
    + counts.fullSuitcases as real * PriceOf(prices, FullSuitcase)
  }

  /** The item part of the price over the first `n` items of `ItemOrder`. */
  function ItemsPrefix(counts: ItemCounts, prices: Prices, n: nat): real
    requires n <= |ItemOrder|
  {
    if n == 0 then 0.0
    else ItemsPrefix(counts, prices, n - 1) + counts.Count(ItemOrder[n - 1]) as real * PriceOf(prices, ItemPrice(ItemOrder[n - 1]))
  }

  /**
   * `_calculate_price`: adds the weight price, then walks the item prices,
   * skipping zero counts and null or zero prices.
   */
  method CalculatePrice(weight: real, counts: ItemCounts, prices: Prices) returns (price: real)
    ensures price == ReferencePrice(weight, counts, prices)
  {
    price := 0.0;
    if weight != 0.0 && PerKg in prices && prices[PerKg] != 0.0 {
      price := price + weight * prices[PerKg];
    }
    var i := 0;
    while i < |ItemOrder|
      invariant 0 <= i <= |ItemOrder|
      invariant price == weight * PriceOf(prices, PerKg) + ItemsPrefix(counts, prices, i)
    {
      var field := ItemOrder[i];
      var count := counts.Count(field);
      var priceField := ItemPrice(field);
      if count != 0 && priceField in prices && prices[priceField] != 0.0 {
        price := price + count as real * prices[priceField];
      }
      i := i + 1;
    }
    ItemsPrefixComplete(weight, counts, prices);
  }

  /** Walking all of `ItemOrder` adds every item price once. */
  lemma ItemsPrefixComplete(weight: real, counts: ItemCounts, prices: Prices)
    ensures weight * PriceOf(prices, PerKg) + ItemsPrefix(counts, prices, |ItemOrder|) == ReferencePrice(weight, counts, prices)
  {
    assert ItemOrder[0] == Documents && ItemOrder[1] == Phones && ItemOrder[2] == Tablets;
    assert ItemOrder[3] == Pcs && ItemOrder[4] == FullSuitcases;
    assert ItemsPrefix(counts, prices, 1) == counts.documents as real * PriceOf(prices, PerDocument);
    assert ItemsPrefix(counts, prices, 2) == ItemsPrefix(counts, prices, 1) + counts.phones as real * PriceOf(prices, PerPhone);
    assert ItemsPrefix(counts, prices, 3) == ItemsPrefix(counts, prices, 2) + counts.tablets as real * PriceOf(prices, PerTablet);
    assert ItemsPrefix(counts, prices, 4) == ItemsPrefix(counts, prices, 3) + counts.pcs as real * PriceOf(prices, PerPc);
    assert ItemsPrefix(counts, prices, 5) == ItemsPrefix(counts, prices, 4) + counts.fullSuitcases as real * PriceOf(prices, FullSuitcase);
  }

  /** Non-negative weight and prices give a non-negative price. */
  lemma PriceNonNegative(weight: real, counts: ItemCounts, prices: Prices)
    requires weight >= 0.0
    requires forall f | f in prices :: prices[f] >= 0.0
    ensures ReferencePrice(weight, counts, prices) >= 0.0
  {
    forall f: PriceField ensures PriceOf(prices, f) >= 0.0 { }
    MulNonNegative(weight, PriceOf(prices, PerKg));
    MulNonNegative(counts.documents as real, PriceOf(prices, PerDocument));
    MulNonNegative(counts.phones as real, PriceOf(prices, PerPhone));
    MulNonNegative(counts.tablets as real, PriceOf(prices, PerTablet));
    MulNonNegative(counts.pcs as real, PriceOf(prices, PerPc));
    MulNonNegative(counts.fullSuitcases as real, PriceOf(prices, FullSuitcase));
  }

  lemma MulNonNegative(a: real, b: real)
    requires a >= 0.0 && b >= 0.0
    ensures a * b >= 0.0
  {
  }

  /** The price per file never enters the price. */
  lemma PerFileIgnored(weight: real, counts: ItemCounts, prices: Prices, x: real)
    ensures ReferencePrice(weight, counts, prices[PerFile := x]) == ReferencePrice(weight, counts, prices)
  {
    var p' := prices[PerFile := x];
    forall f | f != PerFile ensures PriceOf(p', f) == PriceOf(prices, f) { }
  }

  // ---------------------------------------------------------------------------
  // Package request validation
  // ---------------------------------------------------------------------------

  /** What the client sent; absent fields fall back to the stored request, then to the defaults. */
  datatype RequestInput = RequestInput(
    listing: Option<ListingView>,
    description: Option<string>,
    weight: Option<real>,
    counts: map<ItemField, nat>)

  /** The stored request, on update. */
  datatype StoredRequest = StoredRequest(description: string, weight: real, counts: ItemCounts, status: RequestStatus)

  function EffectiveWeight(input: RequestInput, instance: Option<StoredRequest>): real {
    if input.weight.Some? then input.weight.value
    else if instance.Some? then instance.value.weight
    else 0.0
  }

  function EffectiveDescription(input: RequestInput, instance: Option<StoredRequest>): string {
    if input.description.Some? then input.description.value
    else if instance.Some? then instance.value.description
    else ""
  }

  function EffectiveCount(input: RequestInput, instance: Option<StoredRequest>, f: ItemField): nat {
    if f in input.counts then input.counts[f]
    else if instance.Some? then instance.value.counts.Count(f)
    else 0
  }

  function EffectiveCounts(input: RequestInput, instance: Option<StoredRequest>): (c: ItemCounts)
    ensures forall f: ItemField :: c.Count(f) == EffectiveCount(input, instance, f)
  {
    ItemCounts(EffectiveCount(input, instance, Documents), EffectiveCount(input, instance, Phones),
               EffectiveCount(input, instance, Tablets), EffectiveCount(input, instance, Pcs),
               EffectiveCount(input, instance, FullSuitcases))
  }

  /** The weight an accepted request being edited adds back. */
  function OwnAcceptedWeight(instance: Option<StoredRequest>): real {
    if instance.Some? && instance.value.status == Accepted then instance.value.weight else 0.0
  }

  /**
   * The capacity check as written: the weights of the accepted requests are
   * subtracted from `maximum_weight_in_kg`, which accepting a request has
   * already lowered by the same weights.
   */
  function AvailableWeightAsWritten(maximumWeight: real, acceptedWeights: seq<real>, instance: Option<StoredRequest>): real {
    maximumWeight - (Sum(acceptedWeights) - OwnAcceptedWeight(instance))
  }

  /** The capacity check as intended: the stored maximum is already what is left. */
  function AvailableWeight(maximumWeight: real, instance: Option<StoredRequest>): real {
    maximumWeight + OwnAcceptedWeight(instance)
  }

  /** The capacity left after accepting requests of the given weights, one after the other. */
  function CapacityAfterAccepting(capacity: real, weights: seq<real>): real {
    if weights == [] then capacity
    else CapacityAfterAccept(CapacityAfterAccepting(capacity, weights[..|weights| - 1]), weights[|weights| - 1]).0
  }

  /**
   * When the accepted weights fit, the stored maximum is the original
   * capacity minus them, so the intended check offers exactly that to a new
   * request, while the check as written subtracts the accepted weights twice.
   */
  lemma {:induction false} AvailableWeightIsWhatIsLeft(capacity: real, weights: seq<real>)
    requires forall i | 0 <= i < |weights| :: weights[i] >= 0.0
    requires Sum(weights) <= capacity
    ensures CapacityAfterAccepting(capacity, weights) == capacity - Sum(weights)
    ensures AvailableWeight(CapacityAfterAccepting(capacity, weights), None) == capacity - Sum(weights)
    ensures AvailableWeightAsWritten(CapacityAfterAccepting(capacity, weights), weights, None) == capacity - 2.0 * Sum(weights)
  {
    if weights != [] {
      var init := weights[..|weights| - 1];
      SumNonNegative(init);
      assert Sum(init) <= capacity;
      AvailableWeightIsWhatIsLeft(capacity, init);
    }
  }

  lemma {:induction false} SumNonNegative(xs: seq<real>)
    requires forall i | 0 <= i < |xs| :: xs[i] >= 0.0
    ensures Sum(xs) >= 0.0
  {
    if xs != [] {
      SumNonNegative(xs[..|xs| - 1]);
    }
  }

  /** Ten kilos offered, six accepted: the check as written refuses three more kilos though four are left. */
  lemma CapacityDoubleCounted()
    ensures CapacityAfterAccepting(10.0, [6.0]) == 4.0
    ensures AvailableWeightAsWritten(CapacityAfterAccepting(10.0, [6.0]), [6.0], None) == -2.0
    ensures 3.0 > AvailableWeightAsWritten(CapacityAfterAccepting(10.0, [6.0]), [6.0], None)
    ensures 3.0 <= AvailableWeight(CapacityAfterAccepting(10.0, [6.0]), None)
  {
    assert Sum([6.0]) == 6.0 by { assert [6.0][..0] == []; }
    assert CapacityAfterAccepting(10.0, [6.0]) == 4.0 by { assert [6.0][..0] == []; }
  }

  datatype RequestError =
    | DescriptionRequired
    | ListingNotPublished
    | OwnListing
    | AlreadyStarted
    | ExceedsCapacity(requested: real, available: real)
    | InsufficientRequestBalance(required: real)

  /** The rules on the target listing, in the order they are checked. */
  function ListingRule(l: ListingView, requester: Option<UserId>, now: int, weight: real, available: real): Option<RequestError> {
    if l.status != Published then Some(ListingNotPublished)
    else if requester.Some? && l.owner == requester.value then Some(OwnListing)
    else if l.departure <= now then Some(AlreadyStarted)
    else if weight > available then Some(ExceedsCapacity(weight, available))
    else None
  }

  /**
   * `PackageRequestSerializer.validate`, with the intended capacity rule
   * (`AvailableWeight`, not `AvailableWeightAsWritten`). `requester` is the
   * user of the request context, `funds` the requester's wallet.
   */
  function ValidateRequest(input: RequestInput, instance: Option<StoredRequest>, requester: Option<UserId>, now: int,
                           funds: MoneyModels.Funds, config: MoneyModels.PlatformConfig): (r: Result<(), RequestError>)
    ensures var weight := EffectiveWeight(input, instance);
      r == Err(DescriptionRequired) <==> weight > 0.0 && IsBlank(EffectiveDescription(input, instance))
    // each listing rule, in the order checked, gives its own error
    ensures input.listing.Some? ==>
      var l := input.listing.value;
      var weight := EffectiveWeight(input, instance);
      var described := !(weight > 0.0 && IsBlank(EffectiveDescription(input, instance)));
      var own := requester.Some? && l.owner == requester.value;
      var available := AvailableWeight(l.maximumWeight, instance);
      && (r == Err(ListingNotPublished) <==> described && l.status != Published)
      && (r == Err(OwnListing) <==> described && l.status == Published && own)
      && (r == Err(AlreadyStarted) <==> described && l.status == Published && !own && l.departure <= now)
      && (r.Err? && r.error.ExceedsCapacity? <==>
            described && l.status == Published && !own && now < l.departure && weight > available)
      && (r.Err? && r.error.ExceedsCapacity? ==> r.error == ExceedsCapacity(weight, available))
    // the balance is the last rule, on creation only
    ensures var weight := EffectiveWeight(input, instance);
      r.Err? && r.error.InsufficientRequestBalance? <==>
        && instance.None? && requester.Some? && input.listing.Some?
        && !(weight > 0.0 && IsBlank(EffectiveDescription(input, instance)))
        && var l := input.listing.value;
        && l.status == Published && l.owner != requester.value && now < l.departure
        && weight <= AvailableWeight(l.maximumWeight, instance)
        && !WalletService.CheckBalanceForRequest(funds, config,
              ReferencePrice(weight, EffectiveCounts(input, instance), l.prices))
    ensures r.Err? && r.error.InsufficientRequestBalance? ==>
      r.error.required == config.minBalanceForPackageRequest
                          + ReferencePrice(EffectiveWeight(input, instance), EffectiveCounts(input, instance), input.listing.value.prices)
    // accepted exactly when every rule holds
    ensures r.Ok? <==>
      && !(EffectiveWeight(input, instance) > 0.0 && IsBlank(EffectiveDescription(input, instance)))
      && (input.listing.Some? ==>
            var l := input.listing.value;
            && l.status == Published
            && (requester.Some? ==> l.owner != requester.value)
            && now < l.departure
            && EffectiveWeight(input, instance) <= AvailableWeight(l.maximumWeight, instance))
      && (instance.None? && requester.Some? && input.listing.Some? ==>
            WalletService.CheckBalanceForRequest(funds, config,
              ReferencePrice(EffectiveWeight(input, instance), EffectiveCounts(input, instance), input.listing.value.prices)))
  {
    var weight := EffectiveWeight(input, instance);
    var description := EffectiveDescription(input, instance);
    if weight > 0.0 && IsBlank(description) then Err(DescriptionRequired)
    else
      var listingError :=
        if input.listing.Some?
        then ListingRule(input.listing.value, requester, now, weight, AvailableWeight(input.listing.value.maximumWeight, instance))
        else None;
      if listingError.Some? then Err(listingError.value)
      else if instance.None? && requester.Some? && input.listing.Some? then
        var price := ReferencePrice(weight, EffectiveCounts(input, instance), input.listing.value.prices);
        if !WalletService.CheckBalanceForRequest(funds, config, price)
        then Err(InsufficientRequestBalance(config.minBalanceForPackageRequest + price))
        else Ok(())
      else Ok(())
  }

  /** An edit of an existing request never consults the wallet. */
  lemma EditIgnoresBalance(input: RequestInput, stored: StoredRequest, requester: Option<UserId>, now: int,
                           f1: MoneyModels.Funds, f2: MoneyModels.Funds, config: MoneyModels.PlatformConfig)
    ensures ValidateRequest(input, Some(stored), requester, now, f1, config)
         == ValidateRequest(input, Some(stored), requester, now, f2, config)
  {
  }

  // ---------------------------------------------------------------------------
  // Package request create and update
  // ---------------------------------------------------------------------------

  /**
   * `PackageRequestSerializer.create`: the price is computed, the request is
   * written, then fee and lock are taken; if the wallet refuses, the request is
   * deleted again and the wallet's error is returned.
   */
  method CreateRequest(market: Marketplace, id: nat, requester: UserId, listing: TravelListing,
                       description: string, weight: real, counts: ItemCounts,
                       wallet: MoneyModels.Wallet, ledger: MoneyModels.Ledger, config: MoneyModels.PlatformConfig,
                       feeRef: string, lockRef: string)
    returns (r: Result<PackageRequest, WalletService.WalletError>)
    requires wallet.owner == requester
    requires ledger.Valid() && feeRef != lockRef
    requires feeRef !in MoneyModels.References(ledger.transactions) && lockRef !in MoneyModels.References(ledger.transactions)
    modifies market, wallet, ledger
    ensures ledger.Valid()
    ensures var price := ReferencePrice(weight, counts, listing.prices);
      r.Ok? <==> WalletService.CheckBalanceForRequest(old(wallet.Snapshot()), config, price)
    ensures r.Err? ==>
      && r.error == WalletService.RequestFeeAndLockOutcome(old(wallet.Snapshot()), config, ReferencePrice(weight, counts, listing.prices)).error
      && market.requests == old(market.requests)
      && wallet.Snapshot() == old(wallet.Snapshot())
      && ledger.transactions == old(ledger.transactions)
    ensures r.Ok? ==>
      var price := ReferencePrice(weight, counts, listing.prices);
      && fresh(r.value)
      && market.requests == old(market.requests) + [r.value]
      && r.value.id == id && r.value.requester == requester && r.value.listing == listing
      && r.value.description == description && r.value.weight == weight && r.value.counts == counts
      && r.value.totalPrice == price && r.value.status == Pending
      && wallet.Snapshot() == WalletService.RequestFeeAndLockOutcome(old(wallet.Snapshot()), config, price).value
      && ledger.transactions == old(ledger.transactions)
         + [WalletService.RequestFeeRecord(wallet, config.minBalanceForPackageRequest, feeRef, id),
            WalletService.LockRecord(wallet, price, lockRef, id)]
    ensures market.listings == old(market.listings)
  {
    var totalPrice := CalculatePrice(weight, counts, listing.prices);
    var request := new PackageRequest(id, requester, listing, description, weight, counts, totalPrice);
    market.requests := market.requests + [request];
    var charged := WalletService.DeductRequestFeeAndLockAmount(wallet, ledger, config, id, totalPrice, feeRef, lockRef);
    if charged.Err? {
      market.requests := market.requests[..|market.requests| - 1];
      return Err(charged.error);
    }
    r := Ok(request);
  }

  /** What an edit sends: any of the target listing, the description, the weight and the counters. */
  datatype RequestChanges = RequestChanges(
    listing: Option<TravelListing>,
    description: Option<string>,
    weight: Option<real>,
    counts: map<ItemField, nat>)

  /**
   * `PackageRequestSerializer.update`: the price is recomputed from the new
   * values and stored; the locked amount in the wallet stays what it was.
   */
  method UpdateRequest(req: PackageRequest, changes: RequestChanges)
    modifies req
    ensures req.listing == (if changes.listing.Some? then changes.listing.value else old(req.listing))
    ensures req.description == (if changes.description.Some? then changes.description.value else old(req.description))
    ensures req.weight == (if changes.weight.Some? then changes.weight.value else old(req.weight))
    ensures forall f: ItemField :: req.counts.Count(f) == if f in changes.counts then changes.counts[f] else old(req.counts).Count(f)
    ensures req.totalPrice == ReferencePrice(req.weight, req.counts, req.listing.prices)
    ensures req.status == old(req.status)
  {
    var listing := if changes.listing.Some? then changes.listing.value else req.listing;
    var stored := StoredRequest(req.description, req.weight, req.counts, req.status);
    var input := RequestInput(None, changes.description, changes.weight, changes.counts);
    var weight := EffectiveWeight(input, Some(stored));
    var counts := EffectiveCounts(input, Some(stored));
    var totalPrice := CalculatePrice(weight, counts, listing.prices);
    req.listing := listing;
    req.description := EffectiveDescription(input, Some(stored));
    req.weight := weight;
    req.counts := counts;
    req.totalPrice := totalPrice;
  }

  /**
   * Raising the price of a request after its lock: 30 was locked, the edit
   * makes it 50, and completing it releases 50 from a lock of 30.
   */
  lemma RepricedReleaseOverdrawsLock(config: MoneyModels.PlatformConfig)
    requires config.minBalanceForPackageRequest == 10.0
    ensures var locked := WalletService.RequestFeeAndLockOutcome(MoneyModels.Funds(100.0, 0.0), config, 30.0);
      && locked == Ok(MoneyModels.Funds(60.0, 30.0))
      && WalletService.ReleaseOutcome(locked.value, MoneyModels.Funds(0.0, 0.0), 50.0, config).0
         == MoneyModels.Funds(60.0, -20.0)
  {
  }
}
