/**
 * Travel listings and package requests. A listing's capacity, status and
 * prices, and a request's items, price and status are updated in place, so
 * both are classes.
 */
module ListingsModels {
  import MoneyModels

  type UserId = MoneyModels.UserId

  datatype ListingStatus = Drafted | Published | Completed | Canceled | FullyBooked

  datatype RequestStatus = Pending | Accepted | Rejected | Completed

  function ListingStatusName(s: ListingStatus): string {
    match s
    case Drafted => "drafted"
    case Published => "published"
    case Completed => "completed"
    case Canceled => "canceled"
    case FullyBooked => "fully-booked"
  }

  function RequestStatusName(s: RequestStatus): string {
    match s
    case Pending => "pending"
    case Accepted => "accepted"
    case Rejected => "rejected"
    case Completed => "completed"
  }

  /** The seven price columns of a listing. `PerFile` is stored but no rule reads it. */
  datatype PriceField = PerKg | PerDocument | PerPhone | PerTablet | PerPc | PerFile | FullSuitcase

  /** The item counters of a request. */
  datatype ItemField = Documents | Phones | Tablets | Pcs | FullSuitcases

  datatype ItemCounts = ItemCounts(documents: nat, phones: nat, tablets: nat, pcs: nat, fullSuitcases: nat) {
    function Count(f: ItemField): nat {
      match f
      case Documents => documents
      case Phones => phones
      case Tablets => tablets
      case Pcs => pcs
      case FullSuitcases => fullSuitcases
    }
  }

  const NoItems := ItemCounts(0, 0, 0, 0, 0)

  /** Prices as stored: a field that is absent from the map is null. */
  type Prices = map<PriceField, real>

  class TravelListing {
    const id: nat
    const owner: UserId
    /** `travel_date` combined with `travel_time`, as a timestamp. */
    const departure: int
    var status: ListingStatus
    /** What is left of the capacity, in kg: accepting a request lowers it. */
    var maximumWeight: real
    var prices: Prices

    constructor (id: nat, owner: UserId, departure: int, status: ListingStatus, maximumWeight: real, prices: Prices)
      ensures this.id == id && this.owner == owner && this.departure == departure
      ensures this.status == status && this.maximumWeight == maximumWeight && this.prices == prices
    {
      this.id := id;
      this.owner := owner;
      this.departure := departure;
      this.status := status;
      this.maximumWeight := maximumWeight;
      this.prices := prices;
    }
  }

  class PackageRequest {
    const id: nat
    const requester: UserId
    var listing: TravelListing
    var description: string
    var weight: real
    var counts: ItemCounts
    var totalPrice: real
    var status: RequestStatus

    constructor (id: nat, requester: UserId, listing: TravelListing, description: string, weight: real,
                 counts: ItemCounts, totalPrice: real)
      ensures this.id == id && this.requester == requester && this.listing == listing
      ensures this.description == description && this.weight == weight && this.counts == counts
      ensures this.totalPrice == totalPrice && status == Pending
    {
      this.id := id;
      this.requester := requester;
      this.listing := listing;
      this.description := description;
      this.weight := weight;
      this.counts := counts;
      this.totalPrice := totalPrice;
      status := Pending;
    }
  }

  /** What the validation of a request reads from its target listing. */
  datatype ListingView = ListingView(owner: UserId, status: ListingStatus, departure: int, maximumWeight: real, prices: Prices)

  function View(l: TravelListing): (v: ListingView)
    reads l
    ensures v.owner == l.owner && v.status == l.status && v.departure == l.departure
    ensures v.maximumWeight == l.maximumWeight && v.prices == l.prices
  {
    ListingView(l.owner, l.status, l.departure, l.maximumWeight, l.prices)
  }

  /**
   * The capacity left after accepting a request of `weight` kg, and whether
   * the listing becomes fully booked: a result at or below zero is clamped to 0.
   */
  function CapacityAfterAccept(maximumWeight: real, weight: real): (r: (real, bool))
    ensures r.0 >= 0.0
    ensures r.1 <==> maximumWeight - weight <= 0.0
    ensures r.0 == if r.1 then 0.0 else maximumWeight - weight
  {
    var left := maximumWeight - weight;
    if left <= 0.0 then (0.0, true) else (left, false)
  }

  function Sum(xs: seq<real>): real {
    if xs == [] then 0.0 else Sum(xs[..|xs| - 1]) + xs[|xs| - 1]
  }

  /** The listing and request tables. */
  class Marketplace {
    var listings: seq<TravelListing>
    var requests: seq<PackageRequest>

    constructor ()
      ensures listings == [] && requests == []
    {
      listings := [];
      requests := [];
    }
  }
}
