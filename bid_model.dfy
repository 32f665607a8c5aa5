/** The Bid document: a user's offer on a listing, and its review status. */
module BidModel {
  import opened Wrappers
  import opened Money
  import opened UserModel
  import opened ListingModel

  type BidId = nat

  datatype BidStatus = Pending | Approved | Denied

  function StatusName(s: BidStatus): (r: string)
    ensures ParseStatus(r) == Some(s)
  {
    match s
    case Pending => "pending"
    case Approved => "approved"
    case Denied => "denied"
  }

  /** The `enum: ['pending', 'approved', 'denied']` check on a string. */
  function ParseStatus(s: string): (r: Option<BidStatus>)
    ensures r.Some? <==> s == "pending" || s == "approved" || s == "denied"
  {
    if s == "pending" then Some(Pending)
    else if s == "approved" then Some(Approved)
    else if s == "denied" then Some(Denied)
    else None
  }

  datatype Bid = Bid(
    id: BidId,
    userId: UserId,
    cptDataId: ListingId,
    bidAmount: Cents,
    status: BidStatus,
    adminComments: Option<string>,
    createdAt: nat,
    updatedAt: nat)

  /** `Bid.create({ userId, cptDataId, bidAmount })` at time `now`: the schema defaults fill the rest. */
  function NewBid(id: BidId, userId: UserId, cptDataId: ListingId, bidAmount: Cents, now: nat): (b: Bid)
    ensures b.status == Pending && b.adminComments == None
    ensures b.createdAt == now && b.updatedAt == now
  {
    Bid(id, userId, cptDataId, bidAmount, Pending, None, now, now)
  }

  /** Bids sort on this key, newest last in insertion order. */
  function CreatedAt(b: Bid): int {
    b.createdAt
  }
}
