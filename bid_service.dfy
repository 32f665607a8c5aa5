/**
 * The bid service: a user places a bid on a listing, lists their own bids,
 * reads one of them, and changes the amount of one still pending.
 */
module BidService {
  import opened Wrappers
  import opened Money
  import opened Tables
  import opened Errors
  import opened UserModel
  import opened ListingModel
  import opened BidModel
  import opened Store

  const ListingNotFound := "CPT data not found."
  const BidNotFound := "Bid not found."
  const NotYoursToView := "Not authorized to view this bid."
  const NotYoursToUpdate := "Not authorized to update this bid."
  const AlreadyReviewed := "Cannot update a bid that has already been reviewed."
  /** Mongoose's message for a `required` path left without a value. */
  const AmountRequired := "Path `bidAmount` is required."

  const ReservePrefix := "Bid amount must be greater than the reserve amount of $"

  /**
   * The 400 for an amount at or under the reserve. The message names the
   * reserve in dollars: what follows the `$`, up to the closing `.`, reads
   * back as the reserve.
   */
  function BelowReserve(reserve: Cents): (f: Failure)
    ensures f.AppError? && f.statusCode == 400
    ensures |f.message| > |ReservePrefix| + 1
    ensures f.message[..|ReservePrefix|] == ReservePrefix && f.message[|f.message| - 1] == '.'
    ensures ParseMoney(f.message[|ReservePrefix|..|f.message| - 1]) == Some(reserve)
  {
    var amount := MoneyText(reserve);
    var message := ReservePrefix + amount + ".";
    assert message[..|ReservePrefix|] == ReservePrefix;
    assert message[|ReservePrefix|..|message| - 1] == amount;
    BadRequest(message)
  }

  /**
   * `placeBid`: a bid on a listing that does not exist is a 404, a bid at or
   * under the reserve a 400; otherwise a new pending bid is stored.
   */
  method PlaceBid(db: Db, userId: UserId, cptDataId: ListingId, bidAmount: Cents) returns (r: Result<Bid, Failure>)
    requires db.Valid()
    modifies db
    ensures db.Valid()
    ensures db.users == old(db.users) && db.listings == old(db.listings)
    ensures ReserveOf(db.listings, cptDataId).None? ==>
      r == Err(NotFound(ListingNotFound)) && unchanged(db)
    ensures ReserveOf(db.listings, cptDataId).Some? && bidAmount <= ReserveOf(db.listings, cptDataId).value ==>
      r == Err(BelowReserve(ReserveOf(db.listings, cptDataId).value)) && unchanged(db)
    ensures ReserveOf(db.listings, cptDataId).Some? && bidAmount > ReserveOf(db.listings, cptDataId).value ==>
      && r == Ok(NewBid(old(db.nextId), userId, cptDataId, bidAmount, old(db.clock)))
      && db.bids == old(db.bids) + [r.value]
      && db.clock == old(db.clock) + 1 && db.nextId == old(db.nextId) + 1
  {
    var reserve := ReserveOf(db.listings, cptDataId);
    if reserve.None? {
      return Err(NotFound(ListingNotFound));
    }
    if bidAmount <= reserve.value {
      return Err(BelowReserve(reserve.value));
    }
    var bid := NewBid(db.nextId, userId, cptDataId, bidAmount, db.clock);
    db.AddBid(bid);
    r := Ok(bid);
  }

  /** `getUserBids`: the user's bids and no others, newest first. */
  function GetUserBids(db: Db, userId: UserId): (r: seq<Bid>)
    reads db
    requires db.Valid()
    ensures forall b :: b in r <==> b in db.bids && b.userId == userId
    ensures DecreasingBy(r, CreatedAt)
  {
    NewestFirst(db.bids, OwnedBy(userId))
  }

  /** A bid just placed heads its owner's list, ahead of everything they placed before. */
  lemma {:induction false} PlacedBidListedFirst(bids: seq<Bid>, b: Bid)
    requires IncreasingBy(bids + [b], CreatedAt)
    ensures IncreasingBy(bids, CreatedAt)
    ensures NewestFirst(bids + [b], OwnedBy(b.userId)) == [b] + NewestFirst(bids, OwnedBy(b.userId))
  {
    assert forall i :: 0 <= i < |bids| ==> bids[i] == (bids + [b])[i];
    FilterAppend(bids, b, OwnedBy(b.userId));
    var f := Filter(bids, OwnedBy(b.userId));
    assert (f + [b])[..|f|] == f;
  }

  /** Ids are unique, so a bid with the id asked for is the one `findById` returns. */
  lemma BidWithIdIsFound(db: Db, bidId: BidId)
    requires db.Valid()
    ensures forall b :: b in db.bids && b.id == bidId ==>
      FindBid(db.bids, bidId).Some? && db.bids[FindBid(db.bids, bidId).value] == b
  {
    forall b | b in db.bids && b.id == bidId
      ensures FindBid(db.bids, bidId).Some? && db.bids[FindBid(db.bids, bidId).value] == b
    {
      var k :| 0 <= k < |db.bids| && db.bids[k] == b;
      FindBidUnique(db.bids, db.listings, db.nextId, db.clock, bidId, k);
    }
  }

  /**
   * `getBidById`: only the owner may read a bid. A missing bid is a 404 and a
   * bid of someone else a 403; an administrator gets no exception.
   */
  function GetBidById(db: Db, bidId: BidId, userId: UserId): (r: Result<Bid, Failure>)
    reads db
    requires db.Valid()
    ensures r.Ok? <==> exists b :: b in db.bids && b.id == bidId && b.userId == userId
    ensures r.Ok? ==> r.value in db.bids && r.value.id == bidId
    ensures r == Err(NotFound(BidNotFound)) <==> forall b :: b in db.bids ==> b.id != bidId
    ensures r == Err(Forbidden(NotYoursToView)) <==> exists b :: b in db.bids && b.id == bidId && b.userId != userId
  {
    BidWithIdIsFound(db, bidId);
    match FindBid(db.bids, bidId)
    case None => Err(NotFound(BidNotFound))
    case Some(i) =>
      if db.bids[i].userId != userId then Err(Forbidden(NotYoursToView)) else Ok(db.bids[i])
  }

  /**
   * `updateBid`: the checks run in the order 404, 403, already reviewed,
   * reserve; a missing amount passes the reserve comparison and then fails
   * the schema on save. On success only the amount (and, if it changed, the
   * update time) of that one bid changes.
   */
  method UpdateBid(db: Db, bidId: BidId, userId: UserId, bidAmount: Option<Cents>) returns (r: Result<Bid, Failure>)
    requires db.Valid()
    modifies db
    ensures db.Valid()
    ensures db.users == old(db.users) && db.listings == old(db.listings) && db.nextId == old(db.nextId)
    ensures r.Err? ==> unchanged(db)
    ensures FindBid(old(db.bids), bidId).None? ==> r == Err(NotFound(BidNotFound))
    ensures FindBid(old(db.bids), bidId).Some? ==>
      var i := FindBid(old(db.bids), bidId).value;
      var b := old(db.bids)[i];
      var reserve := ReserveOf(old(db.listings), b.cptDataId).value;
      if b.userId != userId then r == Err(Forbidden(NotYoursToUpdate))
      else if b.status != Pending then r == Err(BadRequest(AlreadyReviewed))
      else if bidAmount.None? then r == Err(ValidationError([AmountRequired]))
      else if bidAmount.value <= reserve then r == Err(BelowReserve(reserve))
      else if bidAmount.value == b.bidAmount then r == Ok(b) && unchanged(db)
      else
        && r == Ok(b.(bidAmount := bidAmount.value, updatedAt := old(db.clock)))
        && db.bids == old(db.bids)[i := r.value]
        && db.clock == old(db.clock) + 1
  {
    var found := FindBid(db.bids, bidId);
    if found.None? {
      return Err(NotFound(BidNotFound));
    }
    var i := found.value;
    var b := db.bids[i];
    if b.userId != userId {
      return Err(Forbidden(NotYoursToUpdate));
    }
    if b.status != Pending {
      return Err(BadRequest(AlreadyReviewed));
    }
    assert AboveReserve(db.bids[i], db.listings);
    var reserve := ReserveOf(db.listings, b.cptDataId).value;
    if bidAmount.Some? && bidAmount.value <= reserve {
      return Err(BelowReserve(reserve));
    }
    if bidAmount.None? {
      return Err(ValidationError([AmountRequired]));
    }
    if bidAmount.value == b.bidAmount {
      return Ok(b);
    }
    var updated := b.(bidAmount := bidAmount.value, updatedAt := db.clock);
    db.ReplaceBid(i, updated);
    r := Ok(updated);
  }
}
