/** `validateBid`, run before `POST /bid`: two guard checks on the body. */
module BidValidator {
  import opened Wrappers
  import opened Json
  import opened Errors

  datatype BidBody = BidBody(bidAmount: JsValue, cptDataId: JsValue)

  const MissingBidFields := "Bid amount and CPT data ID are required."
  const NotPositive := "Bid amount must be a positive number."

  function ValidateBid(b: BidBody): (r: Option<Failure>)
    ensures r.None? <==> b.bidAmount.Num? && b.bidAmount.n > 0.0 && Truthy(b.cptDataId)
    ensures r == Some(BadRequest(MissingBidFields)) <==> !Truthy(b.bidAmount) || !Truthy(b.cptDataId)
    ensures r == Some(BadRequest(NotPositive)) <==>
      Truthy(b.bidAmount) && Truthy(b.cptDataId) && !(b.bidAmount.Num? && b.bidAmount.n > 0.0)
  {
    if !Truthy(b.bidAmount) || !Truthy(b.cptDataId) then Some(BadRequest(MissingBidFields))
    else if !b.bidAmount.Num? || b.bidAmount.n <= 0.0 then Some(BadRequest(NotPositive))
    else None
  }

  /** Zero is falsy, so it is reported as missing, not as non-positive. */
  lemma ZeroIsReportedMissing(id: JsValue)
    ensures ValidateBid(BidBody(Num(0.0), id)) == Some(BadRequest(MissingBidFields))
  {
  }
}
