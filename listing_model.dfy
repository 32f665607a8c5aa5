/** The CPTData document: one procedure code offered in one area, with its reserve price. */
module ListingModel {
  import opened Money

  type ListingId = nat

  datatype Listing = Listing(
    id: ListingId,
    specialty: string,
    cptCode: string,
    description: string,
    county: string,
    state: string,
    zipCode: string,
    avgCharge: Cents,
    minCharge: Cents,
    maxCharge: Cents,
    reserveAmount: Cents)

  /** `required: true` on the six string paths: none may be empty. */
  predicate Conforms(l: Listing) {
    && l.specialty != "" && l.cptCode != "" && l.description != ""
    && l.county != "" && l.state != "" && l.zipCode != ""
  }
}
