/**
 * The frontend's form predicates. The first four test the same regular
 * expressions as the backend, so they are the same languages; the bid check
 * compares the parsed amount with the listing's reserve.
 */
module FrontendValidators {
  import opened Wrappers
  import opened Text
  import opened Json
  import opened Money
  import opened Patterns
  import opened AuthValidator
  import opened BidValidator
  import opened AuthService

  /**
   * `validateEmail`: the backend's e-mail pattern. An address it accepts has
   * an `@` and no white space, so the schema's `trim` leaves it as typed.
   */
  function ValidateEmail(email: string): (r: bool)
    ensures r <==> EmailPattern(email)
    ensures r ==> '@' in email && NoSpace(email) && Trim(email) == email
  {
    if EmailPattern(email) then
      EmailHasNoSpace(email);
      TrimWithoutSpace(email);
      true
    else false
  }

  /**
   * `validatePassword`: the backend's password pattern. A password it accepts
   * meets the schema's minimum length and holds no white space.
   */
  function ValidatePassword(password: string): (r: bool)
    ensures r <==> PasswordPattern(password)
    ensures r ==> |password| >= PasswordMinLength && NoSpace(password)
  {
    PasswordPattern(password)
  }

  /** `validatePhone`: exactly the ten-digit strings the schema's `match` accepts. */
  function ValidatePhone(phone: string): (r: bool)
    ensures r <==> DigitsOfLength(phone, 10)
    ensures r ==> NoSpace(phone) && Trim(phone) == phone
  {
    if DigitsOfLength(phone, 10) then
      TrimWithoutSpace(phone);
      true
    else false
  }

  /** `validateZip`: exactly the five-digit strings the schema's `match` accepts. */
  function ValidateZip(zip: string): (r: bool)
    ensures r <==> DigitsOfLength(zip, 5)
    ensures r ==> NoSpace(zip) && Trim(zip) == zip
  {
    if DigitsOfLength(zip, 5) then
      TrimWithoutSpace(zip);
      true
    else false
  }

  /**
   * `!isNaN(parseFloat(bidAmount)) && bid > reserveAmount`; `None` is a `NaN`
   * parse. Over a reserve that is not negative, an accepted amount is positive.
   */
  function ValidateBidAmount(parsed: Option<real>, reserveAmount: real): (r: bool)
    ensures r ==> parsed.Some? && parsed.value > reserveAmount
    ensures r && reserveAmount >= 0.0 ==> parsed.value > 0.0
    ensures parsed.None? ==> !r
  {
    parsed.Some? && parsed.value > reserveAmount
  }

  /**
   * A registration body the backend accepts passes all four form checks, and
   * among bodies with every required field, the backend's e-mail rejection
   * happens exactly when the form's e-mail check fails.
   */
  lemma FormChecksAgreeWithRegistration(b: RegistrationBody)
    ensures ValidateRegistration(b).None? ==>
      && ValidateEmail(b.email.value) && ValidatePassword(b.password.value)
      && ValidatePhone(b.phone.value) && ValidateZip(b.zipCode.value)
    ensures RequiredGiven(b) ==>
      (ValidateRegistration(b) == Some(Errors.BadRequest(BadEmail)) <==> !ValidateEmail(b.email.value))
    ensures RequiredGiven(b) && ValidateEmail(b.email.value) ==>
      (ValidateRegistration(b) == Some(Errors.BadRequest(BadPassword)) <==> !ValidatePassword(b.password.value))
    ensures RequiredGiven(b) && ValidateEmail(b.email.value) && ValidatePassword(b.password.value) ==>
      (ValidateRegistration(b) == Some(Errors.BadRequest(BadPhone)) <==> !ValidatePhone(b.phone.value))
    ensures (RequiredGiven(b) && ValidateEmail(b.email.value) && ValidatePassword(b.password.value)
             && ValidatePhone(b.phone.value)) ==>
      (ValidateRegistration(b) == Some(Errors.BadRequest(BadZip)) <==> !ValidateZip(b.zipCode.value))
  {
  }

  /**
   * On amounts in cents, the form's check accepts exactly the bids the bid
   * service does not reject as being at or below the reserve. Over a reserve
   * that is not negative, it also accepts only bids the backend's bid
   * validator lets through, and every bid both of them let through.
   */
  lemma {:induction false} BidCheckAgreesWithBackend(amount: Cents, reserve: Cents, cptDataId: JsValue)
    ensures ValidateBidAmount(Some(Dollars(amount)), Dollars(reserve)) <==> amount > reserve
    ensures reserve >= 0 && Truthy(cptDataId) ==>
      (ValidateBidAmount(Some(Dollars(amount)), Dollars(reserve)) <==>
         ValidateBid(BidBody(Num(Dollars(amount)), cptDataId)).None? && amount > reserve)
  {
    if amount > reserve {
      assert (amount - reserve) as real > 0.0;
    } else {
      assert (reserve - amount) as real >= 0.0;
    }
  }
}
