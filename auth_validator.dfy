/**
 * `validateRegistration` and `validateLogin`: ordered chains of checks on the
 * request body, where the first check that fails decides the 400 message.
 */
module AuthValidator {
  import opened Wrappers
  import opened Text
  import opened Json
  import opened Errors
  import opened Patterns

  /** The registration body; `None` is a field the client left out. */
  datatype RegistrationBody = RegistrationBody(
    firstName: Option<string>,
    lastName: Option<string>,
    email: Option<string>,
    password: Option<string>,
    phone: Option<string>,
    zipCode: Option<string>,
    userType: Option<string>,
    numberOfEmployees: Option<real>,
    planType: Option<string>,
    role: Option<string>)

  const MissingFields := "All required fields must be provided."
  const BadEmail := "Invalid email format."
  const BadPassword := "Password must be at least 8 characters and include uppercase, lowercase, number, and special character."
  const BadPhone := "Phone number must be exactly 10 digits."
  const BadZip := "ZIP code must be exactly 5 digits."
  const BadType := "User type must be patient, broker, or employer."
  const MissingEmployees := "Number of employees is required for broker/employer."
  const BadPlan := "Valid plan type is required for broker/employer."
  const MissingCredentials := "Email and password are required."

  const ValidTypes: seq<string> := ["patient", "broker", "employer"]
  const ValidPlans: seq<string> := ["PPO", "HMO", "EPO", "HDHP", "Custom"]

  predicate RequiredGiven(b: RegistrationBody) {
    && Given(b.firstName) && Given(b.lastName) && Given(b.email) && Given(b.password)
    && Given(b.phone) && Given(b.zipCode) && Given(b.userType)
  }

  /** `!!numberOfEmployees` */
  predicate EmployeesGiven(b: RegistrationBody) {
    b.numberOfEmployees.Some? && b.numberOfEmployees.value != 0.0
  }

  predicate PlanGiven(b: RegistrationBody) {
    Given(b.planType) && b.planType.value in ValidPlans
  }

  predicate IsBusiness(t: string) {
    t == "broker" || t == "employer"
  }

  /** Every check of the chain holds, whatever the order. */
  predicate Accepted(b: RegistrationBody) {
    && RequiredGiven(b)
    && EmailPattern(b.email.value)
    && PasswordPattern(b.password.value)
    && DigitsOfLength(b.phone.value, 10)
    && DigitsOfLength(b.zipCode.value, 5)
    && b.userType.value in ValidTypes
    && (IsBusiness(b.userType.value) ==> EmployeesGiven(b) && PlanGiven(b))
  }

  /** The field checks that come before the user type: presence, e-mail, password, phone and ZIP code. */
  predicate FieldsWellFormed(b: RegistrationBody) {
    && RequiredGiven(b)
    && EmailPattern(b.email.value)
    && PasswordPattern(b.password.value)
    && DigitsOfLength(b.phone.value, 10)
    && DigitsOfLength(b.zipCode.value, 5)
  }

  /**
   * The body passes exactly when every check holds, and each message is given
   * exactly when its check is the first one in the chain to fail.
   */
  function ValidateRegistration(b: RegistrationBody): (r: Option<Failure>)
    ensures r.None? <==> Accepted(b)
    ensures r.Some? ==> r.value.AppError? && r.value.statusCode == 400
    ensures r == Some(BadRequest(MissingFields)) <==> !RequiredGiven(b)
    ensures r == Some(BadRequest(BadEmail)) <==> RequiredGiven(b) && !EmailPattern(b.email.value)
    ensures r == Some(BadRequest(BadPassword)) <==>
      RequiredGiven(b) && EmailPattern(b.email.value) && !PasswordPattern(b.password.value)
    ensures r == Some(BadRequest(BadPhone)) <==>
      && RequiredGiven(b) && EmailPattern(b.email.value) && PasswordPattern(b.password.value)
      && !DigitsOfLength(b.phone.value, 10)
    ensures r == Some(BadRequest(BadZip)) <==>
      && RequiredGiven(b) && EmailPattern(b.email.value) && PasswordPattern(b.password.value)
      && DigitsOfLength(b.phone.value, 10) && !DigitsOfLength(b.zipCode.value, 5)
    ensures r == Some(BadRequest(BadType)) <==> FieldsWellFormed(b) && b.userType.value !in ValidTypes
    ensures r == Some(BadRequest(MissingEmployees)) <==>
      FieldsWellFormed(b) && b.userType.value in ValidTypes && IsBusiness(b.userType.value) && !EmployeesGiven(b)
    ensures r == Some(BadRequest(BadPlan)) <==>
      && FieldsWellFormed(b) && b.userType.value in ValidTypes && IsBusiness(b.userType.value)
      && EmployeesGiven(b) && !PlanGiven(b)
    ensures b.userType == Some("patient") ==> r != Some(BadRequest(MissingEmployees)) && r != Some(BadRequest(BadPlan))
  {
    if !RequiredGiven(b) then Some(BadRequest(MissingFields))
    else if !EmailPattern(b.email.value) then Some(BadRequest(BadEmail))
    else if !PasswordPattern(b.password.value) then Some(BadRequest(BadPassword))
    else if !DigitsOfLength(b.phone.value, 10) then Some(BadRequest(BadPhone))
    else if !DigitsOfLength(b.zipCode.value, 5) then Some(BadRequest(BadZip))
    else if b.userType.value !in ValidTypes then Some(BadRequest(BadType))
    else if IsBusiness(b.userType.value) && !EmployeesGiven(b) then Some(BadRequest(MissingEmployees))
    else if IsBusiness(b.userType.value) && !PlanGiven(b) then Some(BadRequest(BadPlan))
    else None
  }

  function ValidateLogin(email: Option<string>, password: Option<string>): (r: Option<Failure>)
    ensures r.Some? <==> !Given(email) || !Given(password)
    ensures r.Some? ==> r.value == BadRequest(MissingCredentials)
  {
    if !Given(email) || !Given(password) then Some(BadRequest(MissingCredentials)) else None
  }
}
