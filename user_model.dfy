/**
 * The User document: its fields and their constraints, the enumerations it
 * draws from, the normalisation its setters apply to the e-mail, the
 * password hashing of its pre-save hook, and its `toJSON` projection.
 */
module UserModel {
  import opened Wrappers
  import opened Text

  type UserId = nat

  datatype UserType = Patient | Broker | Employer

  datatype PlanType = PPO | HMO | EPO | HDHP | Custom

  datatype Role = UserRole | AdminRole

  function UserTypeName(t: UserType): (r: string)
    ensures ParseUserType(r) == Some(t)
  {
    match t
    case Patient => "patient"
    case Broker => "broker"
    case Employer => "employer"
  }

  /** The `enum: ['patient', 'broker', 'employer']` check on a string. */
  function ParseUserType(s: string): (r: Option<UserType>)
    ensures r.Some? <==> s == "patient" || s == "broker" || s == "employer"
  {
    if s == "patient" then Some(Patient)
    else if s == "broker" then Some(Broker)
    else if s == "employer" then Some(Employer)
    else None
  }

  function PlanName(p: PlanType): (r: string)
    ensures ParsePlan(r) == Some(p)
  {
    match p
    case PPO => "PPO"
    case HMO => "HMO"
    case EPO => "EPO"
    case HDHP => "HDHP"
    case Custom => "Custom"
  }

  /** The `enum: ['PPO', 'HMO', 'EPO', 'HDHP', 'Custom']` check on a string. */
  function ParsePlan(s: string): (r: Option<PlanType>)
    ensures r.Some? <==> s in ValidPlans
  {
    if s == "PPO" then Some(PPO)
    else if s == "HMO" then Some(HMO)
    else if s == "EPO" then Some(EPO)
    else if s == "HDHP" then Some(HDHP)
    else if s == "Custom" then Some(Custom)
    else None
  }

  const ValidPlans: seq<string> := ["PPO", "HMO", "EPO", "HDHP", "Custom"]

  function RoleName(r: Role): (s: string)
    ensures ParseRole(s) == Some(r)
  {
    match r
    case UserRole => "user"
    case AdminRole => "admin"
  }

  /** The `enum: ['user', 'admin']` check on a string. */
  function ParseRole(s: string): (r: Option<Role>)
    ensures r.Some? <==> s == "user" || s == "admin"
  {
    if s == "user" then Some(UserRole) else if s == "admin" then Some(AdminRole) else None
  }

  /**
   * A bcrypt digest, kept symbolically: the salt it was made with and the
   * plaintext it verifies. Only `ComparePassword` looks inside it.
   */
  datatype Digest = Digest(secret: string, salt: nat)

  /** `bcrypt.hash(plain, salt)`. */
  function Hash(plain: string, salt: nat): (d: Digest)
    ensures ComparePassword(plain, d)
    ensures forall other :: ComparePassword(other, d) ==> other == plain
  {
    Digest(plain, salt)
  }

  /** `bcrypt.compare(candidate, digest)`. */
  predicate ComparePassword(candidate: string, d: Digest) {
    d.secret == candidate
  }

  /**
   * The pre-save hook: the password is hashed when it was modified, and the
   * stored digest is kept otherwise. `newPassword` is the plaintext assigned
   * since the last save, if any.
   */
  function HashOnSave(stored: Digest, newPassword: Option<string>, salt: nat): (d: Digest)
    ensures newPassword.None? ==> d == stored
    ensures newPassword.Some? ==> forall p :: ComparePassword(p, d) <==> p == newPassword.value
  {
    match newPassword
    case None => stored
    case Some(p) => Hash(p, salt)
  }

  datatype User = User(
    id: UserId,
    firstName: string,
    lastName: string,
    email: string,
    password: Digest,
    phone: string,
    zipCode: string,
    userType: UserType,
    numberOfEmployees: Option<real>,
    planType: Option<PlanType>,
    role: Role,
    createdAt: nat,
    updatedAt: nat)

  /** What `toJSON` (and `select('-password')`) yields: every field but the password. */
  datatype PublicUser = PublicUser(
    id: UserId,
    firstName: string,
    lastName: string,
    email: string,
    phone: string,
    zipCode: string,
    userType: UserType,
    numberOfEmployees: Option<real>,
    planType: Option<PlanType>,
    role: Role,
    createdAt: nat,
    updatedAt: nat)

  function ToJSON(u: User): PublicUser {
    PublicUser(u.id, u.firstName, u.lastName, u.email, u.phone, u.zipCode, u.userType,
               u.numberOfEmployees, u.planType, u.role, u.createdAt, u.updatedAt)
  }

  /** Two users serialise alike exactly when they differ at most in their password. */
  lemma ToJSONForgetsOnlyPassword(u: User, v: User)
    ensures ToJSON(u) == ToJSON(v) <==> u.(password := v.password) == v
  {
  }

  /** The `lowercase: true, trim: true` setters of `email`. */
  function NormalizeEmail(s: string): string {
    ToLower(Trim(s))
  }

  /**
   * The services lower-case an address before querying; since the query value
   * passes through the same setters, that changes nothing.
   */
  lemma NormalizeAfterLowerCase(s: string)
    ensures NormalizeEmail(ToLower(s)) == NormalizeEmail(s)
  {
    TrimLower(s);
    ToLowerIdempotent(Trim(s));
  }

  lemma {:induction false} NormalizeEmailIdempotent(s: string)
    ensures NormalizeEmail(NormalizeEmail(s)) == NormalizeEmail(s)
  {
    TrimIsTrimmed(s);
    TrimLower(Trim(s));
    TrimIsTrimmed(Trim(s));
    ToLowerIdempotent(Trim(s));
  }

  /** An address the setters leave as it is: no white space at either end, no upper-case letter. */
  predicate NormalizedEmail(s: string) {
    Trimmed(s) && forall k :: 0 <= k < |s| ==> LowerChar(s[k]) == s[k]
  }

  lemma {:induction false} NormalizedEmailIff(s: string)
    ensures NormalizedEmail(s) <==> NormalizeEmail(s) == s
  {
    var t := Trim(s);
    TrimIsTrimmed(s);
    if NormalizedEmail(s) {
      assert ToLower(t) == s;
    }
    if NormalizeEmail(s) == s && |s| > 0 {
      LowerKeepsSpace(t[0]);
      LowerKeepsSpace(t[|t| - 1]);
    }
  }

  /** The schema's constraints on a stored user (`required`, `trim`, `lowercase`, `match`). */
  predicate Conforms(u: User) {
    && u.firstName != "" && Trimmed(u.firstName)
    && u.lastName != "" && Trimmed(u.lastName)
    && u.email != "" && NormalizedEmail(u.email)
    && DigitsOfLength(u.phone, 10)
    && DigitsOfLength(u.zipCode, 5)
  }
}
