/**
 * The authentication service: registration, login with e-mail and password,
 * and the exchange of a refresh token for a new access token.
 */
module AuthService {
  import opened Wrappers
  import opened Text
  import opened Json
  import opened Errors
  import opened Patterns
  import opened UserModel
  import opened Tokens
  import opened AuthValidator
  import opened Store

  const EmailTaken := "Email is already registered."
  const BadCredentials := "Invalid email or password."
  const BadRefresh := "Invalid refresh token."

  /** What register and login return: the user without the password and both tokens. */
  datatype Session = Session(user: PublicUser, token: Token, refreshToken: Token)

  /** What a refresh returns: the user and a new access token. */
  datatype Refreshed = Refreshed(user: PublicUser, token: Token)

  /** Mongoose's message for a `required` path left empty. */
  function Required(path: string): string {
    "Path `" + path + "` is required."
  }

  /** Mongoose's message for a string under a `minlength`. */
  function ShorterThan(path: string, value: string, min: nat): string {
    "Path `" + path + "` (`" + value + "`) is shorter than the minimum allowed length (" + NatToString(min) + ")."
  }

  /** The schema's `minlength` of `password`, checked on the plain text before the pre-save hash. */
  const PasswordMinLength: nat := 8

  /** Mongoose's message for a value outside an `enum`. */
  function NotInEnum(value: string, path: string): string {
    "`" + value + "` is not a valid enum value for path `" + path + "`."
  }

  /**
   * What the route's validator guarantees and `User.create` relies on:
   * every required field present, an e-mail without white space, a phone
   * and ZIP code of digits, and a known user type.
   */
  predicate Creatable(b: RegistrationBody) {
    && RequiredGiven(b)
    && NoSpace(b.email.value)
    && DigitsOfLength(b.phone.value, 10)
    && DigitsOfLength(b.zipCode.value, 5)
    && ParseUserType(b.userType.value).Some?
  }

  lemma AcceptedIsCreatable(b: RegistrationBody)
    requires ValidateRegistration(b).None?
    ensures Creatable(b)
  {
    EmailHasNoSpace(b.email.value);
  }

  /**
   * The schema failures a body with the required fields can still meet, in
   * the order of the schema's paths: a name of white space only is empty
   * after `trim`, the password is held to its `minlength`, and `planType` and
   * `role` are checked against their enumerations when present.
   */
  function CreateErrors(b: RegistrationBody, role: Option<string>): seq<string>
    requires Creatable(b)
  {
    (if Trim(b.firstName.value) == "" then [Required("firstName")] else [])
    + (if Trim(b.lastName.value) == "" then [Required("lastName")] else [])
    + (if |b.password.value| < PasswordMinLength
       then [ShorterThan("password", b.password.value, PasswordMinLength)] else [])
    + (if b.planType.Some? && ParsePlan(b.planType.value).None? then [NotInEnum(b.planType.value, "planType")] else [])
    + (if role.Some? && ParseRole(role.value).None? then [NotInEnum(role.value, "role")] else [])
  }

  /**
   * `User.create` on an accepted body, with `role` the value the body's
   * `role` path receives. The setters trim the names and normalise the
   * e-mail, the pre-save hook hashes the password, and an absent role takes
   * the default `user`.
   */
  function CreateUser(b: RegistrationBody, role: Option<string>, id: UserId, now: nat, salt: nat): (r: Result<User, Failure>)
    requires Creatable(b)
    ensures r.Err? <==> CreateErrors(b, role) != []
    ensures r.Err? ==> r.error == ValidationError(CreateErrors(b, role))
    ensures r.Ok? ==> Conforms(r.value)
    ensures r.Ok? ==> r.value.id == id && r.value.createdAt == now && r.value.updatedAt == now
    ensures r.Ok? ==> r.value.email == NormalizeEmail(b.email.value)
    ensures r.Ok? ==> |b.password.value| >= PasswordMinLength
    ensures r.Ok? ==> forall p :: ComparePassword(p, r.value.password) <==> p == b.password.value
    ensures r.Ok? ==> r.value.role == if role.None? then UserRole else ParseRole(role.value).value
  {
    var errors := CreateErrors(b, role);
    if errors != [] then Err(ValidationError(errors))
    else
      var email := b.email.value;
      assert Trim(email) == email by {
        TrimWithoutSpace(email);
      }
      NormalizeEmailIdempotent(email);
      NormalizedEmailIff(NormalizeEmail(email));
      TrimIsTrimmed(b.firstName.value);
      TrimIsTrimmed(b.lastName.value);
      Ok(User(
        id,
        Trim(b.firstName.value),
        Trim(b.lastName.value),
        NormalizeEmail(email),
        Hash(b.password.value, salt),
        b.phone.value,
        b.zipCode.value,
        ParseUserType(b.userType.value).value,
        b.numberOfEmployees,
        if b.planType.Some? then Some(ParsePlan(b.planType.value).value) else None,
        if role.None? then UserRole else ParseRole(role.value).value,
        now,
        now))
  }

  /** A password under the schema's `minlength` is refused with Mongoose's message, whatever the role. */
  lemma ShortPasswordRefused(b: RegistrationBody, role: Option<string>, id: UserId, now: nat, salt: nat)
    requires Creatable(b) && |b.password.value| < PasswordMinLength
    ensures CreateUser(b, role, id, now, salt).Err?
    ensures ShorterThan("password", b.password.value, PasswordMinLength) in CreateUser(b, role, id, now, salt).error.messages
  {
    var errors := CreateErrors(b, role);
    var names := (if Trim(b.firstName.value) == "" then [Required("firstName")] else [])
      + (if Trim(b.lastName.value) == "" then [Required("lastName")] else []);
    assert errors[|names|] == ShorterThan("password", b.password.value, PasswordMinLength);
  }

  /**
   * `User.create` saves a new document, whose password is always modified:
   * the digest stored is the one the pre-save hook makes from the plaintext,
   * whatever digest the hook would otherwise keep.
   */
  lemma CreateHashesOnSave(b: RegistrationBody, role: Option<string>, id: UserId, now: nat, salt: nat, stored: Digest)
    requires Creatable(b) && CreateErrors(b, role) == []
    ensures CreateUser(b, role, id, now, salt).value.password == HashOnSave(stored, Some(b.password.value), salt)
  {
  }

  /** `User.create(userData)` as written: the whole body, `role` included, reaches the schema. */
  function NewUserAsWritten(b: RegistrationBody, id: UserId, now: nat, salt: nat): (r: Result<User, Failure>)
    requires Creatable(b)
    ensures r.Ok? <==> CreateErrors(b, b.role) == []
    ensures r.Ok? ==> r.value.role == if b.role.None? then UserRole else ParseRole(b.role.value).value
  {
    CreateUser(b, b.role, id, now, salt)
  }

  /** A `role` outside the schema's enumeration is refused with Mongoose's message. */
  lemma UnknownRoleRefused(b: RegistrationBody, id: UserId, now: nat, salt: nat)
    requires Creatable(b) && b.role.Some? && ParseRole(b.role.value).None?
    ensures NewUserAsWritten(b, id, now, salt).Err?
    ensures NotInEnum(b.role.value, "role") in NewUserAsWritten(b, id, now, salt).error.messages
  {
    var errors := CreateErrors(b, b.role);
    assert errors[|errors| - 1] == NotInEnum(b.role.value, "role");
  }

  /** Any accepted registration body that asks for `role: "admin"` creates an administrator. */
  lemma SelfRegisteredAdmin(b: RegistrationBody, id: UserId, now: nat, salt: nat)
    requires Creatable(b)
    requires b.role == Some("admin")
    requires CreateErrors(b, None) == []
    ensures NewUserAsWritten(b, id, now, salt).Ok?
    ensures NewUserAsWritten(b, id, now, salt).value.role == AdminRole
  {
    assert CreateErrors(b, b.role) == CreateErrors(b, None);
  }

  /** The creation the service evidently intends: the client's `role` is ignored. */
  function NewUser(b: RegistrationBody, id: UserId, now: nat, salt: nat): (r: Result<User, Failure>)
    requires Creatable(b)
    ensures r.Ok? ==> r.value.role == UserRole
    ensures r.Ok? <==> CreateErrors(b, None) == []
  {
    CreateUser(b, None, id, now, salt)
  }

  /** The two creations differ only in the role: every other field and every other error agree. */
  lemma NewUserDiffersOnlyInRole(b: RegistrationBody, id: UserId, now: nat, salt: nat)
    requires Creatable(b)
    requires NewUserAsWritten(b, id, now, salt).Ok?
    ensures NewUser(b, id, now, salt).Ok?
    ensures NewUser(b, id, now, salt).value == NewUserAsWritten(b, id, now, salt).value.(role := UserRole)
  {
  }

  /**
   * `register` as written: an address already in use (after normalisation)
   * is a 409; otherwise the whole body goes to `User.create`, so a `role`
   * in it reaches the schema, and the new user is stored, unless the schema
   * rejects the body, and is returned with both tokens.
   */
  method Register(db: Db, b: RegistrationBody, salt: nat) returns (r: Result<Session, Failure>)
    requires db.Valid()
    requires Creatable(b)
    modifies db
    ensures db.Valid()
    ensures db.listings == old(db.listings) && db.bids == old(db.bids)
    ensures r.Err? ==> unchanged(db)
    ensures (exists u :: u in old(db.users) && u.email == NormalizeEmail(b.email.value)) ==>
      r == Err(Conflict(EmailTaken))
    ensures (forall u :: u in old(db.users) ==> u.email != NormalizeEmail(b.email.value)) ==>
      match NewUserAsWritten(b, old(db.nextId), old(db.clock), salt)
      case Err(e) => r == Err(e)
      case Ok(u) =>
        && r == Ok(Session(ToJSON(u), GenerateToken(u.id), GenerateRefreshToken(u.id)))
        && db.users == old(db.users) + [u]
        && db.nextId == old(db.nextId) + 1 && db.clock == old(db.clock) + 1
  {
    r := RegisterAs(db, b, b.role, salt);
  }

  /** `register` as evidently intended: the same, except that the body's `role` never reaches the schema. */
  method RegisterCorrected(db: Db, b: RegistrationBody, salt: nat) returns (r: Result<Session, Failure>)
    requires db.Valid()
    requires Creatable(b)
    modifies db
    ensures db.Valid()
    ensures db.listings == old(db.listings) && db.bids == old(db.bids)
    ensures r.Err? ==> unchanged(db)
    ensures (exists u :: u in old(db.users) && u.email == NormalizeEmail(b.email.value)) ==>
      r == Err(Conflict(EmailTaken))
    ensures (forall u :: u in old(db.users) ==> u.email != NormalizeEmail(b.email.value)) ==>
      match NewUser(b, old(db.nextId), old(db.clock), salt)
      case Err(e) => r == Err(e)
      case Ok(u) =>
        && u.role == UserRole
        && r == Ok(Session(ToJSON(u), GenerateToken(u.id), GenerateRefreshToken(u.id)))
        && db.users == old(db.users) + [u]
        && db.nextId == old(db.nextId) + 1 && db.clock == old(db.clock) + 1
  {
    r := RegisterAs(db, b, None, salt);
  }

  /** The steps both registrations share, with `role` the value the schema's `role` path receives. */
  method RegisterAs(db: Db, b: RegistrationBody, role: Option<string>, salt: nat) returns (r: Result<Session, Failure>)
    requires db.Valid()
    requires Creatable(b)
    modifies db
    ensures db.Valid()
    ensures db.listings == old(db.listings) && db.bids == old(db.bids)
    ensures r.Err? ==> unchanged(db)
    ensures (exists u :: u in old(db.users) && u.email == NormalizeEmail(b.email.value)) ==>
      r == Err(Conflict(EmailTaken))
    ensures (forall u :: u in old(db.users) ==> u.email != NormalizeEmail(b.email.value)) ==>
      match CreateUser(b, role, old(db.nextId), old(db.clock), salt)
      case Err(e) => r == Err(e)
      case Ok(u) =>
        && r == Ok(Session(ToJSON(u), GenerateToken(u.id), GenerateRefreshToken(u.id)))
        && db.users == old(db.users) + [u]
        && db.nextId == old(db.nextId) + 1 && db.clock == old(db.clock) + 1
  {
    NormalizeAfterLowerCase(b.email.value);
    var key := NormalizeEmail(ToLower(b.email.value));
    UserWithEmailIsFound(db, key);
    if FindUserByEmail(db.users, key).Some? {
      return Err(Conflict(EmailTaken));
    }
    var created := CreateUser(b, role, db.nextId, db.clock, salt);
    if created.Err? {
      return Err(created.error);
    }
    var u := created.value;
    assert u.email == key;
    assert forall v :: v in db.users ==> v.email != u.email;
    db.AddUser(u);
    r := Ok(Session(ToJSON(u), GenerateToken(u.id), GenerateRefreshToken(u.id)));
  }

  /**
   * `login`: the user whose stored address matches and whose digest accepts
   * the password gets both tokens; an unknown address and a wrong password
   * give the same 401.
   */
  function Login(db: Db, email: string, password: string): (r: Result<Session, Failure>)
    reads db
    requires db.Valid()
    ensures r.Ok? <==> exists u :: u in db.users && u.email == NormalizeEmail(email) && ComparePassword(password, u.password)
    ensures forall u :: u in db.users && u.email == NormalizeEmail(email) && r.Ok? ==>
      r.value == Session(ToJSON(u), GenerateToken(u.id), GenerateRefreshToken(u.id))
    ensures r.Err? ==> r == Err(Unauthorized(BadCredentials))
  {
    NormalizeAfterLowerCase(email);
    LoginWithKey(db, NormalizeEmail(ToLower(email)), password)
  }

  /** `User.findOne({ email: key })` and the password comparison, for an address already normalised. */
  function LoginWithKey(db: Db, key: string, password: string): (r: Result<Session, Failure>)
    reads db
    requires db.Valid()
    ensures r.Ok? <==> exists u :: u in db.users && u.email == key && ComparePassword(password, u.password)
    ensures forall u :: u in db.users && u.email == key && r.Ok? ==>
      r.value == Session(ToJSON(u), GenerateToken(u.id), GenerateRefreshToken(u.id))
    ensures r.Err? ==> r == Err(Unauthorized(BadCredentials))
  {
    UserWithEmailIsFound(db, key);
    match FindUserByEmail(db.users, key)
    case None => Err(Unauthorized(BadCredentials))
    case Some(i) =>
      var u := db.users[i];
      if !ComparePassword(password, u.password) then Err(Unauthorized(BadCredentials))
      else Ok(Session(ToJSON(u), GenerateToken(u.id), GenerateRefreshToken(u.id)))
  }

  /** Whoever registered can log in with the address and password they registered with. */
  lemma LoginAfterRegister(db: Db, b: RegistrationBody, role: Option<string>, salt: nat, u: User)
    requires db.Valid()
    requires Creatable(b)
    requires CreateUser(b, role, u.id, u.createdAt, salt) == Ok(u)
    requires u in db.users
    ensures Login(db, b.email.value, b.password.value) == Ok(Session(ToJSON(u), GenerateToken(u.id), GenerateRefreshToken(u.id)))
  {
  }

  /** The address is matched without regard to ASCII case or surrounding white space. */
  lemma LoginIgnoresCase(db: Db, email: string, password: string)
    requires db.Valid()
    ensures Login(db, ToLower(email), password) == Login(db, email, password)
    ensures Login(db, Trim(email), password) == Login(db, email, password)
  {
    NormalizeAfterLowerCase(email);
    NormalizeAfterLowerCase(ToLower(email));
    NormalizeAfterLowerCase(Trim(email));
    TrimTwice(email);
  }

  lemma TrimTwice(s: string)
    ensures NormalizeEmail(Trim(s)) == NormalizeEmail(s)
  {
    TrimIsTrimmed(s);
  }

  /**
   * `refreshToken`: a token that verifies to an existing user buys a new
   * access token; every failure, whatever its cause, is the same 401.
   */
  function RefreshToken(db: Db, token: string, verify: string -> Verdict): (r: Result<Refreshed, Failure>)
    reads db
    requires db.Valid()
    ensures r.Ok? <==> verify(token).Verified? && exists u :: u in db.users && u.id == verify(token).userId
    ensures forall u :: u in db.users && verify(token) == Verified(u.id) ==>
      r == Ok(Refreshed(ToJSON(u), GenerateToken(u.id)))
    ensures r.Err? ==> r == Err(Unauthorized(BadRefresh))
  {
    match verify(token)
    case Verified(id) =>
      (match PublicUserById(db, id)
       case Ok(u) => Ok(Refreshed(u, GenerateToken(u.id)))
       case Err(_) => Err(Unauthorized(BadRefresh)))
    case _ => Err(Unauthorized(BadRefresh))
  }
}
