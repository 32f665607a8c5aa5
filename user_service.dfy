/**
 * The user service: a user's own profile, the update of the fields a user
 * may change, and the dashboard of profile and bids.
 */
module UserService {
  import opened Wrappers
  import opened Text
  import opened Json
  import opened Tables
  import opened Errors
  import opened UserModel
  import opened BidModel
  import opened AuthService
  import opened Store

  /** The only fields a profile update may touch, in the order they are copied. */
  const AllowedUpdates: seq<string> := ["firstName", "lastName", "phone", "zipCode", "numberOfEmployees", "planType"]

  const BadPhoneFormat := "Phone number must be exactly 10 digits"
  const BadZipFormat := "ZIP code must be exactly 5 digits"

  /** A profile update body: each key the client sent with its JSON value. */
  type Updates = map<string, JsValue>

  datatype Dashboard = Dashboard(user: PublicUser, bids: seq<Bid>, totalBids: nat)

  /** `getProfile`: the user without the password, or a 404. */
  function GetProfile(db: Db, userId: UserId): (r: Result<PublicUser, Failure>)
    reads db
    requires db.Valid()
    ensures r.Ok? <==> exists u :: u in db.users && u.id == userId
    ensures forall u :: u in db.users && u.id == userId ==> r == Ok(ToJSON(u))
    ensures r.Err? ==> r == Err(NotFound(UserNotFound))
  {
    PublicUserById(db, userId)
  }

  /**
   * The allowed keys the body gives a value (JSON has no `undefined`, so
   * every key sent is kept). Identity, credentials, type and role can never
   * pass.
   */
  function Filtered(updates: Updates): (r: Updates)
    ensures forall k :: k in r ==> k in AllowedUpdates && k in updates && r[k] == updates[k] && r[k] != Undefined
    ensures forall k :: k in AllowedUpdates && k in updates && updates[k] != Undefined ==> k in r
    ensures "email" !in r && "password" !in r && "type" !in r && "role" !in r
  {
    map k | k in updates && k in AllowedUpdates && updates[k] != Undefined :: updates[k]
  }

  /** Filtering twice keeps what filtering once kept. */
  lemma FilteredIdempotent(updates: Updates)
    ensures Filtered(Filtered(updates)) == Filtered(updates)
  {
    var once := Filtered(updates);
    assert Filtered(once).Keys == once.Keys;
  }

  /** The copy loop of `updateProfile`: each allowed key with a defined value, in turn. */
  method FilterUpdates(updates: Updates) returns (filtered: Updates)
    ensures filtered == Filtered(updates)
  {
    filtered := map[];
    for i := 0 to |AllowedUpdates|
      invariant filtered == map k | k in updates && k in AllowedUpdates[..i] && updates[k] != Undefined :: updates[k]
    {
      var key := AllowedUpdates[i];
      assert AllowedUpdates[..i + 1] == AllowedUpdates[..i] + [key];
      if key in updates && updates[key] != Undefined {
        filtered := filtered[key := updates[key]];
      }
    }
    assert AllowedUpdates[..|AllowedUpdates|] == AllowedUpdates;
  }

  /**
   * The JSON types the model covers: strings or `null` for the string paths,
   * a number or `null` for `numberOfEmployees`.
   */
  predicate WellTyped(f: Updates) {
    forall k :: k in f ==>
      if k == "numberOfEmployees" then f[k].Num? || f[k].Null? else f[k].Str? || f[k].Null?
  }

  /** A name after its `trim` setter; `null` or white space only fails `required`. */
  function NameErrors(f: Updates, path: string): seq<string> {
    if path !in f then []
    else match f[path]
      case Str(s) => if Trim(s) == "" then [Required(path)] else []
      case _ => [Required(path)]
  }

  /** `required` then `match` on a digit path; the pattern does not apply to an empty value. */
  function DigitsErrors(f: Updates, path: string, n: nat, message: string): seq<string> {
    if path !in f then []
    else match f[path]
      case Str(s) => if s == "" then [Required(path)] else if !DigitsOfLength(s, n) then [message] else []
      case _ => [Required(path)]
  }

  function PlanErrors(f: Updates): seq<string> {
    if "planType" in f && f["planType"].Str? && ParsePlan(f["planType"].s).None? then
      [NotInEnum(f["planType"].s, "planType")]
    else []
  }

  /** The update validators' messages, path by path in the order of the update. */
  function ProfileErrors(f: Updates): (r: seq<string>)
    ensures r == [] <==>
      && ("firstName" in f ==> f["firstName"].Str? && Trim(f["firstName"].s) != "")
      && ("lastName" in f ==> f["lastName"].Str? && Trim(f["lastName"].s) != "")
      && ("phone" in f ==> f["phone"].Str? && DigitsOfLength(f["phone"].s, 10))
      && ("zipCode" in f ==> f["zipCode"].Str? && DigitsOfLength(f["zipCode"].s, 5))
      && ("planType" in f && f["planType"].Str? ==> ParsePlan(f["planType"].s).Some?)
  {
    NameErrors(f, "firstName") + NameErrors(f, "lastName")
    + DigitsErrors(f, "phone", 10, BadPhoneFormat) + DigitsErrors(f, "zipCode", 5, BadZipFormat)
    + PlanErrors(f)
  }

  /** `$set` of the filtered fields, through their setters, stamped `now`. */
  function Apply(u: User, f: Updates, now: nat): (v: User)
    requires WellTyped(f) && ProfileErrors(f) == []
    ensures v.id == u.id && v.email == u.email && v.password == u.password
    ensures v.userType == u.userType && v.role == u.role && v.createdAt == u.createdAt && v.updatedAt == now
    ensures "firstName" !in f ==> v.firstName == u.firstName
    ensures "lastName" !in f ==> v.lastName == u.lastName
    ensures "phone" !in f ==> v.phone == u.phone
    ensures "zipCode" !in f ==> v.zipCode == u.zipCode
    ensures "numberOfEmployees" !in f ==> v.numberOfEmployees == u.numberOfEmployees
    ensures "planType" !in f ==> v.planType == u.planType
  {
    var employees :=
      if "numberOfEmployees" !in f then u.numberOfEmployees
      else if f["numberOfEmployees"].Num? then Some(f["numberOfEmployees"].n) else None;
    var plan :=
      if "planType" !in f then u.planType
      else if f["planType"].Str? then ParsePlan(f["planType"].s) else None;
    var firstName := if "firstName" in f then Trim(f["firstName"].s) else u.firstName;
    var lastName := if "lastName" in f then Trim(f["lastName"].s) else u.lastName;
    var phone := if "phone" in f then f["phone"].s else u.phone;
    var zipCode := if "zipCode" in f then f["zipCode"].s else u.zipCode;
    User(u.id, firstName, lastName, u.email, u.password, phone, zipCode, u.userType, employees, plan,
         u.role, u.createdAt, now)
  }

  /**
   * A profile update never changes who the user is or what they may do: id,
   * e-mail, password, type, role and creation time stay, and a valid update
   * leaves a conforming user conforming.
   */
  lemma {:induction false} ApplyKeepsIdentity(u: User, f: Updates, now: nat)
    requires WellTyped(f) && ProfileErrors(f) == []
    requires Conforms(u)
    ensures var v := Apply(u, f, now);
      && v.id == u.id && v.email == u.email && v.password == u.password
      && v.userType == u.userType && v.role == u.role && v.createdAt == u.createdAt
      && Conforms(v)
  {
    if "firstName" in f {
      TrimIsTrimmed(f["firstName"].s);
    }
    if "lastName" in f {
      TrimIsTrimmed(f["lastName"].s);
    }
  }

  /**
   * `updateProfile`: the update validators run first (400), then the lookup
   * (404); a valid update of an existing user writes the allowed fields and
   * the update time, and returns the user without the password.
   */
  method UpdateProfile(db: Db, userId: UserId, updates: Updates) returns (r: Result<PublicUser, Failure>)
    requires db.Valid()
    requires WellTyped(Filtered(updates))
    modifies db
    ensures db.Valid()
    ensures db.listings == old(db.listings) && db.bids == old(db.bids) && db.nextId == old(db.nextId)
    ensures r.Err? ==> unchanged(db)
    ensures var f := Filtered(updates);
      if ProfileErrors(f) != [] then r == Err(ValidationError(ProfileErrors(f)))
      else if FindUser(old(db.users), userId).None? then r == Err(NotFound(UserNotFound))
      else
        var i := FindUser(old(db.users), userId).value;
        var u := Apply(old(db.users)[i], f, old(db.clock));
        && r == Ok(ToJSON(u))
        && db.users == old(db.users)[i := u]
        && db.clock == old(db.clock) + 1
  {
    var f := FilterUpdates(updates);
    var errors := ProfileErrors(f);
    if errors != [] {
      return Err(ValidationError(errors));
    }
    var found := FindUser(db.users, userId);
    if found.None? {
      return Err(NotFound(UserNotFound));
    }
    var i := found.value;
    var u := Apply(db.users[i], f, db.clock);
    ApplyKeepsIdentity(db.users[i], f, db.clock);
    db.ReplaceUser(i, u);
    r := Ok(ToJSON(u));
  }

  /** `getDashboardData`: the profile, the user's bids newest first, and how many there are. */
  function GetDashboardData(db: Db, userId: UserId): (r: Result<Dashboard, Failure>)
    reads db
    requires db.Valid()
    ensures r.Err? <==> forall u :: u in db.users ==> u.id != userId
    ensures r.Err? ==> r == Err(NotFound(UserNotFound))
    ensures r.Ok? ==>
      && (forall u :: u in db.users && u.id == userId ==> r.value.user == ToJSON(u))
      && (forall b :: b in r.value.bids <==> b in db.bids && b.userId == userId)
      && DecreasingBy(r.value.bids, CreatedAt)
      && r.value.totalBids == |r.value.bids| == |Filter(db.bids, OwnedBy(userId))|
  {
    var bids := NewestFirst(db.bids, OwnedBy(userId));
    match PublicUserById(db, userId)
    case Err(e) => Err(e)
    case Ok(u) => Ok(Dashboard(u, bids, |bids|))
  }
}
