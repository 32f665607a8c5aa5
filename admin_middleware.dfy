/** The administrator guard, which runs after the authentication guard on every admin route. */
module AdminMiddleware {
  import opened Wrappers
  import opened Errors
  import opened UserModel
  import opened Tokens
  import opened Store
  import opened AuthMiddleware

  const AdminOnly := "Access denied. Admin privileges required."

  /** `adminMiddleware`: only a request carrying a user with the `admin` role passes. */
  function AdminGuard(user: Option<PublicUser>): (r: Option<Failure>)
    ensures r.None? <==> user.Some? && user.value.role == AdminRole
    ensures r.Some? ==> r.value == Forbidden(AdminOnly)
  {
    if user.None? || user.value.role != AdminRole then Some(Forbidden(AdminOnly)) else None
  }

  /** The two guards in the order the admin routes mount them. */
  function AdminRoute(header: Option<string>, db: Db, verify: string -> Verdict): (r: Option<Failure>)
    reads db
    requires db.Valid()
    ensures r.Some? ==> r.value.AppError? && (r.value.statusCode == 401 || r.value == Forbidden(AdminOnly))
    ensures r.None? <==> Resolve(header, db, verify).Ok? && Resolve(header, db, verify).value.role == AdminRole
  {
    match Resolve(header, db, verify)
    case Err(e) => Some(e)
    case Ok(u) => AdminGuard(Some(u))
  }

  /**
   * An admin route is reached exactly with a token naming a stored
   * administrator; any problem with the token is a 401, and the 403 is kept
   * for authenticated users who are not administrators.
   */
  lemma AdminRouteAdmitsOnlyAdmins(header: Option<string>, db: Db, verify: string -> Verdict)
    requires db.Valid()
    ensures AdminRoute(header, db, verify).None? <==>
      ParseBearer(header).Some? && verify(ParseBearer(header).value).Verified?
      && exists u :: u in db.users && u.id == verify(ParseBearer(header).value).userId && u.role == AdminRole
    ensures AdminRoute(header, db, verify) == Some(Forbidden(AdminOnly)) <==>
      ParseBearer(header).Some? && verify(ParseBearer(header).value).Verified?
      && exists u :: u in db.users && u.id == verify(ParseBearer(header).value).userId && u.role != AdminRole
    ensures Resolve(header, db, verify).Err? ==> AdminRoute(header, db, verify).value.statusCode == 401
  {
    var r := Resolve(header, db, verify);
    if r.Ok? {
      var id := verify(ParseBearer(header).value).userId;
      UserWithIdIsFound(db, id);
    }
  }
}
