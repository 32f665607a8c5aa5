/**
 * The authentication guard in front of the protected routes: it reads the
 * bearer token from the `Authorization` header, verifies it, loads the user
 * it names, and attaches that user to the request.
 */
module AuthMiddleware {
  import opened Wrappers
  import opened Errors
  import opened UserModel
  import opened Tokens
  import opened Store

  const NoToken := "No token provided. Please log in."
  const UnknownUser := "User not found. Token invalid."
  const TokenExpired := "Token expired. Please log in again."
  const TokenInvalid := "Invalid token. Please log in again."
  const BearerPrefix := "Bearer "

  /** The part of a request the guard reads and writes. */
  class Request {
    var authorization: Option<string>
    var user: Option<PublicUser>

    constructor (authorization: Option<string>)
      ensures this.authorization == authorization && user == None
    {
      this.authorization := authorization;
      user := None;
    }
  }

  /** The text of `s` up to its first space: one field of `split(' ')`. */
  function UpToSpace(s: string): (r: string)
    ensures |r| <= |s| && r == s[..|r|]
    ensures forall k :: 0 <= k < |r| ==> r[k] != ' '
    ensures |r| < |s| ==> s[|r|] == ' '
  {
    if |s| == 0 || s[0] == ' ' then "" else [s[0]] + UpToSpace(s[1..])
  }

  /**
   * The token of an `Authorization` header: present exactly when the header
   * starts with `Bearer `, and then `split(' ')[1]`, the text after that
   * space up to the next one.
   */
  function ParseBearer(header: Option<string>): (r: Option<string>)
    ensures r.Some? <==> header.Some? && |header.value| >= |BearerPrefix| && header.value[..|BearerPrefix|] == BearerPrefix
    ensures r.Some? ==> forall k :: 0 <= k < |r.value| ==> r.value[k] != ' '
    ensures r.Some? ==>
      && |BearerPrefix| + |r.value| <= |header.value|
      && header.value[|BearerPrefix|..|BearerPrefix| + |r.value|] == r.value
      && (|BearerPrefix| + |r.value| < |header.value| ==> header.value[|BearerPrefix| + |r.value|] == ' ')
  {
    if header.None? || |header.value| < |BearerPrefix| || header.value[..|BearerPrefix|] != BearerPrefix then None
    else Some(UpToSpace(header.value[|BearerPrefix|..]))
  }

  /** The guard's decision for a header: the user it admits, or the 401 it sends. */
  function Resolve(header: Option<string>, db: Db, verify: string -> Verdict): (r: Result<PublicUser, Failure>)
    reads db
    requires db.Valid()
    ensures r.Err? ==> r.error.AppError? && r.error.statusCode == 401
    ensures r == Err(Unauthorized(NoToken)) <==> ParseBearer(header).None?
    ensures ParseBearer(header).Some? ==>
      var verdict := verify(ParseBearer(header).value);
      && (r == Err(Unauthorized(TokenExpired)) <==> verdict.Expired?)
      && (r == Err(Unauthorized(TokenInvalid)) <==> verdict.Invalid?)
      && (r == Err(Unauthorized(UnknownUser)) <==>
            verdict.Verified? && forall u :: u in db.users ==> u.id != verdict.userId)
      && (r.Ok? <==> verdict.Verified? && exists u :: u in db.users && u.id == verdict.userId)
      && (forall u :: u in db.users && verdict == Verified(u.id) ==> r == Ok(ToJSON(u)))
  {
    match ParseBearer(header)
    case None => Err(Unauthorized(NoToken))
    case Some(token) =>
      match verify(token)
      case Expired => Err(Unauthorized(TokenExpired))
      case Invalid => Err(Unauthorized(TokenInvalid))
      case Verified(id) =>
        match PublicUserById(db, id)
        case Err(_) => Err(Unauthorized(UnknownUser))
        case Ok(u) => Ok(u)
  }

  /**
   * `authMiddleware`: on success the request carries the user and no error
   * is passed on; on failure the request is left as it was.
   */
  method Authenticate(req: Request, db: Db, verify: string -> Verdict) returns (err: Option<Failure>)
    requires db.Valid()
    modifies req`user
    ensures match Resolve(req.authorization, db, verify)
      case Ok(u) => err == None && req.user == Some(u)
      case Err(e) => err == Some(e) && req.user == old(req.user)
  {
    var token := ParseBearer(req.authorization);
    if token.None? {
      return Some(Unauthorized(NoToken));
    }
    var verdict := verify(token.value);
    if verdict.Expired? {
      return Some(Unauthorized(TokenExpired));
    }
    if verdict.Invalid? {
      return Some(Unauthorized(TokenInvalid));
    }
    var found := PublicUserById(db, verdict.userId);
    if found.Err? {
      return Some(Unauthorized(UnknownUser));
    }
    req.user := Some(found.value);
    err := None;
  }
}
