/**
 * The administrator's views: every user with their bid count, one user,
 * one user's bids, every bid, and the approval or denial of a bid.
 */
module AdminService {
  import opened Wrappers
  import opened Tables
  import opened Json
  import opened Errors
  import opened Paging
  import opened UserModel
  import opened BidModel
  import opened Store

  const BadStatus := "Status must be approved or denied."
  const BidNotFound := "Bid not found."

  /** A user as the admin list shows them: without the password, with the number of their bids. */
  datatype UserSummary = UserSummary(user: PublicUser, bidCount: nat)

  datatype UserBids = UserBids(user: PublicUser, bids: seq<Bid>)

  /** The `type` filter, applied only when the query gives a non-empty value. */
  function OfType(userType: Option<string>): User -> bool {
    (u: User) => !Given(userType) || UserTypeName(u.userType) == userType.value
  }

  /** The `status` filter, applied only when the query gives a non-empty value. */
  function HasStatus(status: Option<string>): Bid -> bool {
    (b: Bid) => !Given(status) || StatusName(b.status) == status.value
  }

  /** The number of bids `userId` owns: one group of the `$group` stage. */
  method CountBids(bids: seq<Bid>, userId: UserId) returns (n: nat)
    ensures n == |Filter(bids, OwnedBy(userId))|
  {
    n := 0;
    for j := 0 to |bids|
      invariant n == |Filter(bids[..j], OwnedBy(userId))|
    {
      assert bids[..j + 1] == bids[..j] + [bids[j]];
      FilterAppend(bids[..j], bids[j], OwnedBy(userId));
      if bids[j].userId == userId {
        n := n + 1;
      }
    }
    assert bids[..|bids|] == bids;
  }

  /** A user as the admin list shows them, with the number of bids they own in `bids`. */
  function Summarize(u: User, bids: seq<Bid>): UserSummary {
    UserSummary(ToJSON(u), |Filter(bids, OwnedBy(u.id))|)
  }

  /**
   * `getAllUsers`: one page of the users of the requested type, in storage
   * order, each with the count of the bids they own (zero when they own none).
   */
  method GetAllUsers(db: Db, userType: Option<string>, page: Option<Positive>, limit: Option<Positive>)
    returns (r: Page<UserSummary>)
    ensures var p := Paginate(Filter(db.users, OfType(userType)), page, limit);
      && r.pagination == p.pagination
      && |r.items| == |p.items|
      && forall k :: 0 <= k < |r.items| ==> r.items[k] == Summarize(p.items[k], db.bids)
  {
    var p := Paginate(Filter(db.users, OfType(userType)), page, limit);
    var items := SummarizeAll(p.items, db.bids);
    r := Page(items, p.pagination);
  }

  /** The per-user loop of `getAllUsers`: each listed user with their bid count. */
  method SummarizeAll(users: seq<User>, bids: seq<Bid>) returns (items: seq<UserSummary>)
    ensures |items| == |users|
    ensures forall k :: 0 <= k < |users| ==> items[k] == Summarize(users[k], bids)
  {
    items := [];
    for i := 0 to |users|
      invariant |items| == i
      invariant forall k :: 0 <= k < i ==> items[k] == Summarize(users[k], bids)
    {
      var count := CountBids(bids, users[i].id);
      items := items + [UserSummary(ToJSON(users[i]), count)];
    }
  }

  /**
   * The page `GetAllUsers` lays out over `users` lists only users of the requested
   * type, and counts all of them in its total.
   */
  lemma AllUsersPageIsFiltered(users: seq<User>, userType: Option<string>, page: Option<Positive>, limit: Option<Positive>)
    ensures var p := Paginate(Filter(users, OfType(userType)), page, limit);
      && p.pagination.total == |Filter(users, OfType(userType))|
      && |p.items| <= p.pagination.limit
      && forall k :: 0 <= k < |p.items| ==>
           p.items[k] in users && (Given(userType) ==> UserTypeName(p.items[k].userType) == userType.value)
  {
    var p := Paginate(Filter(users, OfType(userType)), page, limit);
    WindowOfFilter(users, OfType(userType), p.pagination.page, p.pagination.limit);
  }

  /** A page of a query result holds only elements that satisfy the query. */
  lemma WindowOfFilter<T>(s: seq<T>, q: T -> bool, page: Positive, limit: Positive)
    ensures var w := Window(Filter(s, q), page, limit);
      forall k :: 0 <= k < |w| ==> w[k] in s && q(w[k])
  {
    var f := Filter(s, q);
    var w := Window(f, page, limit);
    var skip := Skip(page, limit);
    forall k | 0 <= k < |w|
      ensures w[k] in s && q(w[k])
    {
      var j := skip + k;
      assert j < |f| && w[k] == f[j];
      assert f[j] in s && q(f[j]);
    }
  }

  /** `getUserById`: the user without the password, or a 404. */
  function GetUserById(db: Db, userId: UserId): (r: Result<PublicUser, Failure>)
    reads db
    requires db.Valid()
    ensures r.Ok? <==> exists u :: u in db.users && u.id == userId
    ensures forall u :: u in db.users && u.id == userId ==> r == Ok(ToJSON(u))
    ensures r.Err? ==> r == Err(NotFound(UserNotFound))
  {
    PublicUserById(db, userId)
  }

  /** `getUserBids` (admin view): a 404 for an unknown user, else the user and all their bids, newest first. */
  function GetUserBids(db: Db, userId: UserId): (r: Result<UserBids, Failure>)
    reads db
    requires db.Valid()
    ensures r.Err? <==> forall u :: u in db.users ==> u.id != userId
    ensures r.Err? ==> r == Err(NotFound(UserNotFound))
    ensures r.Ok? ==>
      && (forall u :: u in db.users && u.id == userId ==> r.value.user == ToJSON(u))
      && (forall b :: b in r.value.bids <==> b in db.bids && b.userId == userId)
      && DecreasingBy(r.value.bids, CreatedAt)
  {
    match PublicUserById(db, userId)
    case Err(e) => Err(e)
    case Ok(u) => Ok(UserBids(u, NewestFirst(db.bids, OwnedBy(userId))))
  }

  /**
   * `getAllBids`: one page of the bids with the requested status, newest
   * first; the total counts every such bid.
   */
  function GetAllBids(db: Db, status: Option<string>, page: Option<Positive>, limit: Option<Positive>)
    : (r: Page<Bid>)
    reads db
    requires db.Valid()
    ensures r.pagination.total == |Filter(db.bids, HasStatus(status))|
    ensures r.pagination.page == page.GetOr(DefaultPage) && r.pagination.limit == limit.GetOr(DefaultLimit)
    ensures r.pagination.totalPages == CeilDiv(r.pagination.total, r.pagination.limit)
    ensures r.items == Window(NewestFirst(db.bids, HasStatus(status)), r.pagination.page, r.pagination.limit)
    ensures |r.items| <= r.pagination.limit
    ensures forall k :: 0 <= k < |r.items| ==>
      r.items[k] in db.bids && (Given(status) ==> StatusName(r.items[k].status) == status.value)
    ensures DecreasingBy(r.items, CreatedAt)
  {
    var all := NewestFirst(db.bids, HasStatus(status));
    WindowOfNewestFirst(all, page.GetOr(DefaultPage), limit.GetOr(DefaultLimit));
    Paginate(all, page, limit)
  }

  /** A page of a newest-first list is itself newest first, and holds only items of the list. */
  lemma WindowOfNewestFirst(all: seq<Bid>, page: Positive, limit: Positive)
    requires DecreasingBy(all, CreatedAt)
    ensures DecreasingBy(Window(all, page, limit), CreatedAt)
    ensures forall k :: 0 <= k < |Window(all, page, limit)| ==> Window(all, page, limit)[k] in all
  {
    var w := Window(all, page, limit);
    var skip := Skip(page, limit);
    forall i, j | 0 <= i < j < |w| ensures CreatedAt(w[i]) > CreatedAt(w[j]) {
      assert w[i] == all[skip + i] && w[j] == all[skip + j];
    }
  }

  /**
   * `updateBidStatus`: the status must be `approved` or `denied` (checked
   * before the lookup), the bid must exist; the comments are replaced only by
   * a non-empty value. A reviewed bid may be reviewed again. Saving a bid that
   * did not change writes nothing.
   */
  method UpdateBidStatus(db: Db, bidId: BidId, status: Option<string>, adminComments: Option<string>)
    returns (r: Result<Bid, Failure>)
    requires db.Valid()
    modifies db
    ensures db.Valid()
    ensures db.users == old(db.users) && db.listings == old(db.listings) && db.nextId == old(db.nextId)
    ensures r.Err? ==> unchanged(db)
    ensures status != Some("approved") && status != Some("denied") ==> r == Err(BadRequest(BadStatus))
    ensures status == Some("approved") || status == Some("denied") ==>
      if FindBid(old(db.bids), bidId).None? then r == Err(NotFound(BidNotFound))
      else
        var i := FindBid(old(db.bids), bidId).value;
        var b := old(db.bids)[i];
        var reviewed := b.(status := ParseStatus(status.value).value,
                           adminComments := if Given(adminComments) then adminComments else b.adminComments);
        if reviewed == b then r == Ok(b) && unchanged(db)
        else
          && r == Ok(reviewed.(updatedAt := old(db.clock)))
          && db.bids == old(db.bids)[i := r.value]
          && db.clock == old(db.clock) + 1
  {
    if status != Some("approved") && status != Some("denied") {
      return Err(BadRequest(BadStatus));
    }
    var found := FindBid(db.bids, bidId);
    if found.None? {
      return Err(NotFound(BidNotFound));
    }
    var i := found.value;
    var b := db.bids[i];
    var reviewed := b.(status := ParseStatus(status.value).value,
                       adminComments := if Given(adminComments) then adminComments else b.adminComments);
    if reviewed == b {
      return Ok(b);
    }
    var saved := reviewed.(updatedAt := db.clock);
    assert AboveReserve(db.bids[i], db.listings);
    db.ReplaceBid(i, saved);
    r := Ok(saved);
  }
}
