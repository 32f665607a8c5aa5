/**
 * The database the services share: the users, CPT listings and bids
 * collections, each in insertion order, a clock for the `timestamps`
 * option, and a source of fresh document ids. `Valid` is what every service
 * keeps true: unique ids, unique e-mails and CPT codes, documents that meet
 * their schemas, bids in creation order, and every bid above the reserve of
 * the listing it refers to.
 */
module Store {
  import opened Wrappers
  import opened Money
  import opened Tables
  import opened UserModel
  import opened ListingModel
  import opened BidModel
  import opened Errors

  /** `User.findById(id)`: the position of the user with that id. */
  function FindUser(users: seq<User>, id: UserId): (r: Option<nat>)
    ensures r.Some? ==> r.value < |users| && users[r.value].id == id
    ensures r.None? <==> forall k :: 0 <= k < |users| ==> users[k].id != id
  {
    FirstIndex(users, (u: User) => u.id == id)
  }

  /** `User.findOne({ email })`. */
  function FindUserByEmail(users: seq<User>, email: string): (r: Option<nat>)
    ensures r.Some? ==> r.value < |users| && users[r.value].email == email
    ensures r.None? <==> forall k :: 0 <= k < |users| ==> users[k].email != email
  {
    FirstIndex(users, (u: User) => u.email == email)
  }

  /** `CPTData.findById(id)`. */
  function FindListing(listings: seq<Listing>, id: ListingId): (r: Option<nat>)
    ensures r.Some? ==> r.value < |listings| && listings[r.value].id == id
    ensures r.None? <==> forall k :: 0 <= k < |listings| ==> listings[k].id != id
  {
    FirstIndex(listings, (l: Listing) => l.id == id)
  }

  /** `Bid.findById(id)`. */
  function FindBid(bids: seq<Bid>, id: BidId): (r: Option<nat>)
    ensures r.Some? ==> r.value < |bids| && bids[r.value].id == id
    ensures r.None? <==> forall k :: 0 <= k < |bids| ==> bids[k].id != id
  {
    FirstIndex(bids, (b: Bid) => b.id == id)
  }

  /** The reserve of the listing with that id, if there is one. */
  function ReserveOf(listings: seq<Listing>, id: ListingId): Option<Cents> {
    match FindListing(listings, id)
    case None => None
    case Some(i) => Some(listings[i].reserveAmount)
  }

  /** The bids whose owner is `userId`: the `{ userId }` query. */
  function OwnedBy(userId: UserId): Bid -> bool {
    (b: Bid) => b.userId == userId
  }

  /**
   * `Bid.find(query).sort({ createdAt: -1 })`: the bids that satisfy the query,
   * newest first. The table is in creation order, so this is its filter reversed.
   */
  function NewestFirst(bids: seq<Bid>, query: Bid -> bool): (r: seq<Bid>)
    requires IncreasingBy(bids, CreatedAt)
    ensures forall b :: b in r <==> b in bids && query(b)
    ensures DecreasingBy(r, CreatedAt)
  {
    var f := Filter(bids, query);
    FilterIncreasing(bids, query, CreatedAt);
    ReverseIncreasing(f, CreatedAt);
    ReverseMembersAll(f);
    Reverse(f)
  }

  lemma ReverseMembersAll(s: seq<Bid>)
    ensures forall b :: b in Reverse(s) <==> b in s
  {
    forall b ensures b in Reverse(s) <==> b in s {
      ReverseMembers(s, b);
    }
  }

  ghost predicate UsersValid(users: seq<User>, nextId: nat) {
    && (forall i :: 0 <= i < |users| ==> users[i].id < nextId && UserModel.Conforms(users[i]))
    && (forall i, j :: 0 <= i < j < |users| ==> users[i].id != users[j].id)
    && (forall i, j :: 0 <= i < j < |users| ==> users[i].email != users[j].email)
  }

  ghost predicate ListingsValid(listings: seq<Listing>, nextId: nat) {
    && (forall i :: 0 <= i < |listings| ==> listings[i].id < nextId && ListingModel.Conforms(listings[i]))
    && (forall i, j :: 0 <= i < j < |listings| ==> listings[i].id != listings[j].id)
    && (forall i, j :: 0 <= i < j < |listings| ==> listings[i].cptCode != listings[j].cptCode)
  }

  /** The cross-document invariant: a bid refers to a listing and exceeds its reserve. */
  ghost predicate AboveReserve(b: Bid, listings: seq<Listing>) {
    ReserveOf(listings, b.cptDataId).Some? && b.bidAmount > ReserveOf(listings, b.cptDataId).value
  }

  ghost predicate BidsValid(bids: seq<Bid>, listings: seq<Listing>, nextId: nat, clock: nat) {
    && (forall i :: 0 <= i < |bids| ==> bids[i].id < nextId && bids[i].updatedAt < clock)
    && (forall i :: 0 <= i < |bids| ==> bids[i].createdAt <= bids[i].updatedAt)
    && (forall i :: 0 <= i < |bids| ==> AboveReserve(bids[i], listings))
    && (forall i, j :: 0 <= i < j < |bids| ==> bids[i].id != bids[j].id)
    && IncreasingBy(bids, CreatedAt)
  }

  class Db {
    var users: seq<User>
    var listings: seq<Listing>
    var bids: seq<Bid>
    /** The time the next write is stamped with. */
    var clock: nat
    /** Larger than every id handed out so far. */
    var nextId: nat

    ghost predicate Valid()
      reads this
    {
      && UsersValid(users, nextId)
      && ListingsValid(listings, nextId)
      && BidsValid(bids, listings, nextId, clock)
    }

    /** A database holding the seeded catalog and nothing else. */
    constructor (catalog: seq<Listing>, firstId: nat)
      requires ListingsValid(catalog, firstId)
      ensures Valid()
      ensures users == [] && listings == catalog && bids == []
    {
      users, listings, bids := [], catalog, [];
      clock, nextId := 0, firstId;
    }

    /**
     * A write to one stored user, stamped now: the id and e-mail stay, and
     * the new document conforms to the schema.
     */
    method ReplaceUser(i: nat, u: User)
      requires Valid()
      requires i < |users| && u.id == users[i].id && u.email == users[i].email
      requires UserModel.Conforms(u) && u.updatedAt == clock
      modifies this
      ensures Valid()
      ensures users == old(users)[i := u] && listings == old(listings) && bids == old(bids)
      ensures nextId == old(nextId) && clock == old(clock) + 1
    {
      BidsValidLater(bids, listings, nextId, clock, nextId, clock + 1);
      ReplaceUserValid(users, nextId, i, u);
      var s := users[i := u];
      users, clock := s, clock + 1;
      assert UsersValid(users, nextId);
      assert ListingsValid(listings, nextId);
      assert BidsValid(bids, listings, nextId, clock);
    }

    /** `User.create`'s insert: a conforming user with a fresh id and an unused e-mail. */
    method AddUser(u: User)
      requires Valid()
      requires u.id == nextId && UserModel.Conforms(u)
      requires forall v :: v in users ==> v.email != u.email
      modifies this
      ensures Valid()
      ensures users == old(users) + [u] && listings == old(listings) && bids == old(bids)
      ensures nextId == old(nextId) + 1 && clock == old(clock) + 1
    {
      AppendUserValid(users, nextId, u);
      ListingsValidLater(listings, nextId, nextId + 1);
      BidsValidLater(bids, listings, nextId, clock, nextId + 1, clock + 1);
      users, nextId, clock := users + [u], nextId + 1, clock + 1;
      assert UsersValid(users, nextId);
      assert ListingsValid(listings, nextId);
      assert BidsValid(bids, listings, nextId, clock);
    }

    /** A bid insert: a bid with a fresh id, created now, above its listing's reserve. */
    method AddBid(b: Bid)
      requires Valid()
      requires b.id == nextId && b.createdAt == clock && b.updatedAt == clock
      requires AboveReserve(b, listings)
      modifies this
      ensures Valid()
      ensures bids == old(bids) + [b] && users == old(users) && listings == old(listings)
      ensures nextId == old(nextId) + 1 && clock == old(clock) + 1
    {
      AppendBidValid(bids, listings, nextId, clock, b);
      UsersValidLater(users, nextId, nextId + 1);
      ListingsValidLater(listings, nextId, nextId + 1);
      bids, nextId, clock := bids + [b], nextId + 1, clock + 1;
      assert UsersValid(users, nextId);
      assert ListingsValid(listings, nextId);
      assert BidsValid(bids, listings, nextId, clock);
    }

    /**
     * A write to one stored bid, stamped now: the id and creation time stay,
     * and the bid stays above its listing's reserve.
     */
    method ReplaceBid(i: nat, b: Bid)
      requires Valid()
      requires i < |bids| && b.id == bids[i].id && b.createdAt == bids[i].createdAt
      requires b.updatedAt == clock && AboveReserve(b, listings)
      modifies this
      ensures Valid()
      ensures bids == old(bids)[i := b] && users == old(users) && listings == old(listings)
      ensures nextId == old(nextId) && clock == old(clock) + 1
    {
      assert bids[i].createdAt <= bids[i].updatedAt < clock;
      ReplaceBidValid(bids, listings, nextId, clock, clock + 1, i, b);
      bids, clock := bids[i := b], clock + 1;
      assert UsersValid(users, nextId);
      assert ListingsValid(listings, nextId);
      assert BidsValid(bids, listings, nextId, clock);
    }
  }

  lemma UsersValidLater(users: seq<User>, nextId: nat, later: nat)
    requires UsersValid(users, nextId) && nextId <= later
    ensures UsersValid(users, later)
  {
  }

  lemma ListingsValidLater(listings: seq<Listing>, nextId: nat, later: nat)
    requires ListingsValid(listings, nextId) && nextId <= later
    ensures ListingsValid(listings, later)
  {
  }

  /** Storing a conforming user with a fresh id and an unused e-mail keeps the users valid. */
  lemma AppendUserValid(users: seq<User>, nextId: nat, u: User)
    requires UsersValid(users, nextId)
    requires u.id == nextId && UserModel.Conforms(u)
    requires forall v :: v in users ==> v.email != u.email
    ensures UsersValid(users + [u], nextId + 1)
  {
    var s := users + [u];
    forall i | 0 <= i < |s| ensures s[i].id < nextId + 1 && UserModel.Conforms(s[i]) {
      if i < |users| {
        assert s[i] == users[i];
      }
    }
    forall i, j | 0 <= i < j < |s| ensures s[i].id != s[j].id && s[i].email != s[j].email {
      assert s[i] == users[i];
      if j < |users| {
        assert s[j] == users[j];
      } else {
        assert s[j] == u && users[i] in users;
      }
    }
  }

  /** Rewriting a stored user in place, keeping its id and e-mail, keeps the users valid. */
  lemma ReplaceUserValid(users: seq<User>, nextId: nat, i: nat, u: User)
    requires UsersValid(users, nextId)
    requires i < |users| && u.id == users[i].id && u.email == users[i].email
    requires UserModel.Conforms(u)
    ensures UsersValid(users[i := u], nextId)
  {
    var s := users[i := u];
    ReplacedUsersConform(users, nextId, i, u, s);
    ReplacedUsersKeepKeys(users, i, u, s);
    forall m, n | 0 <= m < n < |s| ensures s[m].id != s[n].id && s[m].email != s[n].email {
      assert users[m].id != users[n].id && users[m].email != users[n].email;
    }
  }

  lemma ReplacedUsersConform(users: seq<User>, nextId: nat, i: nat, u: User, s: seq<User>)
    requires forall m :: 0 <= m < |users| ==> users[m].id < nextId && UserModel.Conforms(users[m])
    requires i < |users| && u.id < nextId && UserModel.Conforms(u)
    requires s == users[i := u]
    ensures forall m :: 0 <= m < |s| ==> s[m].id < nextId && UserModel.Conforms(s[m])
  {
    forall m | 0 <= m < |s| ensures s[m].id < nextId && UserModel.Conforms(s[m]) {
      if m == i {
        assert s[m] == u;
      } else {
        assert s[m] == users[m];
      }
    }
  }

  lemma ReplacedUsersKeepKeys(users: seq<User>, i: nat, u: User, s: seq<User>)
    requires i < |users| && u.id == users[i].id && u.email == users[i].email
    requires s == users[i := u]
    ensures forall m :: 0 <= m < |s| ==> s[m].id == users[m].id && s[m].email == users[m].email
  {
  }

  /** Handing out ids and advancing the clock keeps the bids valid. */
  lemma BidsValidLater(bids: seq<Bid>, listings: seq<Listing>, nextId: nat, clock: nat, laterId: nat, laterClock: nat)
    requires BidsValid(bids, listings, nextId, clock)
    requires nextId <= laterId && clock <= laterClock
    ensures BidsValid(bids, listings, laterId, laterClock)
  {
  }

  /** Storing a bid created now, with a fresh id and above its reserve, keeps the bids valid. */
  lemma AppendBidValid(bids: seq<Bid>, listings: seq<Listing>, nextId: nat, clock: nat, b: Bid)
    requires BidsValid(bids, listings, nextId, clock)
    requires b.id == nextId && b.createdAt == clock && b.updatedAt == clock
    requires AboveReserve(b, listings)
    ensures BidsValid(bids + [b], listings, nextId + 1, clock + 1)
  {
    var s := bids + [b];
    forall i, j | 0 <= i < j < |s| ensures CreatedAt(s[i]) < CreatedAt(s[j]) && s[i].id != s[j].id {
      if j == |bids| {
        assert s[i] == bids[i];
      } else {
        assert s[i] == bids[i] && s[j] == bids[j];
      }
    }
  }

  /**
   * Rewriting a stored bid in place, keeping its id and creation time and
   * stamping it no later than now, keeps the bids valid.
   */
  lemma ReplaceBidValid(bids: seq<Bid>, listings: seq<Listing>, nextId: nat, clock: nat, later: nat, i: nat, b: Bid)
    requires BidsValid(bids, listings, nextId, clock) && clock <= later
    requires i < |bids| && b.id == bids[i].id && b.createdAt == bids[i].createdAt
    requires b.createdAt <= b.updatedAt < later
    requires AboveReserve(b, listings)
    ensures BidsValid(bids[i := b], listings, nextId, later)
  {
    var s := bids[i := b];
    forall m, n | 0 <= m < n < |s| ensures CreatedAt(s[m]) < CreatedAt(s[n]) && s[m].id != s[n].id {
      assert CreatedAt(s[m]) == CreatedAt(bids[m]) && CreatedAt(s[n]) == CreatedAt(bids[n]);
      assert s[m].id == bids[m].id && s[n].id == bids[n].id;
    }
  }

  /** With unique ids, the position `FindBid` reports is the only one with that id. */
  lemma FindBidUnique(bids: seq<Bid>, listings: seq<Listing>, nextId: nat, clock: nat, id: BidId, k: nat)
    requires BidsValid(bids, listings, nextId, clock)
    requires k < |bids| && bids[k].id == id
    ensures FindBid(bids, id) == Some(k)
  {
  }

  /** With unique ids, the position `FindUser` reports is the only one with that id. */
  lemma FindUserUnique(users: seq<User>, nextId: nat, id: UserId, k: nat)
    requires UsersValid(users, nextId)
    requires k < |users| && users[k].id == id
    ensures FindUser(users, id) == Some(k)
  {
  }

  lemma FindUserByEmailUnique(users: seq<User>, nextId: nat, email: string, k: nat)
    requires UsersValid(users, nextId)
    requires k < |users| && users[k].email == email
    ensures FindUserByEmail(users, email) == Some(k)
  {
  }

  const UserNotFound := "User not found."

  /**
   * `User.findById(id).select('-password')`, then a 404 when nothing is
   * found: the lookup behind the profile, the dashboard and the admin views.
   */
  function PublicUserById(db: Db, userId: UserId): (r: Result<PublicUser, Failure>)
    reads db
    requires db.Valid()
    ensures r.Ok? <==> exists u :: u in db.users && u.id == userId
    ensures forall u :: u in db.users && u.id == userId ==> r == Ok(ToJSON(u))
    ensures r.Err? ==> r == Err(NotFound(UserNotFound))
  {
    UserWithIdIsFound(db, userId);
    match FindUser(db.users, userId)
    case None => Err(NotFound(UserNotFound))
    case Some(i) => Ok(ToJSON(db.users[i]))
  }

  lemma UserWithIdIsFound(db: Db, userId: UserId)
    requires db.Valid()
    ensures forall u :: u in db.users && u.id == userId ==>
      FindUser(db.users, userId).Some? && db.users[FindUser(db.users, userId).value] == u
  {
    forall u | u in db.users && u.id == userId
      ensures FindUser(db.users, userId).Some? && db.users[FindUser(db.users, userId).value] == u
    {
      var k :| 0 <= k < |db.users| && db.users[k] == u;
      FindUserUnique(db.users, db.nextId, userId, k);
    }
  }

  /** E-mails are unique, so a user with the address asked for is the one `findOne` returns. */
  lemma UserWithEmailIsFound(db: Db, email: string)
    requires db.Valid()
    ensures forall u :: u in db.users && u.email == email ==>
      FindUserByEmail(db.users, email).Some? && db.users[FindUserByEmail(db.users, email).value] == u
  {
    forall u | u in db.users && u.email == email
      ensures FindUserByEmail(db.users, email).Some? && db.users[FindUserByEmail(db.users, email).value] == u
    {
      var k :| 0 <= k < |db.users| && db.users[k] == u;
      FindUserByEmailUnique(db.users, db.nextId, email, k);
    }
  }
}
