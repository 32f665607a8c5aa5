# CPT bidding marketplace — a Dafny model of its backend core

The system is a marketplace for healthcare procedure codes (CPT codes). Users
register as patients, brokers or employers. They search a catalog of listings
by code, description and ZIP code, and bid on a listing above its reserve
price. An administrator approves or denies the bids.

This project models the backend's domain logic:

- The three Mongoose schemas (`User`, `Bid`, `CPTData`). They become datatypes
  with their enumerations, defaults, setters and field constraints.
- One in-memory database, the class `Store.Db`. It holds the users, listings
  and bids in insertion order, a clock for the `timestamps` option and a
  source of fresh ids. Its invariant `Valid` states:
  - ids are unique;
  - e-mails and CPT codes are unique;
  - stored users conform to their schema (trimmed names, normalised e-mail,
    10-digit phone, 5-digit ZIP);
  - bids are in creation order;
  - every bid refers to an existing listing and is strictly above that
    listing's reserve.

  Every state-changing service keeps this invariant.
- The five services: bids, administration, authentication, user profile and
  catalog search.
  - Operations that write are methods on the database.
  - Read-only operations are functions.
  - The two loops of the source are methods with loop invariants: the
    profile update's allow-list copy, and the per-user bid count.
- The request validators (registration, login, bid, search) and the
  frontend's form predicates.
- The authentication guard, the administrator guard and the error handler.

Some conventions:

- Amounts are integer cents. The reserve error message prints the amount in
  dollars as JavaScript's `String` does in plain decimal notation: whole
  dollars, then the cents without trailing zeros.
- `bcrypt` digests are symbolic: a digest accepts exactly the password it was
  made from.
- A JSON Web Token is represented by its claims. Its verification is a
  parameter `verify: string -> Verdict` that says verified (with the user id),
  expired or invalid.
- Two behaviours are followed as the code has them:
  - `getBidById` gives an administrator no exception to the owner check.
  - `updateBidStatus` does not require a pending bid, so a reviewed bid can be
    reviewed again.

## Model

| member | source | states |
|---|---|---|
| UserModel.UserTypeName | backend/src/models/User.js:26-30 | each user type has a name that the `type` enum check parses back to it |
| UserModel.ParseUserType | backend/src/models/User.js:26-30 | a string passes the `type` enum exactly when it is patient, broker or employer |
| UserModel.PlanName | backend/src/models/User.js:32-35 | each plan has a name that the `planType` enum check parses back to it |
| UserModel.ParsePlan | backend/src/models/User.js:32-35 | a string passes the `planType` enum exactly when it is one of the five plans |
| UserModel.RoleName | backend/src/models/User.js:36 | each role has a name that the `role` enum check parses back to it |
| UserModel.ParseRole | backend/src/models/User.js:36 | a string passes the `role` enum exactly when it is user or admin |
| UserModel.Hash | backend/src/models/User.js:41-50 | a digest made from a password is accepted by compare for that password and for no other |
| UserModel.HashOnSave | backend/src/models/User.js:41-46 | the pre-save hook keeps the stored digest when the password was not modified; otherwise the new digest accepts exactly the new password. The only save in the services is `User.create`, which `AuthService.CreateHashesOnSave` ties to it |
| UserModel.ToJSONForgetsOnlyPassword | backend/src/models/User.js:52-56 | two users serialise alike exactly when they differ at most in their password |
| UserModel.NormalizeAfterLowerCase | backend/src/services/authService.js:9 | lower-casing an address before a query changes nothing once the lowercase and trim setters apply |
| UserModel.NormalizeEmailIdempotent | backend/src/models/User.js:8-14 | normalising a normalised address leaves it unchanged |
| UserModel.NormalizedEmailIff | backend/src/models/User.js:8-14 | an address is one the setters leave unchanged exactly when it has no white space at either end and no upper-case letter |
| BidModel.StatusName | backend/src/models/Bid.js:16-20 | each status has a name that the `status` enum check parses back to it |
| BidModel.ParseStatus | backend/src/models/Bid.js:16-20 | a string passes the `status` enum exactly when it is pending, approved or denied |
| BidModel.NewBid | backend/src/models/Bid.js:3-24 | a created bid is pending, has no comments, and is stamped with the creation time |
| Text.ToLowerIdempotent | backend/src/models/User.js:12 | lower-casing twice is lower-casing once |
| Text.TrimIsTrimmed | backend/src/models/User.js:6-7 | `trim` leaves no white space at either end and keeps a trimmed string unchanged |
| Text.TrimLower | backend/src/models/User.js:12-13 | `trim` and lower-casing commute |
| Text.ContainsIff | backend/src/services/searchService.js:14-17 | the substring test holds exactly when the text occurs at some offset |
| Text.NatToStringValue | backend/src/services/bidService.js:16 | the decimal digits printed for a number denote that number |
| Money.UnsignedText | backend/src/services/bidService.js:16 | a non-negative amount prints as whole dollars in decimal digits, then the cents without trailing zeros, and the text reads back as that amount |
| Money.MoneyText | backend/src/services/bidService.js:16 | the printed amount reads back as exactly that amount: a leading minus exactly when it is negative, then its magnitude as `UnsignedText` prints it. There is a decimal point exactly when the amount is not a whole number of dollars, with no trailing zero after it |
| Tables.Filter | backend/src/services/bidService.js:30 | a query result holds only elements that satisfy the query, and every element that does |
| Tables.FilterIncreasing | backend/src/services/bidService.js:30-32 | filtering a table in creation order keeps creation order |
| Tables.FirstIndex | backend/src/services/bidService.js:54 | `findById` reports the first document that matches, or none exactly when none matches |
| Paging.CeilDiv | backend/src/services/adminService.js:38 | `totalPages` pages of `limit` hold all matches, and one page fewer would not |
| Paging.Window | backend/src/services/adminService.js:12-14 | a page holds at most `limit` items, namely the matches from position `(page - 1) * limit` on |
| Paging.Paginate | backend/src/services/searchService.js:20-34 | page and limit default to 1 and 20 and are echoed back. The total counts all matches, `totalPages` is the ceiling of total over limit, and the items are the window of the matches for that page |
| Paging.EveryMatchOnItsPage | backend/src/services/searchService.js:20-34 | match `k` is item `k % limit` of page `k / limit + 1`, and that page is within `totalPages` |
| Paging.OnSomePage | backend/src/services/searchService.js:20-34 | every match is on some page numbered at most `totalPages` |
| Paging.PagesPastTheLastAreEmpty | backend/src/services/searchService.js:20-34 | a page past `totalPages` is empty |
| Patterns.EmailHasNoSpace | backend/src/validators/authValidator.js:20-23 | an address the e-mail pattern accepts holds no white space |
| AuthValidator.ValidateRegistration | backend/src/validators/authValidator.js:3-59 | the body passes exactly when every check holds, and every failure is a 400. Each message is given exactly when its check is the first to fail, in the order missing fields, e-mail, password, phone, ZIP code, type, employee count, plan. A patient never gets the employee-count or plan messages |
| AuthValidator.ValidateLogin | backend/src/validators/authValidator.js:61-67 | a 400 exactly when the e-mail or the password is missing or empty |
| BidValidator.ValidateBid | backend/src/validators/bidValidator.js:3-12 | the body passes exactly when the amount is a number above zero and a listing id is present. The required message is given exactly for a falsy field; the positive-number message is given exactly for a present non-positive or non-numeric amount |
| BidValidator.ZeroIsReportedMissing | backend/src/validators/bidValidator.js:5-10 | an amount of 0 gets the required message, not the positive-number one |
| SearchValidator.ValidateSearch | backend/src/validators/searchValidator.js:3-12 | the query passes exactly when `cpt` or `zip` is given and a given `zip` has 5 digits. Each failure has its own message, under exactly its own condition |
| FrontendValidators.FormChecksAgreeWithRegistration | frontend/src/utils/validators.js:1-15 | a body the backend accepts passes all four form checks. Once the required fields are present, the backend's e-mail, password, phone and ZIP messages are given exactly when the corresponding form check is the first of the four to fail |
| FrontendValidators.BidCheckAgreesWithBackend | frontend/src/utils/validators.js:17-20 | on amounts in cents, the form accepts an amount exactly when the bid service would not reject it as at or below the reserve. Over a reserve that is not negative, it accepts exactly the amounts that both the backend's bid validator and the reserve comparison let through |
| FrontendValidators.ValidateEmail | frontend/src/utils/validators.js:1-3 | accepts exactly the addresses the backend's e-mail pattern accepts. Such an address has an `@` and no white space, so `trim` leaves it unchanged |
| FrontendValidators.ValidatePassword | frontend/src/utils/validators.js:5-7 | accepts exactly the passwords the backend's password pattern accepts. Such a password meets the schema's minimum length of 8 and holds no white space |
| FrontendValidators.ValidatePhone | frontend/src/utils/validators.js:9-11 | accepts exactly the ten-digit strings that the backend's check and the schema's `match` accept. Such a phone has no white space |
| FrontendValidators.ValidateZip | frontend/src/utils/validators.js:13-15 | accepts exactly the five-digit strings that the backend's check and the schema's `match` accept. Such a code has no white space |
| FrontendValidators.ValidateBidAmount | frontend/src/utils/validators.js:17-20 | accepts only an amount that parses as a number and exceeds the reserve. A failed parse is refused, and over a reserve that is not negative an accepted amount is positive |
| Store.FindUser | backend/src/services/adminService.js:47 | `User.findById` finds a user with that id, or none exactly when no stored user has it |
| Store.FindUserByEmail | backend/src/services/authService.js:25 | `User.findOne({ email })` finds a user with that address, or none exactly when no stored user has it |
| Store.FindListing | backend/src/services/bidService.js:9 | `CPTData.findById` finds a listing with that id, or none exactly when none has it |
| Store.FindBid | backend/src/services/bidService.js:40 | `Bid.findById` finds a bid with that id, or none exactly when none has it |
| Store.NewestFirst | backend/src/services/bidService.js:30-32 | a bid query sorted by `createdAt` descending holds exactly the bids that satisfy it, newest first |
| Store.PublicUserById | backend/src/services/userService.js:8-12 | the lookup behind `getProfile`, `getUserById` and the dashboard: the user without the password when the id exists, else a 404 "User not found." |
| Store.Db.constructor | backend/src/models/CPTData.js:3-17 | a database seeded with a valid catalog and no users or bids is valid |
| Store.Db.AddUser | backend/src/models/User.js:4-39 | inserting a conforming user with a fresh id and an unused address keeps the database valid |
| Store.Db.ReplaceUser | backend/src/services/userService.js:24-27 | rewriting a user in place with the same id and address, stamped now, keeps the database valid |
| Store.Db.AddBid | backend/src/services/bidService.js:21 | inserting a bid with a fresh id, created now, above its listing's reserve, keeps the database valid and changes nothing else |
| Store.Db.ReplaceBid | backend/src/services/bidService.js:73-74 | rewriting one bid in place with the same id and creation time, stamped now and above its reserve, keeps the database valid and changes nothing else |
| Store.AppendBidValid | backend/src/services/bidService.js:14-21 | storing a bid above its reserve, created now with a fresh id, keeps every bid above its reserve and in creation order |
| Store.ReplaceBidValid | backend/src/services/bidService.js:73-74 | rewriting a bid in place with the same id and creation time, above its reserve, keeps the bids valid |
| BidService.BelowReserve | backend/src/services/bidService.js:14-19 | an amount at or under the reserve is a 400. Its message is the fixed text up to `$`, then the reserve in dollars, then `.`; what lies between `$` and the final `.` reads back as the reserve |
| BidService.PlaceBid | backend/src/services/bidService.js:8-24 | a missing listing is a 404 and an amount at or under the reserve a 400, and neither changes anything. Otherwise exactly one new pending bid with that owner, listing and amount is appended, and every bid stays above its reserve |
| BidService.GetUserBids | backend/src/services/bidService.js:29-34 | exactly the user's bids, newest first |
| BidService.PlacedBidListedFirst | backend/src/services/bidService.js:21-33 | a bid just placed heads its owner's list, followed by their earlier bids |
| BidService.GetBidById | backend/src/services/bidService.js:39-48 | the bid is returned exactly when it exists and the caller owns it. A 404 is given exactly when no bid has the id; a 403 exactly when it exists with another owner |
| BidService.UpdateBid | backend/src/services/bidService.js:53-77 | checks run in the order 404, 403, already reviewed, then reserve; a missing amount fails the schema on save. Every failure leaves the database unchanged. Success changes only that bid's amount and update time. The invariant, every bid above its reserve, is kept |
| AdminService.CountBids | backend/src/services/adminService.js:18-29 | the count for a user is the number of bids they own, zero when none |
| AdminService.SummarizeAll | backend/src/services/adminService.js:18-30 | the listed users become, in order, each user without the password together with the number of bids they own |
| AdminService.GetAllUsers | backend/src/services/adminService.js:8-41 | the page of users of the requested type. Each user is listed without the password and with their bid count; pagination is as for the search |
| AdminService.AllUsersPageIsFiltered | backend/src/services/adminService.js:9-16 | listed users are users of the table, of the requested type, at most `limit` of them; the total counts every one |
| AdminService.GetUserById | backend/src/services/adminService.js:46-52 | a 404 exactly when no stored user has the id, else that user without the password |
| AdminService.GetUserBids | backend/src/services/adminService.js:55-66 | a 404 exactly when the user does not exist. Otherwise the user without the password and exactly their bids, newest first |
| AdminService.GetAllBids | backend/src/services/adminService.js:71-96 | the items are exactly the requested page's window of the bids with the requested status, newest first: stored bids, at most `limit` of them. The total counts every such bid, `totalPages` is its ceiling over limit, and page and limit are echoed |
| AdminService.WindowOfNewestFirst | backend/src/services/adminService.js:80-82 | a page of a newest-first list is newest first and holds only items of the list |
| AdminService.UpdateBidStatus | backend/src/services/adminService.js:101-116 | a status other than approved or denied is a 400 before the lookup, then a missing bid is a 404; neither changes anything. Otherwise the status is set whatever it was, and the comments are replaced only by a non-empty value. No other field or bid changes, and the invariant is kept |
| AuthService.AcceptedIsCreatable | backend/src/validators/authValidator.js:16-46 | a body the registration validator accepts has every field `User.create` relies on |
| AuthService.CreateUser | backend/src/models/User.js:4-46 | creation fails exactly when some path fails the schema, with those messages in path order: a missing name, a password shorter than 8 characters, an unknown plan, an unknown role. A created user conforms, has a password of at least 8 characters, the normalised address and a digest of the password, and takes the role given or `user` |
| AuthService.ShortPasswordRefused | backend/src/models/User.js:15 | a password shorter than 8 characters makes creation fail with the `minlength` message for that password |
| AuthService.CreateHashesOnSave | backend/src/models/User.js:41-46 | the digest a created user stores is the one the pre-save hook makes from the registered password |
| AuthService.NewUserAsWritten | backend/src/services/authService.js:14 | as written, creation fails exactly when the schema rejects the body with its own `role`, and a created user takes that role, or `user` when none is given |
| AuthService.UnknownRoleRefused | backend/src/models/User.js:36 | a body whose `role` is neither user nor admin is refused with the enum message for that value |
| AuthService.SelfRegisteredAdmin | backend/src/services/authService.js:14 | an accepted body that carries `role: "admin"` creates an administrator through the code as written |
| AuthService.NewUser | backend/src/services/authService.js:14 | the corrected creation always gives the `user` role and fails only on the schema's other paths |
| AuthService.NewUserDiffersOnlyInRole | backend/src/services/authService.js:14 | the corrected and as-written creations agree in everything but the role |
| AuthService.Register | backend/src/services/authService.js:8-19 | as written: the whole body reaches `User.create`, including any `role`. An address already in use after normalisation is a 409 and creates nothing. Otherwise exactly one user is appended, unless the schema rejects the body (an unknown role is then a 400). The user is returned without the password, with access and refresh tokens for their id |
| AuthService.RegisterCorrected | backend/src/services/authService.js:8-19 | the corrected registration: as `Register`, but the body's `role` is ignored, so every registered user has the role `user` |
| AuthService.RegisterAs | backend/src/services/authService.js:8-19 | registration with the role that reaches the schema: a 409 for an address in use, else the schema's verdict, and on success exactly one user appended and returned with its tokens |
| AuthService.Login | backend/src/services/authService.js:24-39 | succeeds exactly when a stored user has the normalised address and the password matches, and returns both tokens for that user. An unknown address and a wrong password both give the same 401 |
| AuthService.LoginWithKey | backend/src/services/authService.js:25-32 | for a normalised address: succeeds exactly when a stored user has it and the password matches, and then returns that user's tokens; otherwise the same 401 |
| AuthService.LoginAfterRegister | backend/src/services/authService.js:8-39 | a registered user, whatever role the body gave, can log in with the address and password they registered with |
| AuthService.LoginIgnoresCase | backend/src/services/authService.js:25 | login does not depend on the case of the address or on white space around it |
| AuthService.RefreshToken | backend/src/services/authService.js:44-56 | succeeds exactly when the token verifies to an existing user, and then returns that user with a new access token only. Every failure is the same 401 |
| UserService.Filtered | backend/src/services/userService.js:18-22 | the update keeps exactly the allowed keys that carry a value. `email`, `password`, `type` and `role` never pass |
| UserService.FilteredIdempotent | backend/src/services/userService.js:19-22 | filtering an already filtered update changes nothing |
| UserService.FilterUpdates | backend/src/services/userService.js:18-22 | the copy loop builds exactly the filtered update |
| UserService.ProfileErrors | backend/src/services/userService.js:24-27 | the update validators pass exactly when every given name is a string with something besides white space, every given phone and ZIP code has 10 and 5 digits, and every given plan string is one of the five plans |
| UserService.Apply | backend/src/services/userService.js:18-27 | an update keeps the id, e-mail, password, type, role and creation time, stamps the update time, and leaves every field the update does not give unchanged |
| UserService.ApplyKeepsIdentity | backend/src/services/userService.js:24-27 | an update keeps the id, e-mail, password, type, role and creation time, and leaves a conforming user conforming |
| UserService.UpdateProfile | backend/src/services/userService.js:17-31 | update validator failures come first as a 400, then a missing user is a 404; neither changes anything. Otherwise only the allowed fields and the update time of that user change, and the user is returned without the password |
| UserService.GetProfile | backend/src/services/userService.js:8-12 | a 404 exactly when no stored user has the id, else that user without the password |
| UserService.GetDashboardData | backend/src/services/userService.js:36-45 | a 404 exactly when the user does not exist. Otherwise the user, exactly their bids newest first, and a `totalBids` equal to the length of that list |
| SearchService.SearchCpt | backend/src/services/searchService.js:6-35 | the items are exactly the requested page's window of the matching listings in storage order: stored listings, at most `limit` of them, each matching every filter given. The total counts all matches, and `totalPages` is their ceiling quotient |
| SearchService.SearchFindsEveryMatch | backend/src/services/searchService.js:9-22 | every matching listing is on some page within `totalPages` |
| SearchService.SearchIgnoresCase | backend/src/services/searchService.js:11-12 | the results do not depend on the case of the `cpt` text |
| SearchService.Matches | backend/src/services/searchService.js:9-18 | with no filter every listing matches. A match lies in the requested ZIP code and holds the `cpt` text, ignoring case, in its code or its description. A listing whose code equals the text up to case, in that ZIP code, matches |
| AuthMiddleware.UpToSpace | backend/src/middleware/authMiddleware.js:12 | the field taken by `split(' ')` holds no space and runs up to the next space or the end |
| AuthMiddleware.ParseBearer | backend/src/middleware/authMiddleware.js:7-12 | a token exists exactly when the header starts with `Bearer `. It is the space-free text right after that prefix |
| AuthMiddleware.Resolve | backend/src/middleware/authMiddleware.js:5-28 | every failure is a 401. No token is reported exactly when there is no bearer header. An expired token is reported exactly when verification says expired, an invalid token exactly when it says invalid, and an unknown user exactly when the token verifies to an id no stored user has. The request is admitted exactly when the token verifies to a stored user, and then as that user without the password |
| AuthMiddleware.Authenticate | backend/src/middleware/authMiddleware.js:5-28 | on success the request carries the resolved user and no error is passed on. On failure the error is passed on and the request is unchanged |
| AdminMiddleware.AdminGuard | backend/src/middleware/adminMiddleware.js:3-8 | passes exactly a request whose user has the admin role; anything else is a 403 |
| AdminMiddleware.AdminRouteAdmitsOnlyAdmins | backend/src/routes/adminRoutes.js:7 | an admin route is reached exactly with a token naming a stored administrator. A 403 is given exactly to a stored user who is not an administrator; token problems are 401 |
| AdminMiddleware.AdminRoute | backend/src/routes/adminRoutes.js:7 | a request passes both guards exactly when the token resolves to a user with the admin role; otherwise it is refused with a 401 or the 403 for non-administrators |
| ErrorMiddleware.Translate | backend/src/middleware/errorMiddleware.js:3-35 | the response is never a success. A cast error, then a validation error, then a duplicate key take precedence, each with its own status and message. Otherwise the status defaults to 500 and the message to "Internal Server Error". The stack appears exactly for non-operational errors in development |
| ErrorMiddleware.HandleError | backend/src/middleware/errorMiddleware.js:3-35 | the handler's sequence of overriding assignments yields the response `Translate` describes |
| ErrorMiddleware.AppErrorPassesThrough | backend/src/middleware/errorMiddleware.js:4-5 | a service's `AppError` is answered with its own status and message and no stack |
| ErrorMiddleware.ValidationFailureIs400 | backend/src/middleware/errorMiddleware.js:15-20 | a schema failure is a 400 listing every failing path's message, joined by ", " |
| ErrorMiddleware.FromFailure | backend/src/middleware/errorMiddleware.js:3-35 | a service's `AppError` reaches the handler operational, with its message and status. A schema failure reaches it as a `ValidationError` with every path's message and no status. Neither has a duplicate-key code, and both carry the stack |

## Left out

- Populating references (`populate`), `lean`, `aggregate` and the parallel reads of `Promise.all`. Services return the stored bid records without the joined listing or owner, and the bid count is computed by one counting loop.
- Concurrency. Every operation runs alone, so races are not modelled: between the pending check and the save, and between the e-mail check and the unique index. The duplicate-key error 11000 is therefore never raised by a modelled service; `ErrorMiddleware.Translate` still covers it.
- Cryptography. `bcrypt` and `jsonwebtoken` are abstract. Access and refresh tokens are signed with the same secret, and only their claims are represented. Token expiry is decided by the `verify` parameter.
- `AppError` itself (`utils/errorHandler`) is not part of this model. `ErrorMiddleware.FromFailure` assumes it is an `Error` carrying its message and status, marked operational.
- Controllers, routes, `app.js`, configuration and seeding. The guard chain of the routes is taken as a precondition: `Register` requires what the registration validator guarantees, and `PlaceBid` takes an amount that is a number, as `validateBid` ensures before `POST /`.
- UserService.UpdateProfile: requires the allowed fields to carry JSON strings (a number for `numberOfEmployees`) or `null`. Mongoose's conversions between JSON types and its cast errors are not modelled.
- AuthValidator.ValidateRegistration: the string fields of a registration are JSON strings or absent. Other JSON values are not modelled. For example, the number `1234567890` as a phone passes `!phone`, and `RegExp.test` coerces it to a string, so it passes the pattern, and Mongoose casts it to the `String` path. Booleans and numbers in the other string fields are coerced in the same way.
- AuthService.Register: takes a body whose string fields are JSON strings, so the coerced numbers and booleans that the registration validator lets through are not modelled.
- AuthService.Login: the e-mail and password are JSON strings. A non-string e-mail, on which `toLowerCase` would throw, is not modelled.
- BidService.UpdateBid: the amount is a whole number of cents or absent. `PATCH /:id` runs no validator (backend/src/routes/bidRoutes.js:12), so the source also receives other JSON values, and those are not modelled. `null` compares as 0 in `bidAmount <= reserveAmount`, so it is a 400 below any non-negative reserve. A numeric string such as `"150"` is compared as a number and then cast to a number on save. A boolean compares as 0 or 1. A negative amount is modelled: it is at or below the reserve, so it is a 400.
- Money.MoneyText: amounts of 10^21 dollars and more, which JavaScript prints in exponent notation, are printed in plain digits.
- Casting of malformed ids (`CastError` from `findById`). Ids are natural numbers.
- Money is integer cents. Fractions of a cent and JavaScript's floating-point arithmetic are not modelled, and `MoneyText` prints only amounts that are whole cents.
- `page` and `limit` are positive integers or absent, with defaults 1 and 20. Zero, negative and non-numeric query values are not modelled.
- SearchService.SearchCpt: the `cpt` text is matched literally. Regular-expression metacharacters in it are not interpreted.
- Case mapping covers ASCII letters only. Unicode case folding is not modelled.
- The order in which Mongoose reports several failing paths is taken to be the schema's path order.
- `numberOfEmployees` is not checked against the schema's `Number` type beyond being a JSON number.
- The frontend predicates are the backend's patterns. `parseFloat` is represented by its result: a number or none.
- The 401-refresh-retry of the frontend's HTTP client, browser storage and all UI components.

## Findings

| source | as written | input that shows it | evidently intended | confidence | as-written member | corrected member |
|---|---|---|---|---|---|---|
| backend/src/services/authService.js:14 | `User.create(userData)` receives the whole request body, and the schema accepts a `role` path (backend/src/models/User.js:36) | a registration body the validator accepts, with the extra field `"role": "admin"` | a self-registered user always gets the role `user`. `AuthService.Register` keeps the behaviour as written, and `AuthService.RegisterCorrected` registers through the corrected creation | not executed | AuthService.SelfRegisteredAdmin | AuthService.NewUser |
