# Inflation tracker: authorization, data access and client helpers in Dafny

This project models the request-handling core of an inflation-tracking web
application: an Express backend over PostgreSQL, plus a few pure helpers of
its React frontend.  It models:

- the identity middleware and its route guards;
- JWT payload construction;
- the application's route table, 404 fallback and generic error handler;
- the six database models: users, preferences, notifications, categories,
  tracked items and inflation observations;
- every router mounted by `app.js`;
- on the client: the chart's date-range filter, chart-point preparation,
  the sign-up form check, the category search box and the description
  truncation.

Each database table is an immutable sequence of rows.  A key function names
its uniqueness constraint (module `Tables`).  Each model operation takes a
table and returns an `Outcome`: a `Result` (`Ok`, or one of `NotFound`,
`BadRequest`, `Unauthorized`, `Unexpected`) and the table after it.  The
whole database is one `Store.Db` value.

Each route handler is a pure function from the optional identity, the path
parameters, the body and the database to a `Reply`: a response (status and
body) and the new database.  `App.Serve` runs one request through the whole
application, identity middleware first.

The libraries the backend calls are parameters:

- `jsonwebtoken` is `Crypto.Signer`;
- `bcrypt` is `Crypto.Hasher`;
- a `jsonschema` schema is `Http.Schema`;
- PostgreSQL's reading of a date literal is `parseDate`;
- the clock is `now`.

The properties these libraries are relied on for are predicates that lemmas
take as preconditions:

- `RoundTrips`: verifying a signed token gives its payload back;
- `Compact`: tokens contain no white space;
- `Sound`: a password matches its own hash.

Module layout:

| file | module | source |
|---|---|---|
| common.dfy, seqs.dfy, tables.dfy, text.dfy | `Common`, `Seqs`, `Tables`, `Text` | shared results, sequence filters and sorting, keyed tables, string helpers, JavaScript and PostgreSQL number reading |
| crypto.dfy | `Crypto` | the signer and hasher parameters |
| auth_middleware.dfy | `AuthMiddleware` | backend/middleware/auth.js |
| tokens.dfy | `Tokens` | backend/helpers/tokens.js |
| preferences.dfy, notifications.dfy, users.dfy, categories.dfy, tracked_items.dfy, inflation_data.dfy | one module per model | backend/models/*.js |
| store.dfy, http.dfy | `Store`, `Http` | the database value; requests, responses, the error handler of backend/app.js |
| routes_*.dfy | `PreferenceRoutes`, `NotificationRoutes`, `UserRoutes`, `AuthRoutes`, `InflationRoutes`, `CatalogRoutes` | backend/routes/*.js |
| app.dfy | `App` | backend/app.js |
| date_range_filter.dfy, inflation_series.dfy, signup_form.dfy, category_list.dfy, category_card.dfy | one module per helper | the frontend files named in the table below |

### Where the code and its documentation disagree

The model follows the code in each case.

- **Notification ownership.** The documentation and several tests say that
  marking or deleting another user's notification is refused with 401.
  `markAsRead` and `delete` take only the notification id, and no caller id
  is compared anywhere (backend/models/notifications.js:37, 55).  The model
  lets any signed-in user act on any notification
  (`Notifications.NoOwnershipCheck`, `NotificationRoutes.AnyoneCanMarkRead`).
  - An anonymous `PATCH /notifications/:id/read` or `DELETE
    /notifications/:id` ends in 500, not 401.  Reading
    `res.locals.user.id` throws an error that has no status.
- **The "or admin" guard.** `ensureCorrectUserOrAdmin` has no admin
  override.  It accepts exactly the requests `ensureCorrectUser` accepts
  (`AuthMiddleware.CorrectUserGuardsAgree`,
  `AuthMiddleware.NoAdminOverride`).
- **`POST /users/register`** answers with `{ id, email }`.  The route's
  comment mentions `created_at`.
- **`POST /auth/register`** keeps the new user even when signing the token
  then fails.
- **`notifications.js` has no `module.exports`.**  The model assumes the
  class reaches the router as the router expects.

## Model

| member | source | states |
|---|---|---|
| AuthMiddleware.ExtractToken | backend/middleware/auth.js:33 | the token has no surrounding white space, and is the header, or the header after its first seven characters, trimmed |
| AuthMiddleware.ExtractTokenBearer | backend/middleware/auth.js:33 | both "Bearer " and "bearer " are stripped before trimming |
| AuthMiddleware.ExtractTokenOtherPrefix | backend/middleware/auth.js:33 | any other seven-character prefix, such as "BEARER ", stays part of the token |
| AuthMiddleware.ExtractCompactToken | backend/middleware/auth.js:33 | a white-space-free token sent as "Bearer <token>" is extracted intact |
| AuthMiddleware.AuthenticateJwt | backend/middleware/auth.js:29-40 | never rejects; a missing or empty header, or a token that fails verification, leaves the identity slot unchanged; the slot changes only to the verified claims of the header's token |
| AuthMiddleware.AuthenticateIssuedToken | backend/middleware/auth.js:29-40 | a token the signer issued, sent with the Bearer scheme, yields exactly its payload claims |
| AuthMiddleware.EnsureLoggedIn | backend/middleware/auth.js:47-54 | passes iff an identity is present, else Unauthorized |
| AuthMiddleware.EnsureAdmin | backend/middleware/auth.js:61-70 | passes iff an identity is present and is an admin, else Unauthorized |
| AuthMiddleware.EnsureCorrectUser | backend/middleware/auth.js:91-101 | passes iff an identity is present and its id equals the numeric value of `:userId`, else Unauthorized |
| AuthMiddleware.EnsureCorrectUserOrAdmin | backend/middleware/auth.js:78-88 | passes iff an identity is present and its id equals the numeric value of `:userId`, else Unauthorized |
| AuthMiddleware.CorrectUserGuardsAgree | backend/middleware/auth.js:78-101 | the two guards give the same answer on every request |
| AuthMiddleware.NoAdminOverride | backend/middleware/auth.js:78-88 | an admin whose id differs from `:userId` is rejected |
| AuthMiddleware.NonNumericParamRejected | backend/middleware/auth.js:91-101 | a `:userId` that is not a number never matches any identity |
| AuthMiddleware.GuardedParam | backend/middleware/auth.js:91-101 | once the guard passes, the integer PostgreSQL reads from `:userId` is the identity's own id |
| Tokens.TokenPayload | backend/helpers/tokens.js:9-20 | the payload exists iff id and email are both truthy, and then it is exactly `{id, email}`; otherwise a status-less error |
| Tokens.CreateToken | backend/helpers/tokens.js:9-20 | fails iff id is missing or 0, or email is missing or empty; otherwise the token is the signature of `{id, email}` |
| Tokens.ExtraFieldsIgnored | backend/helpers/tokens.js:14-17 | other fields of the user object do not affect the token |
| Tokens.CreateTokenRoundTrip | backend/helpers/tokens.js:14-19 | verifying an issued token yields the id, the email and the issue time, with no admin flag and no expiry |
| Text.JsToNumber | backend/middleware/auth.js:94 | unary plus on a path segment: blank text is 0, otherwise exactly the decimal value of the trimmed digits |
| Text.PgToInt | backend/routes/users.js:60-67 | PostgreSQL's cast of a text id to `integer`: when it reads, the text is one run of decimal digits with only ASCII white space around it, and the value is those digits' value, in 0..2147483647 |
| Text.PgTrim | backend/routes/users.js:60-67 | what PostgreSQL reads as digits: the slice of the text left after its leading and trailing ASCII white space (space, tab, line feed, carriage return, vertical tab, form feed), which neither starts nor ends with such white space |
| Text.PgToIntReadsPgTrim | backend/routes/users.js:60-67 | the cast reads exactly the texts whose ASCII-trimmed slice is digits with a value that fits in 32 bits, and gives that value |
| Text.PgTrimDigitsAreTrim | backend/routes/users.js:60-67 | digits with ASCII white space around them are also what JavaScript's trim leaves |
| Text.TrimDigitsArePgTrim | backend/routes/users.js:60-67 | in text made of digits and ASCII white space, digits left by JavaScript's trim are also what PostgreSQL's trim leaves |
| Text.TrimUnique | backend/middleware/auth.js:94 | a slice with only white space around it, and no white space at its own ends, is what `trim` returns |
| Text.NoBreakSpaceDisagrees | backend/middleware/auth.js:94 | unary plus reads "\u00A05" as 5, which the cast rejects, because JavaScript's white space includes the no-break space and PostgreSQL's does not |
| Text.ToNumberNatToString | backend/middleware/auth.js:94 | rendering an id in decimal and reading it back with unary plus gives the id; with the cast too when it fits in 32 bits |
| Text.PgToIntAgrees | backend/middleware/auth.js:94 | on every segment the cast reads, unary plus reads the same number |
| Http.IntParam | backend/models/userPreferences.js:30-56 | a value bound to an `integer` column: NULL for absent or null, a number read only within PostgreSQL's 32-bit range, a string read iff PostgreSQL's cast reads it |
| Http.TextParam | backend/models/notifications.js:7-18 | a value bound to a `text` column: NULL for absent or null, a string bound unchanged, never rejected |
| Http.BoolParam | backend/models/userPreferences.js:114-132 | a value bound to a `boolean` column: NULL for absent or null, a JSON boolean bound unchanged |
| Http.PathInt | backend/routes/categories.js:51-59 | a path id reaches the query iff PostgreSQL's cast reads it, with that value; otherwise an error without a status |
| Http.ErrorResponse | backend/app.js:45-53 | the status is the error's own status, or 500 when it has none; the body repeats that status; a BadRequest carries its message list |
| Http.ErrorStatuses | backend/app.js:47 | every error answers 400, 401, 404 or 500, and 500 exactly for errors without a class |
| Preferences.Add | backend/models/userPreferences.js:30-56 | succeeds iff the (user, item) pair is new, storing `notify`, true when omitted; a duplicate is BadRequest with the table unchanged; the key stays unique and no other pair changes |
| Preferences.Remove | backend/models/userPreferences.js:59-77 | succeeds iff the pair exists, answering `{userId, trackedItemId}`; afterwards the pair is absent and every other pair is unchanged; a missing pair is NotFound |
| Preferences.Get | backend/models/userPreferences.js:80-98 | returns a stored row with that key, or NotFound when no row has it |
| Preferences.FindAll | backend/models/userPreferences.js:101-111 | exactly the user's rows, each as often as in the table, in table order; none gives an empty list |
| Preferences.UpdateNotify | backend/models/userPreferences.js:114-132 | succeeds iff the pair exists; only that row's `notify` changes, to the given value; otherwise NotFound |
| Preferences.AddTwiceRejected | backend/models/userPreferences.js:41-48 | a second `add` of the same pair is BadRequest and changes nothing |
| Preferences.RemoveThenAdd | backend/models/userPreferences.js:30-77 | after `remove`, the same pair can be added again |
| Preferences.AddThenGet | backend/models/userPreferences.js:30-111 | an added row is what `get` returns and is listed by `findAll` |
| Notifications.Create | backend/models/notifications.js:7-18 | a fresh id, unread, with the given user and message, and no other id changes; a missing field is a status-less error |
| Notifications.FindAllForUser | backend/models/notifications.js:20-35 | exactly the user's notifications, each as often as in the table, newest first; NotFound iff the user has none |
| Notifications.MarkAsRead | backend/models/notifications.js:37-53 | succeeds iff the id exists; sets `is_read`, keeps the other fields and returns the row; no other row changes; otherwise NotFound |
| Notifications.Delete | backend/models/notifications.js:55-69 | succeeds iff the id exists, answering that id; the row is gone and the others are unchanged; otherwise NotFound |
| Notifications.MarkAsReadIdempotent | backend/models/notifications.js:37-53 | marking twice returns the same record and leaves the same table |
| Notifications.NoOwnershipCheck | backend/models/notifications.js:37-69 | any existing notification can be marked read or deleted by its id alone |
| Notifications.CreateThenList | backend/models/notifications.js:7-35 | a created notification is listed for its user |
| Users.Authenticate | backend/models/user.js:14-31 | succeeds iff a row with that email has a hash the password matches, answering that row's `{id, email}`; otherwise Unauthorized |
| Users.Register | backend/models/user.js:38-58 | an email in use is BadRequest with nothing inserted; otherwise a new row with a fresh id, the email and the password's hash, and no other row changes |
| Users.Get | backend/models/user.js:65-76 | the `{id, email, created_at}` of a row with that id, NotFound iff there is none |
| Users.FindAll | backend/models/user.js:82-89 | every user's profile, and only those, in ascending id order |
| Users.Update | backend/models/user.js:96-116 | absent or empty data is BadRequest; an unknown id is NotFound; success changes only that user's email; every failure leaves the table unchanged |
| Users.Remove | backend/models/user.js:119-128 | succeeds iff the id exists; afterwards the id is absent and every other row is unchanged; otherwise NotFound |
| Users.RegisterThenAuthenticate | backend/models/user.js:14-58 | a registered user can authenticate with the password they registered with |
| Users.RegisterTwiceRejected | backend/models/user.js:38-58 | a second registration with the same email is BadRequest and changes nothing |
| Users.RegisteredIdPositive | backend/models/user.js:48-57 | a new id is positive and fits a PostgreSQL `integer`, so a token can be issued for it |
| Categories.FindAll | backend/models/category.js:23-33 | a permutation of all categories sorted by name; NotFound iff the table is empty |
| Categories.Get | backend/models/category.js:36-48 | a stored category with that id, NotFound iff there is none |
| Categories.LeftJoin | backend/models/category.js:52-58 | no rows iff the category does not exist; every row carries the requested id |
| Categories.Nest | backend/models/category.js:60-79 | NotFound iff there are no rows; otherwise the category columns of the first row, and as items exactly the non-NULL item columns |
| Categories.GetWithItems | backend/models/category.js:51-80 | NotFound iff the category does not exist; otherwise a result with that id |
| Categories.LeftJoinPresent | backend/models/category.js:52-58 | under the primary key, the join for an existing category is exactly its own rows |
| Categories.GetWithItemsFound | backend/models/category.js:51-80 | a found result is some existing category with that id, holding exactly its tracked items in table order |
| Categories.ItemsOf | backend/models/category.js:66-72 | every item comes from a join row with a non-NULL item, and every such row's item is kept; never more items than rows |
| Categories.GetWithItemsExact | backend/models/category.js:51-80 | the items of an existing category are exactly its tracked items, projected to `{id, name, series_id}`, in table order, and `[]` when it has none |
| TrackedItems.FindAll | backend/models/trackedItem.js:11-23 | a permutation of all items sorted by name; no items is an empty list |
| TrackedItems.Get | backend/models/trackedItem.js:25-42 | a stored item with that id, NotFound iff there is none |
| TrackedItems.GetStored | backend/models/trackedItem.js:25-42 | under the primary key, `get` returns exactly the stored item |
| InflationData.Query | backend/models/inflationData.js:38-46 | the rows a `WHERE` keeps, each as often as in the table, in ascending date order (`ORDER BY date`) |
| InflationData.FindByItemId | backend/models/inflationData.js:23-36 | exactly the item's rows, each as often as in the table, in ascending date order; NotFound iff there are none |
| InflationData.FindByItemAndRange | backend/models/inflationData.js:38-51 | exactly the item's rows with start ≤ date ≤ end, each as often as in the table, in ascending date order; NotFound iff there are none |
| InflationData.Latest | backend/models/inflationData.js:55-58 | at most one row per item, in item order; every item has a row, and that row is at least as new as every row of its item |
| InflationData.GetLatestForAll | backend/models/inflationData.js:53-65 | one row per item, in item order, each the newest of its item; NotFound only when the table is empty |
| InflationData.LatestIsUnique | backend/models/inflationData.js:55-58 | with (item, date) unique, every other row of the item is strictly older than the reported one |
| InflationData.RangeWithinItem | backend/models/inflationData.js:23-51 | the range query is the item query restricted to the range |
| PreferenceRoutes.List | backend/routes/usersPreferences.js:14-21 | 401 unless the guard passes; then 200 with exactly the caller's preferences, each as often as in the table, possibly none; the database is untouched |
| PreferenceRoutes.Create | backend/routes/usersPreferences.js:28-42 | 401 unless the guard passes; 400 for a falsy `trackedItemId`; 201 iff the pair is new, storing the given `notify`, or true when omitted, and leaving every other pair as it was; a pair already present is 400 with no change |
| PreferenceRoutes.UpdateStep | backend/models/userPreferences.js:114-132 | `updateNotify` answered as the route answers: 404 iff the pair is absent, otherwise 200 with the row carrying the new `notify`, every other pair unchanged |
| PreferenceRoutes.Update | backend/routes/usersPreferences.js:49-61 | 401 unless the guard passes; 404 iff the pair is absent; an existing pair gets 200 with its row carrying the new `notify`; every other pair is unchanged |
| PreferenceRoutes.RemoveStep | backend/models/userPreferences.js:59-77 | `remove` answered as the route answers: 404 iff the pair is absent, otherwise 200 echoing the path strings; the pair is gone and every other pair unchanged |
| PreferenceRoutes.Remove | backend/routes/usersPreferences.js:67-77 | 401 unless the guard passes; 404 iff the pair is absent; an existing pair gets 200 echoing the path strings, is gone afterwards, and every other pair is unchanged |
| NotificationRoutes.ListStep | backend/models/notifications.js:20-35 | `findAllForUser` answered as the route answers: 404 iff the user has none, otherwise 200 with exactly the user's notifications, each as often as in the table, newest first |
| NotificationRoutes.List | backend/routes/userNotifications.js:16-24 | 401 unless the guard passes; 404 iff the caller has none, otherwise 200 with exactly the caller's notifications, each as often as in the table, newest first |
| NotificationRoutes.Create | backend/routes/userNotifications.js:34-42 | unguarded; 201 iff `userId` and `message` are usable, with a new unread notification from them; otherwise 500 and no change |
| NotificationRoutes.MarkReadStep | backend/models/notifications.js:37-53 | `markAsRead` answered as the route answers: 404 iff the id is absent, otherwise 200 with the row marked read; every other row unchanged |
| NotificationRoutes.MarkRead | backend/routes/userNotifications.js:51-60 | 500 without an identity; 404 iff the id is absent; an existing id gets 200 with its row marked read, whoever owns it; every other row is unchanged |
| NotificationRoutes.RemoveStep | backend/models/notifications.js:55-69 | `delete` answered as the route answers: 404 iff the id is absent, otherwise 200 echoing the path id; the row is gone and every other row unchanged |
| NotificationRoutes.Remove | backend/routes/userNotifications.js:69-78 | 500 without an identity; 404 iff the id is absent; an existing id gets 200 with `{deleted: <path id>}`, the row is gone, and every other row is unchanged |
| NotificationRoutes.AnyoneCanMarkRead | backend/routes/userNotifications.js:51-60 | a signed-in user marks another user's notification read with 200 |
| UserRoutes.RegisterFromBody | backend/models/user.js:38-58 | `register` on body values: an email in use is BadRequest; string fields give exactly the model's answer; a failure changes nothing |
| UserRoutes.AuthenticateFromBody | backend/models/user.js:14-31 | `authenticate` on body values: string fields give exactly the model's answer; success names an existing user |
| UserRoutes.Register | backend/routes/users.js:21-34 | 400 with the schema's messages; an email in use is 400 with no change; a successful insert answers 201 with exactly the new `{id, email}`; 201 only for a new row holding the password's hash; the database changes only on 201 |
| UserRoutes.Login | backend/routes/users.js:42-53 | 400 unless email and password are both truthy; then 200 iff the credentials match a user, with that user's `{id, email}` |
| UserRoutes.GetStep | backend/models/user.js:65-76 | `get` answered as the route answers: 404 iff no user has the id, otherwise 200 with that user's profile |
| UserRoutes.Get | backend/routes/users.js:60-67 | 401 unless the guard passes, even for unknown ids; 404 iff the caller's row is gone; 200 with the caller's own profile |
| UserRoutes.UpdateStep | backend/models/user.js:96-116 | `update` on a nonempty body, answered as the route answers: 404 iff the id is absent; 200 iff an email is given and no other user holds it, with `{id, email}`; every other row unchanged |
| UserRoutes.Update | backend/routes/users.js:70-83 | 401 unless the guard passes; 400 with the schema's messages before `update` runs; 400 for an empty body before the id is read; 404 iff the caller's row is absent; a free or unchanged email gets 200 with `{id, email}`; only the caller's email changes |
| UserRoutes.Remove | backend/routes/users.js:86-93 | 401 unless the guard passes; 404 iff the caller's row is absent, otherwise 200 with `{deleted: <path userId>}`; the caller's row is gone and every other row is unchanged |
| UserRoutes.RemoveThenGet | backend/routes/users.js:60-93 | after a successful delete, a GET with the same identity is 404 |
| UserRoutes.GetOwnProfile | backend/routes/users.js:60-67 | a user whose id the path names reads exactly their own profile |
| AuthRoutes.StripInstance | backend/routes/auth.js:27-30 | one leading "instance." is removed, and nothing else |
| AuthRoutes.TokenMessages | backend/routes/auth.js:27-30 | one message per schema error: the property without its "instance." prefix, a space, the error text |
| AuthRoutes.TokenMessageForms | backend/routes/auth.js:27-30 | "instance.email" gives "email …"; the bare root path keeps its name; only the first "instance." goes |
| AuthRoutes.TokenFor | backend/routes/auth.js:34-37 | a token exists iff the account's id and email are truthy, and signs exactly `{id, email}` |
| AuthRoutes.Token | backend/routes/auth.js:23-41 | 400 with the reformatted messages; the authentication error otherwise (401 for bad credentials); for valid credentials of an account with a truthy id and email, 200 with exactly the token signing `{id, email}` at the current time; the database is untouched |
| AuthRoutes.Register | backend/routes/auth.js:48-62 | 400 with the schema's messages and no change; an email in use is 400 with no change; a successful insert is kept and answers 201 with exactly the token signing the new `{id, email}`, or 500 when the email is empty |
| AuthRoutes.TokenVerifies | backend/routes/auth.js:34-37 | the token `/token` issues verifies to the user's id and email, with no admin flag and no expiry |
| InflationRoutes.Latest | backend/routes/inflation.js:25-32 | 404 iff there are no observations; otherwise 200 with exactly one row per item, in increasing item order, each the newest of its item |
| InflationRoutes.Range | backend/routes/inflation.js:35-53 | 400 iff `start` or `end` is missing or empty; 200 iff everything parses and a row falls in the inclusive range, with exactly those rows, each as often as in the table, oldest first |
| InflationRoutes.RangeData | backend/routes/inflation.js:44-49 | a status-less error iff the path or a bound cannot be read; otherwise the inclusive range query |
| InflationRoutes.ItemData | backend/routes/inflation.js:56-64 | 404 iff the item has no observations, otherwise 200 with exactly its rows, each as often as in the table, oldest first |
| InflationRoutes.BoundsCheckedFirst | backend/routes/inflation.js:38-42 | a missing bound gives 400 before the path is read |
| CatalogRoutes.ListCategories | backend/routes/categories.js:41-48 | 404 iff there are no categories, otherwise 200 with a permutation of them ordered by name |
| CatalogRoutes.GetCategory | backend/routes/categories.js:51-59 | 404 iff no category has the id, otherwise 200 with the stored category |
| CatalogRoutes.WithItemsStep | backend/models/category.js:51-80 | `getWithItems` answered as the route answers: 404 iff no category has the id, otherwise 200 with that category's columns and exactly its tracked items |
| CatalogRoutes.GetCategoryWithItems | backend/routes/categories.js:62-70 | 404 iff no category has the id, otherwise 200 with that category's columns and exactly its tracked items projected to `{id, name, series_id}`, in table order |
| CatalogRoutes.ListItems | backend/routes/trackedItems.js:22-29 | always 200 with a permutation of the items ordered by name |
| CatalogRoutes.GetItem | backend/routes/trackedItems.js:32-40 | 404 iff no item has the id, otherwise 200 with the stored item |
| App.RouteOf | backend/app.js:27-42 | a matched route's path parameters are nonempty segments, and only paths of one to four segments match |
| App.RouteOfLine | backend/app.js:27-37 | every matched request is exactly the declared method and path of the route it reaches |
| App.LineReachesRoute | backend/app.js:27-37 | every route is reached by its own declared request, except `/inflation/latest` as an item id |
| App.LatestShadowsItem | backend/routes/inflation.js:25-56 | `GET /inflation/latest` reaches `/latest`, though it is also the request line of `/:itemId` with id "latest" |
| App.Handle | backend/app.js:27-42 | every handler keeps the database's constraints; an unmatched route is 404 with no change |
| App.Serve | backend/app.js:25-53 | every reply keeps the database's constraints; an unmatched request is 404 with no change; `/ping` is 200 |
| App.HeaderOnlySetsIdentity | backend/app.js:25 | the Authorization header counts only through the identity the middleware derives from it, which never rejects a request by itself |
| App.AnonymousGuardedUnauthorized | backend/middleware/auth.js:91-102 | a request without a token to a route behind the correct-user guard is 401 and changes nothing |
| App.AnonymousNotificationWriteFails | backend/routes/userNotifications.js:51-78 | marking read or deleting a notification without a token fails with 500 and changes nothing |
| App.BadTokenIsAnonymous | backend/app.js:25 | a token that does not verify is served exactly as a request without one |
| App.UnknownPathNotFound | backend/app.js:40-42 | a path outside every mount is 404 and changes nothing |
| App.SignUpThenProfile | backend/routes/auth.js:48-62 | signing up with a fresh email gives 201 and a token; that token, sent back, reads the new user's profile at `/users/<id>` |
| DateRangeFilter.FilterByDateRange | frontend/src/helpers/filterDataByDateRange.js:9-19 | input returned as-is when null, empty or missing a bound; otherwise an order-preserving subsequence keeping exactly the points whose date lies within the inclusive bounds, each as often as in the input |
| DateRangeFilter.FilterTwice | frontend/src/helpers/filterDataByDateRange.js:15-18 | filtering a filtered series again with the same bounds changes nothing |
| DateRangeFilter.InvalidBoundEmpties | frontend/src/helpers/filterDataByDateRange.js:12-18 | an invalid bound empties the series rather than leaving it unfiltered |
| InflationSeries.Process | frontend/src/helpers/processInflationData.js:7-19 | null or empty gives `[]`; otherwise the same length, a permutation of the converted points, each a converted input point and every converted input point present, ascending by valid date |
| InflationSeries.SortedInputKeepsOrder | frontend/src/helpers/processInflationData.js:18 | input already in date order keeps its order |
| SignupForm.Validate | frontend/src/pages/authentication/SignupForm.jsx:28-41 | the mismatch message iff the passwords differ, the length message iff the password is shorter than 6, mismatch first, no errors iff both checks pass |
| SignupForm.SignupDataOf | frontend/src/pages/authentication/SignupForm.jsx:52 | the submitted data keeps the email and the password |
| SignupForm.Submit | frontend/src/pages/authentication/SignupForm.jsx:43-54 | data is sent iff the form validates, and is then the form without `passwordConfirm` |
| SignupForm.SubmittableData | frontend/src/pages/authentication/SignupForm.jsx:43-54 | exactly the sign-ups with a password of at least 6 characters can be submitted |
| CategoryList.Search | frontend/src/pages/categories/CategoryList.jsx:37-52 | the empty term gives all categories in order; otherwise an order-preserving subsequence keeping exactly the categories whose lower-cased name, or nonempty description, contains the lower-cased term, each as often as in the list |
| CategoryList.CaseOfTermIgnored | frontend/src/pages/categories/CategoryList.jsx:42-49 | the search gives the same result for a term and its lower-cased form |
| CategoryList.NarrowingShrinks | frontend/src/pages/categories/CategoryList.jsx:42-49 | a category matching a longer term also matches any term it contains |
| CategoryCard.ShownDescription | frontend/src/pages/categories/CategoryCard.jsx:12-14 | absent stays absent; at most 120 characters is shown unchanged; a longer description becomes its first 120 characters and "..."; never more than 123 characters |
| CategoryCard.ShownIdempotent | frontend/src/pages/categories/CategoryCard.jsx:12-14 | truncating a shown description again changes nothing |
| CategoryCard.ShownIsPrefix | frontend/src/pages/categories/CategoryCard.jsx:12-14 | what is shown is the description cut at some length, followed by the ellipsis exactly when text was cut, and text is cut exactly when the description is longer than 120 characters |
| CategoryCard.CutMayLookUncut | frontend/src/pages/categories/CategoryCard.jsx:12-14 | 120 characters followed by "..." are shown unchanged although they were cut, so "shown equals the description" does not mean "not cut" |

## Left out

- PostgreSQL itself is not modelled: the SQL text, error code `23505`,
  connection handling, and the race between a lookup and the write that
  follows it.  Tables are sequences and each statement is one pure step.
  The unique (item, date) pair of the observations table comes from the
  loader's `ON CONFLICT (tracked_item_id, date)` upsert.
- Foreign keys and cascades are not modelled; the schema is not part of
  this model.  Deleting a user leaves that user's preferences and
  notifications in place.
- Rows come back in table order wherever the SQL has no `ORDER BY`: joins,
  `findAll` of preferences, the filter before a sort.
- Ordering by name uses code-point order (the "C" collation); a
  locale-aware collation may order names differently.
- `loginLimiter` (backend/middleware/auth.js:19-27) is not modelled: it is
  a time-based rate limiter.
- `bcrypt`, `jsonwebtoken` and `jsonschema` are parameters (`Hasher`,
  `Signer`, `Schema`); the schema files are not part of this model.
- Error message texts are not modelled.  The exceptions are the `/auth/token`
  schema message list and the list a `BadRequestError` carries.  The `/ping`
  body is the single value `PingBody`.
- Requests are simplified in three ways:
  - a path is its list of decoded segments, matched exactly;
  - Express's case-insensitive matching, trailing slashes and `HEAD`
    requests are not modelled;
  - a body is its top-level properties of type string, integer, boolean or
    null, so nested objects, arrays and fractional numbers are not
    modelled.
- Http.BoolParam: reads only JSON booleans for the `notify` column.  The
  text spellings PostgreSQL also accepts ("t", "yes", "1") are treated as
  rejected.
- Text.PgToInt: reads only unsigned decimal digits, with surrounding ASCII
  white space allowed.  A sign, underscores between digits, or another
  numeric spelling PostgreSQL accepts is treated as invalid.
- Text.JsToNumber: reads only unsigned decimal digits, and the blank
  string as 0.  Signs, fractions, exponents and hexadecimal are treated as
  `NaN`.  It agrees with `Text.PgToInt` on every string the latter reads.
- The CORS, JSON-parsing and logging middleware, environment
  configuration, and the data-loading script are not modelled: they carry
  no request logic.
- InflationSeries.Process: orders only the points whose date is valid,
  and places a point with an invalid date as if dated 0.  A comparator
  that returns `NaN` is inconsistent, so JavaScript's `sort` may leave even
  the valid points out of order once one date is invalid (V8 keeps
  `[3, NaN, 1]` as it is).  The ascending-date clause therefore describes
  the model's placement, not the engine's, whenever some date is invalid.
  Stability of the sort is not stated either.
- InflationSeries.Process: `parseFloat` is the parameter `parseNumber`.
  Values are `real`, so floating-point rounding is not modelled.
- DateRangeFilter.FilterByDateRange: `new Date(…).getTime()` is the
  parameter `parse`.
- SignupForm.Validate: counts the password's length in characters, where
  JavaScript counts UTF-16 code units; they differ only outside the Basic
  Multilingual Plane.
- CategoryCard.ShownDescription: counts characters, not UTF-16 code units,
  for the same reason.
- CategoryList.Search: lower-cases ASCII letters only, while `toLowerCase`
  also folds other scripts.
- CategoryList.Search: a search term that arrives as something other than
  a string is not modelled.
- The rest of the frontend is not modelled:
  - floating-point statistics (`calculateStatistics`, the dashboard
    summaries, chart preparation);
  - React rendering and routing;
  - the HTTP client;
  - the authentication context, which uses storage and the clock;
  - date formatting.
