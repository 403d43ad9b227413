/** Requests, responses and the error handler of `backend/app.js`.

    A request body is the object `express.json()` produces, flattened to its
    top-level properties; a missing property is `None` (`undefined`).  Path
    parameters and query values are strings.
 */
module Http {
  import opened Common
  import Text
  import Store
  import Preferences
  import Notifications
  import Users
  import Categories
  import TrackedItems
  import InflationData

  datatype Method = Get | Post | Patch | Delete

  /** A JSON value in a request body. */
  datatype Value = Str(s: string) | Num(n: int) | Bool(b: bool) | Null

  type Fields = map<string, Value>

  /** A request: its method, the decoded path segments, the Authorization header,
      the body and the query string. */
  datatype Request = Request(verb: Method, path: seq<string>, authorization: Option<string>, body: Fields, query: map<string, string>)

  /** The JSON bodies the routes send. */
  datatype Body =
    | ErrorBody(messages: seq<string>, status: int)
    | PreferencesBody(preferences: seq<Preferences.Preference>)
    | PreferenceBody(preference: Preferences.Preference)
    | DeletedPreferenceBody(userId: string, trackedItemId: string)
    | NotificationsBody(notifications: seq<Notifications.Notification>)
    | NotificationBody(notification: Notifications.Notification)
    | DeletedBody(deleted: string)
    | AccountBody(account: Users.Account)
    | ProfileBody(profile: Users.Profile)
    | TokenBody(token: string)
    | CategoriesBody(categories: seq<Categories.Category>)
    | CategoryBody(category: Categories.Category)
    | CategoryWithItemsBody(categoryWithItems: Categories.CategoryWithItems)
    | TrackedItemsBody(trackedItems: seq<TrackedItems.TrackedItem>)
    | TrackedItemBody(trackedItem: TrackedItems.TrackedItem)
    | DataBody(data: seq<InflationData.Observation>)
    | PingBody

  datatype Response = Response(status: int, body: Body)

  /** A handler's answer and the database after it. */
  datatype Reply = Reply(response: Response, db: Store.Db)

  /** The `status` property of each error class; errors that are not
      `ExpressError`s have none. */
  function ClassStatus(e: Error): Option<int>
  {
    match e
    case NotFound => Some(404)
    case BadRequest(_) => Some(400)
    case Unauthorized => Some(401)
    case Unexpected => None
  }

  /** The generic error handler: `status = err.status || 500` and the body
      `{ error: { message, status } }`.  A `BadRequestError` built from a
      list carries that list as its message; other message texts are not
      modelled. */
  function ErrorResponse(e: Error): (r: Response)
    ensures ClassStatus(e).Some? && ClassStatus(e).value != 0 ==> r.status == ClassStatus(e).value
    ensures ClassStatus(e).None? ==> r.status == 500
    ensures r.body.ErrorBody? && r.body.status == r.status
    ensures e.BadRequest? ==> r.body.messages == e.messages
  {
    var status := match ClassStatus(e) case Some(s) => (if s != 0 then s else 500) case None => 500;
    Response(status, ErrorBody(if e.BadRequest? then e.messages else [], status))
  }

  /** Every error ends as one of the four error statuses, and 500 only for
      errors without a class. */
  lemma ErrorStatuses(e: Error)
    ensures ErrorResponse(e).status in {400, 401, 404, 500}
    ensures ErrorResponse(e).status == 500 <==> e == Unexpected
    ensures ErrorResponse(e).status == 404 <==> e == NotFound
    ensures ErrorResponse(e).status == 401 <==> e == Unauthorized
  {
  }

  /** `res.status(okStatus).json(wrap(value))`, or `next(err)`. */
  function Respond<T>(r: Result<T>, okStatus: int, wrap: T -> Body): Response
  {
    match r
    case Ok(v) => Response(okStatus, wrap(v))
    case Err(e) => ErrorResponse(e)
  }

  /** `body[key]`, `None` standing for `undefined`. */
  function Prop(body: Fields, key: string): (v: Option<Value>)
    ensures v.Some? <==> key in body
    ensures v.Some? ==> v.value == body[key]
  {
    if key in body then Some(body[key]) else None
  }

  /** JavaScript truthiness of a body property. */
  predicate Truthy(v: Option<Value>)
  {
    match v
    case None => false
    case Some(Null) => false
    case Some(Str(s)) => s != ""
    case Some(Num(n)) => n != 0
    case Some(Bool(b)) => b
  }

  /** A JavaScript value sent as a query parameter: SQL NULL, a value of the
      column's type, or one PostgreSQL rejects (an error without a status). */
  datatype Param<+T> = SqlNull | Value(value: T) | Invalid

  /** The smallest value of a PostgreSQL `integer`. */
  const PgIntMin: int := -2147483648

  /** A value bound to an `integer` column: numbers in range, strings that
      cast; `undefined` and `null` become NULL. */
  function IntParam(v: Option<Value>): (p: Param<int>)
    ensures p.Value? ==> PgIntMin <= p.value <= Text.PgIntMax
    ensures v.Some? && v.value.Str? ==> (p.Value? <==> Text.PgToInt(v.value.s).Some?)
    ensures v.Some? && v.value.Num? ==> (p.Value? <==> PgIntMin <= v.value.n <= Text.PgIntMax)
    ensures p.SqlNull? <==> v.None? || v == Some(Null)
  {
    match v
    case None => SqlNull
    case Some(Null) => SqlNull
    case Some(Num(n)) => if PgIntMin <= n <= Text.PgIntMax then Value(n) else Invalid
    case Some(Str(s)) => (match Text.PgToInt(s) case Some(n) => Value(n) case None => Invalid)
    case Some(Bool(_)) => Invalid
  }

  /** A value bound to a `text` column: node-postgres sends numbers and
      booleans as their string forms. */
  function TextParam(v: Option<Value>): (p: Param<string>)
    ensures p.SqlNull? <==> v.None? || v == Some(Null)
    ensures v.Some? && v.value.Str? ==> p == Value(v.value.s)
    ensures p != Invalid
  {
    match v
    case None => SqlNull
    case Some(Null) => SqlNull
    case Some(Str(s)) => Value(s)
    case Some(Num(n)) => Value(Text.IntToString(n))
    case Some(Bool(b)) => Value(if b then "true" else "false")
  }

  /** A value bound to a `boolean` column.  Only JSON booleans are read;
      the text spellings PostgreSQL would also accept are not modelled and
      count as rejected. */
  function BoolParam(v: Option<Value>): (p: Param<bool>)
    ensures p.SqlNull? <==> v.None? || v == Some(Null)
    ensures v.Some? && v.value.Bool? ==> p == Value(v.value.b)
  {
    match v
    case None => SqlNull
    case Some(Null) => SqlNull
    case Some(Bool(b)) => Value(b)
    case Some(_) => Invalid
  }

  /** A path parameter bound to an `integer` column. */
  function PathInt(s: string): (r: Result<int>)
    ensures r.Ok? <==> Text.PgToInt(s).Some?
    ensures r.Ok? ==> Text.PgToInt(s) == Some(r.value)
    ensures r.Err? ==> r.error == Unexpected
  {
    match Text.PgToInt(s)
    case Some(n) => Ok(n)
    case None => Err(Unexpected)
  }

  /** One error reported by `jsonschema.validate`: the property path
      (`instance.email`), the message, and the `stack` text. */
  datatype SchemaError = SchemaError(property: string, message: string, stack: string)

  /** A JSON schema, as the list of errors it reports for a body. */
  type Schema = Fields -> seq<SchemaError>

  /** `validator.errors.map((e) => e.stack)` */
  function Stacks(errs: seq<SchemaError>): (r: seq<string>)
    ensures |r| == |errs|
    ensures forall i :: 0 <= i < |errs| ==> r[i] == errs[i].stack
  {
    seq(|errs|, i requires 0 <= i < |errs| => errs[i].stack)
  }
}
