/** `backend/app.js`: the identity middleware runs on every request, then
    the routers in the order they are mounted, then `/ping`, then the
    catch-all 404; every error ends in the generic handler
    (`Http.ErrorResponse`).

    A request path is its list of decoded segments (`/users/3` is
    `["users", "3"]`), and a route parameter matches one nonempty segment.
 */
module App {
  import opened Common
  import opened Http
  import opened Crypto
  import opened AuthMiddleware
  import Text
  import Store
  import Tables
  import Users
  import AuthRoutes
  import CatalogRoutes
  import InflationRoutes
  import NotificationRoutes
  import UserRoutes
  import PreferenceRoutes

  /** What the handlers take from outside the request: the JWT signer, the
      password hasher, the three JSON schemas, PostgreSQL's date reading and
      the clock. */
  datatype Env = Env(
    signer: Signer,
    hasher: Hasher,
    loginSchema: Schema,
    registerSchema: Schema,
    updateSchema: Schema,
    parseDate: string -> Option<int>,
    now: int)

  /** The handler a request reaches, with its path parameters. */
  datatype Route =
    | AuthToken | AuthRegister
    | CategoryList | CategoryGet(id: string) | CategoryItems(id: string)
    | InflationLatest | InflationRange(itemId: string) | InflationItem(itemId: string)
    | ItemList | ItemGet(id: string)
    | NotificationList(userId: string) | NotificationCreate
    | NotificationRead(id: string) | NotificationDelete(id: string)
    | UserRegister | UserLogin
    | UserGet(userId: string) | UserUpdate(userId: string) | UserDelete(userId: string)
    | PreferenceList(userId: string) | PreferenceCreate(userId: string)
    | PreferenceUpdate(userId: string, itemId: string) | PreferenceDelete(userId: string, itemId: string)
    | Ping
    | Unmatched

  /** Every path parameter of a route is a nonempty segment. */
  predicate ParamsNonEmpty(r: Route)
  {
    match r
    case CategoryGet(id) => id != ""
    case CategoryItems(id) => id != ""
    case InflationRange(id) => id != ""
    case InflationItem(id) => id != ""
    case ItemGet(id) => id != ""
    case NotificationList(u) => u != ""
    case NotificationRead(id) => id != ""
    case NotificationDelete(id) => id != ""
    case UserGet(u) => u != ""
    case UserUpdate(u) => u != ""
    case UserDelete(u) => u != ""
    case PreferenceList(u) => u != ""
    case PreferenceCreate(u) => u != ""
    case PreferenceUpdate(u, i) => u != "" && i != ""
    case PreferenceDelete(u, i) => u != "" && i != ""
    case _ => true
  }

  /** One nonempty segment, as a route parameter. */
  predicate Param(s: string)
  {
    s != ""
  }

  /** The router table: the mounts of `app.js` in order, and inside each
      router its routes in declaration order; the first match wins. */
  function RouteOf(verb: Method, path: seq<string>): (r: Route)
    ensures ParamsNonEmpty(r)
    ensures r != Unmatched ==> 1 <= |path| <= 4
  {
    if |path| == 0 then Unmatched
    else
      var rest := path[1..];
      match path[0]
      case "auth" =>
        if verb == Post && rest == ["token"] then AuthToken
        else if verb == Post && rest == ["register"] then AuthRegister
        else Unmatched
      case "categories" =>
        if verb != Get then Unmatched
        else if rest == [] then CategoryList
        else if |rest| == 1 && Param(rest[0]) then CategoryGet(rest[0])
        else if |rest| == 2 && Param(rest[0]) && rest[1] == "items" then CategoryItems(rest[0])
        else Unmatched
      case "inflation" =>
        if verb != Get then Unmatched
        else if rest == ["latest"] then InflationLatest
        else if |rest| == 2 && Param(rest[0]) && rest[1] == "range" then InflationRange(rest[0])
        else if |rest| == 1 && Param(rest[0]) then InflationItem(rest[0])
        else Unmatched
      case "items" =>
        if verb != Get then Unmatched
        else if rest == [] then ItemList
        else if |rest| == 1 && Param(rest[0]) then ItemGet(rest[0])
        else Unmatched
      case "notifications" =>
        if verb == Get && |rest| == 1 && Param(rest[0]) then NotificationList(rest[0])
        else if verb == Post && rest == [] then NotificationCreate
        else if verb == Patch && |rest| == 2 && Param(rest[0]) && rest[1] == "read" then NotificationRead(rest[0])
        else if verb == Delete && |rest| == 1 && Param(rest[0]) then NotificationDelete(rest[0])
        else Unmatched
      case "users" =>
        if verb == Post && rest == ["register"] then UserRegister
        else if verb == Post && rest == ["login"] then UserLogin
        else if verb == Get && |rest| == 1 && Param(rest[0]) then UserGet(rest[0])
        else if verb == Patch && |rest| == 1 && Param(rest[0]) then UserUpdate(rest[0])
        else if verb == Delete && |rest| == 1 && Param(rest[0]) then UserDelete(rest[0])
        else Unmatched
      case "preferences" =>
        if verb == Get && |rest| == 2 && Param(rest[0]) && rest[1] == "preferences" then PreferenceList(rest[0])
        else if verb == Post && |rest| == 2 && Param(rest[0]) && rest[1] == "preferences" then PreferenceCreate(rest[0])
        else if verb == Patch && |rest| == 3 && Param(rest[0]) && rest[1] == "preferences" && Param(rest[2]) then
          PreferenceUpdate(rest[0], rest[2])
        else if verb == Delete && |rest| == 3 && Param(rest[0]) && rest[1] == "preferences" && Param(rest[2]) then
          PreferenceDelete(rest[0], rest[2])
        else Unmatched
      case "ping" =>
        if verb == Get && rest == [] then Ping else Unmatched
      case _ => Unmatched
  }

  /** The method and path a route is declared with, its parameters filled in. */
  function RequestLine(r: Route): (Method, seq<string>)
    requires r != Unmatched
  {
    match r
    case AuthToken => (Post, ["auth", "token"])
    case AuthRegister => (Post, ["auth", "register"])
    case CategoryList => (Get, ["categories"])
    case CategoryGet(id) => (Get, ["categories", id])
    case CategoryItems(id) => (Get, ["categories", id, "items"])
    case InflationLatest => (Get, ["inflation", "latest"])
    case InflationRange(id) => (Get, ["inflation", id, "range"])
    case InflationItem(id) => (Get, ["inflation", id])
    case ItemList => (Get, ["items"])
    case ItemGet(id) => (Get, ["items", id])
    case NotificationList(u) => (Get, ["notifications", u])
    case NotificationCreate => (Post, ["notifications"])
    case NotificationRead(id) => (Patch, ["notifications", id, "read"])
    case NotificationDelete(id) => (Delete, ["notifications", id])
    case UserRegister => (Post, ["users", "register"])
    case UserLogin => (Post, ["users", "login"])
    case UserGet(u) => (Get, ["users", u])
    case UserUpdate(u) => (Patch, ["users", u])
    case UserDelete(u) => (Delete, ["users", u])
    case PreferenceList(u) => (Get, ["preferences", u, "preferences"])
    case PreferenceCreate(u) => (Post, ["preferences", u, "preferences"])
    case PreferenceUpdate(u, i) => (Patch, ["preferences", u, "preferences", i])
    case PreferenceDelete(u, i) => (Delete, ["preferences", u, "preferences", i])
    case Ping => (Get, ["ping"])
  }

  /** Every matched request is exactly the declared request line of the
      route it reaches. */
  lemma RouteOfLine(verb: Method, path: seq<string>)
    requires RouteOf(verb, path) != Unmatched
    ensures RequestLine(RouteOf(verb, path)) == (verb, path)
  {
    var rest := path[1..];
    if |path| == 1 {
      assert path == [path[0]] && rest == [];
    } else if |path| == 2 {
      assert path == [path[0], path[1]] && rest == [path[1]];
    } else if |path| == 3 {
      assert path == [path[0], path[1], path[2]] && rest == [path[1], path[2]];
    } else {
      assert path == [path[0], path[1], path[2], path[3]] && rest == [path[1], path[2], path[3]];
    }
  }

  /** Every route is reached by its own request line, except `GET
      /inflation/:itemId` with the item id "latest", which `/latest`,
      declared first, takes. */
  lemma LineReachesRoute(r: Route)
    requires r != Unmatched && ParamsNonEmpty(r) && r != InflationItem("latest")
    ensures RouteOf(RequestLine(r).0, RequestLine(r).1) == r
  {
    var line := RequestLine(r);
    assert line.1[1..] == line.1[1..];
  }

  /** `GET /inflation/latest` reaches the `/latest` handler, not `/:itemId`. */
  lemma LatestShadowsItem()
    ensures RouteOf(Get, ["inflation", "latest"]) == InflationLatest
    ensures RequestLine(InflationItem("latest")) == (Get, ["inflation", "latest"])
  {
    assert ["inflation", "latest"][1..] == ["latest"];
  }

  /** The handler of each route, given the identity the middleware left and
      the request's body and query (no handler reads the headers). */
  function Handle(route: Route, user: Option<Claims>, body: Fields, query: map<string, string>, db: Store.Db, env: Env): (r: Reply)
    requires Store.Valid(db)
    ensures Store.Valid(r.db)
    ensures route == Unmatched ==> r == Reply(ErrorResponse(NotFound), db)
  {
    match route
    case AuthToken =>
      AuthRoutes.Token(body, env.loginSchema, env.hasher, env.signer, env.now, db)
    case AuthRegister =>
      AuthRoutes.Register(body, env.registerSchema, env.hasher, env.signer, env.now, db)
    case CategoryList => CatalogRoutes.ListCategories(db)
    case CategoryGet(id) => CatalogRoutes.GetCategory(id, db)
    case CategoryItems(id) => CatalogRoutes.GetCategoryWithItems(id, db)
    case InflationLatest => InflationRoutes.Latest(db)
    case InflationRange(id) => InflationRoutes.Range(id, query, env.parseDate, db)
    case InflationItem(id) => InflationRoutes.ItemData(id, db)
    case ItemList => CatalogRoutes.ListItems(db)
    case ItemGet(id) => CatalogRoutes.GetItem(id, db)
    case NotificationList(u) => NotificationRoutes.List(user, u, db)
    case NotificationCreate => NotificationRoutes.Create(body, env.now, db)
    case NotificationRead(id) => NotificationRoutes.MarkRead(user, id, db)
    case NotificationDelete(id) => NotificationRoutes.Remove(user, id, db)
    case UserRegister => UserRoutes.Register(body, env.registerSchema, env.hasher, env.now, db)
    case UserLogin => UserRoutes.Login(body, env.hasher, db)
    case UserGet(u) => UserRoutes.Get(user, u, db)
    case UserUpdate(u) => UserRoutes.Update(user, u, body, env.updateSchema, db)
    case UserDelete(u) => UserRoutes.Remove(user, u, db)
    case PreferenceList(u) => PreferenceRoutes.List(user, u, db)
    case PreferenceCreate(u) => PreferenceRoutes.Create(user, u, body, db)
    case PreferenceUpdate(u, i) => PreferenceRoutes.Update(user, u, i, body, db)
    case PreferenceDelete(u, i) => PreferenceRoutes.Remove(user, u, i, db)
    case Ping => Reply(Response(200, PingBody), db)
    case Unmatched => Reply(ErrorResponse(NotFound), db)
  }

  /** The whole application on one request: `authenticateJWT` starts from
      an empty identity slot and never rejects, then the route runs. */
  function Serve(req: Request, db: Store.Db, env: Env): (r: Reply)
    requires Store.Valid(db)
    ensures Store.Valid(r.db)
    ensures RouteOf(req.verb, req.path) == Unmatched ==> r.response == ErrorResponse(NotFound) && r.db == db
    ensures RouteOf(req.verb, req.path) == Ping ==> r.response == Response(200, PingBody) && r.db == db
  {
    var step := AuthenticateJwt(req.authorization, None, env.signer.verify);
    Handle(RouteOf(req.verb, req.path), step.user, req.body, req.query, db, env)
  }

  /** A token that does not verify is the same as no token at all: the
      request is served anonymously, never rejected by the middleware. */
  lemma BadTokenIsAnonymous(req: Request, db: Store.Db, env: Env)
    requires Store.Valid(db)
    requires req.authorization.Some? && env.signer.verify(ExtractToken(req.authorization.value)).None?
    ensures Serve(req, db, env) == Serve(req.(authorization := None), db, env)
  {
  }

  /** The Authorization header matters only through the identity the
      middleware leaves: two requests that differ in their headers alone,
      and authenticate alike, get the same reply. */
  lemma HeaderOnlySetsIdentity(req1: Request, req2: Request, db: Store.Db, env: Env)
    requires Store.Valid(db)
    requires req1.(authorization := None) == req2.(authorization := None)
    requires AuthenticateJwt(req1.authorization, None, env.signer.verify).user
             == AuthenticateJwt(req2.authorization, None, env.signer.verify).user
    ensures Serve(req1, db, env) == Serve(req2, db, env)
  {
    assert req1.verb == req2.verb && req1.path == req2.path && req1.body == req2.body && req1.query == req2.query by {
      assert req1.(authorization := None).verb == req2.(authorization := None).verb;
    }
  }

  /** The routes behind `ensureCorrectUser`. */
  predicate Guarded(r: Route)
  {
    r.NotificationList? || r.UserGet? || r.UserUpdate? || r.UserDelete?
    || r.PreferenceList? || r.PreferenceCreate? || r.PreferenceUpdate? || r.PreferenceDelete?
  }

  /** Without an identity, every guarded route answers 401 and changes
      nothing: the middleware lets the request through, the guard stops it. */
  lemma AnonymousGuardedUnauthorized(req: Request, db: Store.Db, env: Env)
    requires Store.Valid(db)
    requires req.authorization.None? && Guarded(RouteOf(req.verb, req.path))
    ensures Serve(req, db, env) == Reply(ErrorResponse(Unauthorized), db)
  {
  }

  /** Without an identity, marking a notification read or deleting one
      fails with 500: the handler reads the missing identity's id. */
  lemma AnonymousNotificationWriteFails(req: Request, db: Store.Db, env: Env)
    requires Store.Valid(db)
    requires req.authorization.None?
    requires RouteOf(req.verb, req.path).NotificationRead? || RouteOf(req.verb, req.path).NotificationDelete?
    ensures Serve(req, db, env) == Reply(ErrorResponse(Unexpected), db)
  {
  }

  /** An unknown path, or a known path with another method, is 404 and
      changes nothing. */
  lemma UnknownPathNotFound(req: Request, db: Store.Db, env: Env)
    requires Store.Valid(db)
    requires |req.path| > 0 && req.path[0] !in {"auth", "categories", "inflation", "items", "notifications", "users", "preferences", "ping"}
    ensures Serve(req, db, env) == Reply(ErrorResponse(NotFound), db)
  {
  }

  /** `{ email, password }` as a JSON body. */
  function Credentials(email: string, password: string): Fields
  {
    map["email" := Str(email), "password" := Str(password)]
  }

  /** Signing up through `/auth/register` with a fresh address yields a
      token that, sent back as "Bearer <token>", lets the new user read their
      own profile at `/users/<id>`. */
  lemma SignUpThenProfile(db: Store.Db, env: Env, email: string, password: string)
    requires Store.Valid(db) && RoundTrips(env.signer) && Compact(env.signer)
    requires env.registerSchema(Credentials(email, password)) == []
    requires email != "" && Tables.Lookup(db.users.rows, Users.Email, email).None?
    requires db.users.nextId <= Text.PgIntMax
    ensures var r1 := Serve(Request(Post, ["auth", "register"], None, Credentials(email, password), map[]), db, env);
            && r1.response.status == 201 && r1.response.body.TokenBody?
            && var id := Users.Register(db.users, env.hasher, email, password, env.now).result.value.id;
               && 0 < id
               && Serve(Request(Get, ["users", Text.NatToString(id)], Some("Bearer " + r1.response.body.token), map[], map[]), r1.db, env).response
                  == Response(200, ProfileBody(Users.Profile(id, email, env.now)))
  {
    var o := Users.Register(db.users, env.hasher, email, password, env.now);
    var a := o.result.value;
    RegisterStep(db, env, email, password);
    var r1 := Serve(Request(Post, ["auth", "register"], None, Credentials(email, password), map[]), db, env);
    ProfileStep(r1.db, env, Users.User(a.id, email, env.hasher.hash(password), env.now), env.now);
  }

  lemma RegisterStep(db: Store.Db, env: Env, email: string, password: string)
    requires Store.Valid(db)
    requires env.registerSchema(Credentials(email, password)) == []
    requires email != "" && Tables.Lookup(db.users.rows, Users.Email, email).None?
    requires db.users.nextId <= Text.PgIntMax
    ensures var o := Users.Register(db.users, env.hasher, email, password, env.now);
            && o.result.Ok?
            && var a := o.result.value;
               && 0 < a.id <= Text.PgIntMax
               && var r1 := Serve(Request(Post, ["auth", "register"], None, Credentials(email, password), map[]), db, env);
                  && Store.Valid(r1.db)
                  && r1.response == Response(201, TokenBody(env.signer.sign(Payload(a.id, email), env.now)))
                  && Tables.Lookup(r1.db.users.rows, Users.Id, a.id) == Some(Users.User(a.id, email, env.hasher.hash(password), env.now))
  {
    var body := Credentials(email, password);
    var o := Users.Register(db.users, env.hasher, email, password, env.now);
    var a := o.result.value;
    assert UserRoutes.RegisterFromBody(body, env.hasher, env.now, db.users) == o;
    assert Tables.Lookup(o.state.rows, Users.Id, a.id).value in o.state.rows;
    var req := Request(Post, ["auth", "register"], None, body, map[]);
    LineReachesRoute(AuthRegister);
    assert Serve(req, db, env) == AuthRoutes.Register(body, env.registerSchema, env.hasher, env.signer, env.now, db);
  }

  lemma ProfileStep(db: Store.Db, env: Env, u: Users.User, iat: int)
    requires Store.Valid(db) && RoundTrips(env.signer) && Compact(env.signer)
    requires 0 < u.id <= Text.PgIntMax && Tables.Lookup(db.users.rows, Users.Id, u.id) == Some(u)
    ensures var token := env.signer.sign(Payload(u.id, u.email), iat);
            Serve(Request(Get, ["users", Text.NatToString(u.id)], Some("Bearer " + token), map[], map[]), db, env).response
            == Response(200, ProfileBody(Users.ProfileOf(u)))
  {
    var token := env.signer.sign(Payload(u.id, u.email), iat);
    var s := Text.NatToString(u.id);
    var req := Request(Get, ["users", s], Some("Bearer " + token), map[], map[]);
    Text.ToNumberNatToString(u.id);
    AuthenticateIssuedToken(env.signer, Payload(u.id, u.email), iat, None);
    var user := Some(Claims(u.id, u.email, false, iat, None));
    assert AuthenticateJwt(req.authorization, None, env.signer.verify).user == user;
    LineReachesRoute(UserGet(s));
    assert Serve(req, db, env) == Handle(UserGet(s), user, req.body, req.query, db, env);
    assert Handle(UserGet(s), user, req.body, req.query, db, env) == UserRoutes.Get(user, s, db);
    UserRoutes.GetOwnProfile(user.value, s, u, db);
  }
}
