/** `backend/routes/users.js`, mounted at `/users`: open registration and
    login, and `GET`, `PATCH`, `DELETE /:userId` behind `ensureCorrectUser`. */
module UserRoutes {
  import opened Common
  import opened Http
  import opened AuthMiddleware
  import opened Crypto
  import Text
  import Store
  import Tables
  import Users

  /** `User.register(req.body)`: the address is bound as text; the
      duplicate check comes first, then hashing, which throws for a
      password that is not a string, then the insert, which rejects a NULL
      address. */
  function RegisterFromBody(body: Fields, h: Hasher, now: int, users: Users.Table): (r: Outcome<Users.Account, Users.Table>)
    requires Users.Valid(users)
    ensures Users.Valid(r.state)
    ensures r.result.Err? ==> r.state == users
    ensures TextParam(Prop(body, "email")).Value? && Tables.Lookup(users.rows, Users.Email, TextParam(Prop(body, "email")).value).Some?
            ==> r.result == Err(BadRequest([]))
    ensures Prop(body, "email").Some? && Prop(body, "email").value.Str? && Prop(body, "password").Some? && Prop(body, "password").value.Str?
            ==> r == Users.Register(users, h, Prop(body, "email").value.s, Prop(body, "password").value.s, now)
    ensures r.result.Ok? ==>
              && TextParam(Prop(body, "email")).Value? && Prop(body, "password").Some? && Prop(body, "password").value.Str?
              && r == Users.Register(users, h, TextParam(Prop(body, "email")).value, Prop(body, "password").value.s, now)
  {
    match TextParam(Prop(body, "email"))
    case Value(email) =>
      if Tables.Lookup(users.rows, Users.Email, email).Some? then Outcome(Err(BadRequest([])), users)
      else
        (match Prop(body, "password")
         case Some(Str(p)) => Users.Register(users, h, email, p, now)
         case _ => Outcome(Err(Unexpected), users))
    case _ => Outcome(Err(Unexpected), users)
  }

  /** `User.authenticate(email, password)` on body values: no row can match
      a NULL address; a matching row with a password that is not a string
      makes the comparison throw. */
  function AuthenticateFromBody(body: Fields, h: Hasher, users: Users.Table): (r: Result<Users.Account>)
    requires Users.Valid(users)
    ensures Prop(body, "email").Some? && Prop(body, "email").value.Str? && Prop(body, "password").Some? && Prop(body, "password").value.Str?
            ==> r == Users.Authenticate(users, h, Prop(body, "email").value.s, Prop(body, "password").value.s)
    ensures r.Ok? ==> exists u :: u in users.rows && u.id == r.value.id && u.email == r.value.email
  {
    match TextParam(Prop(body, "email"))
    case Value(email) =>
      (match Prop(body, "password")
       case Some(Str(p)) =>
         var a := Users.Authenticate(users, h, email, p);
         assert a.Ok? ==> Tables.Lookup(users.rows, Users.Id, a.value.id).value in users.rows;
         a
       case _ => if Tables.Lookup(users.rows, Users.Email, email).Some? then Err(Unexpected) else Err(Unauthorized))
    case _ => Err(Unauthorized)
  }

  /** `POST /register`: 400 with the schema's error stacks, 400 for an
      address in use, 201 with `{ id, email }` of the new user. */
  function Register(body: Fields, schema: Schema, h: Hasher, now: int, db: Store.Db): (r: Reply)
    requires Users.Valid(db.users)
    ensures Users.Valid(r.db.users) && r.db == db.(users := r.db.users)
    ensures r.response.status != 201 ==> r.db == db
    ensures schema(body) != [] ==> r.response == ErrorResponse(BadRequest(Stacks(schema(body))))
    ensures schema(body) == [] && TextParam(Prop(body, "email")).Value?
            && Tables.Lookup(db.users.rows, Users.Email, TextParam(Prop(body, "email")).value).Some? ==>
              r.response == ErrorResponse(BadRequest([])) && r.db == db
    ensures schema(body) == [] && RegisterFromBody(body, h, now, db.users).result.Ok? ==>
              r.response == Response(201, AccountBody(RegisterFromBody(body, h, now, db.users).result.value))
    ensures r.response.status == 201 ==>
              && schema(body) == [] && r.response.body.AccountBody?
              && var a := r.response.body.account;
                 && TextParam(Prop(body, "email")) == Value(a.email)
                 && Prop(body, "password").Some? && Prop(body, "password").value.Str?
                 && Tables.Lookup(db.users.rows, Users.Id, a.id).None?
                 && Tables.Lookup(r.db.users.rows, Users.Id, a.id) == Some(Users.User(a.id, a.email, h.hash(Prop(body, "password").value.s), now))
  {
    if schema(body) != [] then Reply(ErrorResponse(BadRequest(Stacks(schema(body)))), db)
    else
      var o := RegisterFromBody(body, h, now, db.users);
      Reply(Respond(o.result, 201, (a: Users.Account) => AccountBody(a)), db.(users := o.state))
  }

  /** `POST /login`: 400 unless both `email` and `password` are truthy;
      otherwise 200 with `{ id, email }` or 401. */
  function Login(body: Fields, h: Hasher, db: Store.Db): (r: Reply)
    requires Users.Valid(db.users)
    ensures r.db == db
    ensures !Truthy(Prop(body, "email")) || !Truthy(Prop(body, "password")) ==> r.response == ErrorResponse(BadRequest([]))
    ensures Truthy(Prop(body, "email")) && Prop(body, "email").value.Str? && Truthy(Prop(body, "password")) && Prop(body, "password").value.Str? ==>
              (r.response.status == 200 <==>
               exists u :: u in db.users.rows && u.email == Prop(body, "email").value.s && h.compare(Prop(body, "password").value.s, u.passwordHash))
    ensures r.response.status == 200 ==>
              r.response.body.AccountBody? && exists u :: u in db.users.rows && Users.Account(u.id, u.email) == r.response.body.account
  {
    if !Truthy(Prop(body, "email")) || !Truthy(Prop(body, "password")) then Reply(ErrorResponse(BadRequest([])), db)
    else Reply(Respond(AuthenticateFromBody(body, h, db.users), 200, (a: Users.Account) => AccountBody(a)), db)
  }

  /** `get` on the cast id, answered as the route answers. */
  function GetStep(uid: int, db: Store.Db): (r: Reply)
    ensures r.db == db
    ensures r.response.status == 200 || r.response.status == 404
    ensures r.response.status == 404 <==> forall u :: u in db.users.rows ==> u.id != uid
    ensures r.response.status == 200 ==>
              && r.response.body.ProfileBody?
              && exists u :: u in db.users.rows && u.id == uid && r.response.body.profile == Users.ProfileOf(u)
  {
    Reply(Respond(Users.Get(db.users, uid), 200, (p: Users.Profile) => ProfileBody(p)), db)
  }

  /** `GET /:userId`: the caller's own `{ id, email, created_at }`. */
  function Get(user: Option<Claims>, userId: string, db: Store.Db): (r: Reply)
    ensures r.db == db
    ensures EnsureCorrectUser(user, userId) != Continue ==> r.response == ErrorResponse(Unauthorized)
    ensures EnsureCorrectUser(user, userId) == Continue && Text.PgToInt(userId).Some? ==>
              (r.response.status == 404 <==> forall u :: u in db.users.rows ==> u.id != user.value.id)
    ensures r.response.status == 200 ==>
              && user.Some? && r.response.body.ProfileBody?
              && exists u :: u in db.users.rows && u.id == user.value.id && r.response.body.profile == Users.ProfileOf(u)
  {
    if EnsureCorrectUser(user, userId) != Continue then Reply(ErrorResponse(Unauthorized), db)
    else
      match PathInt(userId)
      case Err(e) => Reply(ErrorResponse(e), db)
      case Ok(uid) =>
        GuardedParam(user, userId);
        GetStep(uid, db)
  }

  /** The `data` argument of `update`: the body's key count and its
      `email` bound as text. */
  function UpdateDataOf(body: Fields): Users.UpdateData
  {
    Users.UpdateData(|body|, match TextParam(Prop(body, "email")) case Value(e) => Some(e) case _ => None)
  }

  /** `update` on a nonempty body and the cast id, answered as the route
      answers. */
  function UpdateStep(uid: int, data: Users.UpdateData, db: Store.Db): (r: Reply)
    requires Users.Valid(db.users) && data.keyCount > 0
    ensures Users.Valid(r.db.users) && r.db == db.(users := r.db.users)
    ensures r.response.status != 200 ==> r.db == db
    ensures r.response.status == 404 <==> Tables.Lookup(db.users.rows, Users.Id, uid).None?
    ensures r.response.status == 200 <==>
              && data.email.Some? && Tables.Lookup(db.users.rows, Users.Id, uid).Some?
              && forall u :: u in db.users.rows && u.email == data.email.value ==> u.id == uid
    ensures r.response.status == 200 ==>
              && r.response == Response(200, AccountBody(Users.Account(uid, data.email.value)))
              && Tables.Lookup(r.db.users.rows, Users.Id, uid)
                 == Some(Tables.Lookup(db.users.rows, Users.Id, uid).value.(email := data.email.value))
    ensures forall k :: k != uid ==> Tables.Lookup(r.db.users.rows, Users.Id, k) == Tables.Lookup(db.users.rows, Users.Id, k)
  {
    var o := Users.Update(db.users, uid, Some(data));
    Reply(Respond(o.result, 200, (a: Users.Account) => AccountBody(a)), db.(users := o.state))
  }

  /** `PATCH /:userId`: 400 with the schema's error stacks before `update`
      runs; otherwise `update`, 200 with `{ id, email }`.  `update` rejects
      an empty body before its query casts the id. */
  function Update(user: Option<Claims>, userId: string, body: Fields, schema: Schema, db: Store.Db): (r: Reply)
    requires Users.Valid(db.users)
    ensures Users.Valid(r.db.users) && r.db == db.(users := r.db.users)
    ensures r.response.status != 200 ==> r.db == db
    ensures EnsureCorrectUser(user, userId) != Continue ==> r.response == ErrorResponse(Unauthorized)
    ensures EnsureCorrectUser(user, userId) == Continue && schema(body) != [] ==>
              r.response == ErrorResponse(BadRequest(Stacks(schema(body))))
    ensures EnsureCorrectUser(user, userId) == Continue && schema(body) == [] && Text.PgToInt(userId).Some? && |body| > 0 ==>
              (r.response.status == 404 <==> Tables.Lookup(db.users.rows, Users.Id, user.value.id).None?)
    ensures r.response.status == 200 ==>
              && user.Some? && "email" in body && TextParam(Prop(body, "email")).Value?
              && var email := TextParam(Prop(body, "email")).value;
                 && r.response.body == AccountBody(Users.Account(user.value.id, email))
                 && Tables.Lookup(db.users.rows, Users.Id, user.value.id).Some?
                 && Tables.Lookup(r.db.users.rows, Users.Id, user.value.id)
                    == Some(Tables.Lookup(db.users.rows, Users.Id, user.value.id).value.(email := email))
                 && forall k :: k != user.value.id ==>
                      Tables.Lookup(r.db.users.rows, Users.Id, k) == Tables.Lookup(db.users.rows, Users.Id, k)
    ensures EnsureCorrectUser(user, userId) == Continue && schema(body) == [] && |body| == 0 ==>
              r.response == ErrorResponse(BadRequest([]))
    ensures && EnsureCorrectUser(user, userId) == Continue && schema(body) == [] && Text.PgToInt(userId).Some? && |body| > 0
            && TextParam(Prop(body, "email")).Value?
            && Tables.Lookup(db.users.rows, Users.Id, user.value.id).Some?
            && (forall u :: u in db.users.rows && u.email == TextParam(Prop(body, "email")).value ==> u.id == user.value.id) ==>
              r.response == Response(200, AccountBody(Users.Account(user.value.id, TextParam(Prop(body, "email")).value)))
  {
    if EnsureCorrectUser(user, userId) != Continue then Reply(ErrorResponse(Unauthorized), db)
    else if schema(body) != [] then Reply(ErrorResponse(BadRequest(Stacks(schema(body)))), db)
    else if |body| == 0 then Reply(ErrorResponse(BadRequest([])), db)
    else
      match PathInt(userId)
      case Err(e) => Reply(ErrorResponse(e), db)
      case Ok(uid) =>
        GuardedParam(user, userId);
        UpdateStep(uid, UpdateDataOf(body), db)
  }

  /** `DELETE /:userId`: 200 with `{ deleted: userId }`, the path string. */
  function Remove(user: Option<Claims>, userId: string, db: Store.Db): (r: Reply)
    requires Users.Valid(db.users)
    ensures Users.Valid(r.db.users) && r.db == db.(users := r.db.users)
    ensures r.response.status != 200 ==> r.db == db
    ensures EnsureCorrectUser(user, userId) != Continue ==> r.response == ErrorResponse(Unauthorized)
    ensures EnsureCorrectUser(user, userId) == Continue && Text.PgToInt(userId).Some? ==>
              (r.response.status == 404 <==> forall u :: u in db.users.rows ==> u.id != user.value.id)
    ensures r.response.status == 200 ==>
              && r.response.body == DeletedBody(userId)
              && user.Some? && (forall u :: u in r.db.users.rows ==> u.id != user.value.id)
              && forall k :: k != user.value.id ==>
                   Tables.Lookup(r.db.users.rows, Users.Id, k) == Tables.Lookup(db.users.rows, Users.Id, k)
    ensures EnsureCorrectUser(user, userId) == Continue && Text.PgToInt(userId).Some?
            && (exists u :: u in db.users.rows && u.id == user.value.id) ==>
              r.response == Response(200, DeletedBody(userId))
  {
    if EnsureCorrectUser(user, userId) != Continue then Reply(ErrorResponse(Unauthorized), db)
    else
      match PathInt(userId)
      case Err(e) => Reply(ErrorResponse(e), db)
      case Ok(uid) =>
        GuardedParam(user, userId);
        var o := Users.Remove(db.users, uid);
        Reply(Respond(o.result, 200, (_: ()) => DeletedBody(userId)), db.(users := o.state))
  }

  /** After a user deletes their account, a `GET` with the same identity
      and path is 404. */
  lemma RemoveThenGet(user: Option<Claims>, userId: string, db: Store.Db)
    requires Users.Valid(db.users)
    requires Remove(user, userId, db).response.status == 200
    ensures Get(user, userId, Remove(user, userId, db).db).response.status == 404
  {
  }

  /** A signed-in user whose id the path names reads exactly their own row. */
  lemma GetOwnProfile(c: Claims, userId: string, u: Users.User, db: Store.Db)
    requires Text.JsToNumber(userId) == Some(c.id) && Text.PgToInt(userId) == Some(c.id)
    requires Tables.Lookup(db.users.rows, Users.Id, c.id) == Some(u)
    ensures Get(Some(c), userId, db).response == Response(200, ProfileBody(Users.ProfileOf(u)))
  {
  }
}
