/** `backend/routes/auth.js`, mounted at `/auth`: token issue for existing
    users and registration that answers with a token.  The rate limiter in
    front of `/token` is not part of this model. */
module AuthRoutes {
  import opened Common
  import opened Http
  import opened Crypto
  import Text
  import Store
  import Tables
  import Users
  import Tokens
  import UserRoutes

  /** `e.property.replace(/^instance\./, "")`: one leading "instance." goes. */
  function StripInstance(p: string): (r: string)
    ensures Text.StartsWith(p, "instance.") ==> |p| >= 9 && r == p[9..]
    ensures !Text.StartsWith(p, "instance.") ==> r == p
  {
    if Text.StartsWith(p, "instance.") then p[9..] else p
  }

  /** The messages of a failed `/token` validation: the property path without
      its "instance." prefix, a space, then the error's message. */
  function TokenMessages(errs: seq<SchemaError>): (r: seq<string>)
    ensures |r| == |errs|
    ensures forall i :: 0 <= i < |errs| ==> r[i] == StripInstance(errs[i].property) + " " + errs[i].message
  {
    seq(|errs|, i requires 0 <= i < |errs| => StripInstance(errs[i].property) + " " + errs[i].message)
  }

  /** A nested property loses only the first "instance."; the bare root
      path "instance" keeps its name. */
  lemma TokenMessageForms(m: string)
    ensures TokenMessages([SchemaError("instance.email", m, "")]) == ["email " + m]
    ensures TokenMessages([SchemaError("instance", m, "")]) == ["instance " + m]
    ensures TokenMessages([SchemaError("instance.instance.x", m, "")]) == ["instance.x " + m]
  {
    assert Text.StartsWith("instance.email", "instance.");
    assert !Text.StartsWith("instance", "instance.");
    assert Text.StartsWith("instance.instance.x", "instance.");
    assert "instance.email"[9..] == "email";
    assert "instance.instance.x"[9..] == "instance.x";
    var a := TokenMessages([SchemaError("instance.email", m, "")]);
    var b := TokenMessages([SchemaError("instance", m, "")]);
    var c := TokenMessages([SchemaError("instance.instance.x", m, "")]);
    assert "email" + " " == "email " && "instance" + " " == "instance " && "instance.x" + " " == "instance.x ";
    assert |a| == 1 && a[0] == "email " + m;
    assert |b| == 1 && b[0] == "instance " + m;
    assert |c| == 1 && c[0] == "instance.x " + m;
  }

  /** `createToken` of an `{ id, email }` returned by the user model. */
  function TokenFor(a: Users.Account, signer: Signer, now: int): (r: Result<string>)
    ensures r.Ok? <==> a.id != 0 && a.email != ""
    ensures r.Ok? ==> r.value == signer.sign(Payload(a.id, a.email), now)
    ensures r.Err? ==> r.error == Unexpected
  {
    Tokens.CreateToken(Tokens.UserFields(Some(a.id), Some(a.email), []), signer, now)
  }

  /** `POST /token`: 400 with the reformatted schema messages; otherwise
      `authenticate`, 401 for bad credentials, 200 with the signed token. */
  function Token(body: Fields, schema: Schema, h: Hasher, signer: Signer, now: int, db: Store.Db): (r: Reply)
    requires Users.Valid(db.users)
    ensures r.db == db
    ensures schema(body) != [] ==> r.response == ErrorResponse(BadRequest(TokenMessages(schema(body))))
    ensures schema(body) == [] && UserRoutes.AuthenticateFromBody(body, h, db.users).Err? ==>
              r.response == ErrorResponse(UserRoutes.AuthenticateFromBody(body, h, db.users).error)
    ensures schema(body) == [] && UserRoutes.AuthenticateFromBody(body, h, db.users).Ok? ==>
              var a := UserRoutes.AuthenticateFromBody(body, h, db.users).value;
              a.id != 0 && a.email != "" ==> r.response == Response(200, TokenBody(signer.sign(Payload(a.id, a.email), now)))
    ensures r.response.status == 200 ==>
              && schema(body) == [] && UserRoutes.AuthenticateFromBody(body, h, db.users).Ok?
              && var a := UserRoutes.AuthenticateFromBody(body, h, db.users).value;
                 && (exists u :: u in db.users.rows && u.id == a.id && u.email == a.email)
                 && r.response.body == TokenBody(signer.sign(Payload(a.id, a.email), now))
  {
    if schema(body) != [] then Reply(ErrorResponse(BadRequest(TokenMessages(schema(body)))), db)
    else
      match UserRoutes.AuthenticateFromBody(body, h, db.users)
      case Err(e) => Reply(ErrorResponse(e), db)
      case Ok(a) => Reply(Respond(TokenFor(a, signer, now), 200, (t: string) => TokenBody(t)), db)
  }

  /** `POST /register`: 400 with the schema's error stacks or for an address
      in use; otherwise 201 with a token for the new account.  The insert
      is not undone if signing then fails. */
  function Register(body: Fields, schema: Schema, h: Hasher, signer: Signer, now: int, db: Store.Db): (r: Reply)
    requires Users.Valid(db.users)
    ensures Users.Valid(r.db.users) && r.db == db.(users := r.db.users)
    ensures schema(body) != [] ==> r.response == ErrorResponse(BadRequest(Stacks(schema(body)))) && r.db == db
    ensures r.db != db ==> schema(body) == [] && UserRoutes.RegisterFromBody(body, h, now, db.users).result.Ok?
    ensures schema(body) == [] && TextParam(Prop(body, "email")).Value?
            && Tables.Lookup(db.users.rows, Users.Email, TextParam(Prop(body, "email")).value).Some? ==>
              r.response == ErrorResponse(BadRequest([])) && r.db == db
    ensures schema(body) == [] && UserRoutes.RegisterFromBody(body, h, now, db.users).result.Ok? ==>
              var a := UserRoutes.RegisterFromBody(body, h, now, db.users).result.value;
              && r.db == db.(users := UserRoutes.RegisterFromBody(body, h, now, db.users).state)
              && (a.email != "" ==> r.response == Response(201, TokenBody(signer.sign(Payload(a.id, a.email), now))))
              && (a.email == "" ==> r.response == ErrorResponse(Unexpected))
    ensures r.response.status == 201 ==>
              && schema(body) == [] && UserRoutes.RegisterFromBody(body, h, now, db.users).result.Ok?
              && var a := UserRoutes.RegisterFromBody(body, h, now, db.users).result.value;
                 && Tables.Lookup(db.users.rows, Users.Id, a.id).None?
                 && Tables.Lookup(r.db.users.rows, Users.Id, a.id).Some?
                 && r.response.body == TokenBody(signer.sign(Payload(a.id, a.email), now))
  {
    if schema(body) != [] then Reply(ErrorResponse(BadRequest(Stacks(schema(body)))), db)
    else
      var o := UserRoutes.RegisterFromBody(body, h, now, db.users);
      var db1 := db.(users := o.state);
      match o.result
      case Err(e) => Reply(ErrorResponse(e), db1)
      case Ok(a) => Reply(Respond(TokenFor(a, signer, now), 201, (t: string) => TokenBody(t)), db1)
  }

  /** The token `/token` issues verifies to the authenticated user's id and
      e-mail, with no admin flag and no expiry. */
  lemma TokenVerifies(body: Fields, schema: Schema, h: Hasher, signer: Signer, now: int, db: Store.Db)
    requires Users.Valid(db.users) && RoundTrips(signer)
    requires Token(body, schema, h, signer, now, db).response.status == 200
    ensures var a := UserRoutes.AuthenticateFromBody(body, h, db.users).value;
            signer.verify(Token(body, schema, h, signer, now, db).response.body.token)
            == Some(Claims(a.id, a.email, false, now, None))
  {
  }
}
