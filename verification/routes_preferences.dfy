/** `backend/routes/usersPreferences.js`, mounted at `/preferences`: four
    routes on `/:userId/preferences[/:itemId]`, each behind
    `ensureCorrectUser`.  A guard failure answers 401 before the model is
    reached, so the database is untouched. */
module PreferenceRoutes {
  import opened Common
  import opened Http
  import opened AuthMiddleware
  import opened Crypto
  import Text
  import Store
  import Tables
  import Preferences

  /** The preference row for the path's user and the given item. */
  function KeyFor(userId: string, itemId: int): (int, int)
    requires Text.PgToInt(userId).Some?
  {
    (Text.PgToInt(userId).value, itemId)
  }

  /** `GET /:userId/preferences`: the caller's own preferences, possibly none. */
  function List(user: Option<Claims>, userId: string, db: Store.Db): (r: Reply)
    ensures r.db == db
    ensures EnsureCorrectUser(user, userId) != Continue ==> r.response == ErrorResponse(Unauthorized)
    ensures EnsureCorrectUser(user, userId) == Continue ==> (r.response.status == 200 <==> Text.PgToInt(userId).Some?)
    ensures r.response.status == 200 ==>
              && user.Some? && r.response.body.PreferencesBody?
              && (forall p :: p in r.response.body.preferences <==> p in db.preferences && p.userId == user.value.id)
              && forall p :: multiset(r.response.body.preferences)[p] ==
                   if p.userId == user.value.id then multiset(db.preferences)[p] else 0
  {
    if EnsureCorrectUser(user, userId) != Continue then Reply(ErrorResponse(Unauthorized), db)
    else
      match PathInt(userId)
      case Err(e) => Reply(ErrorResponse(e), db)
      case Ok(uid) =>
        GuardedParam(user, userId);
        Reply(Response(200, PreferencesBody(Preferences.FindAll(db.preferences, uid))), db)
  }

  /** The `notify` property handed to `add`: left out, or given. */
  function NotifyArgOf(body: Fields): Result<Preferences.NotifyArg>
  {
    if "notify" !in body then Ok(Preferences.Omitted)
    else
      match BoolParam(Some(body["notify"]))
      case SqlNull => Ok(Preferences.Given(None))
      case Value(b) => Ok(Preferences.Given(Some(b)))
      case Invalid => Err(Unexpected)
  }

  /** The item id of a `POST`, read as an integer. */
  function ItemArg(body: Fields): Result<int>
  {
    match IntParam(Prop(body, "trackedItemId"))
    case Value(n) => Ok(n)
    case _ => Err(Unexpected)
  }

  /** `POST /:userId/preferences` with `{ trackedItemId, notify }`: a falsy
      `trackedItemId` is 400 before the model runs; otherwise `add`, 201 with
      the new row, or 400 for a pair already present. */
  function Create(user: Option<Claims>, userId: string, body: Fields, db: Store.Db): (r: Reply)
    requires Preferences.Valid(db.preferences)
    ensures Preferences.Valid(r.db.preferences) && r.db == db.(preferences := r.db.preferences)
    ensures r.response.status != 201 ==> r.db == db
    ensures EnsureCorrectUser(user, userId) != Continue ==> r.response == ErrorResponse(Unauthorized)
    ensures EnsureCorrectUser(user, userId) == Continue && !Truthy(Prop(body, "trackedItemId")) ==>
              r.response == ErrorResponse(BadRequest([]))
    ensures r.response.status == 201 <==>
              && EnsureCorrectUser(user, userId) == Continue && Truthy(Prop(body, "trackedItemId"))
              && Text.PgToInt(userId).Some? && ItemArg(body).Ok? && NotifyArgOf(body).Ok?
              && Tables.Lookup(db.preferences, Preferences.Key, KeyFor(userId, ItemArg(body).value)).None?
    ensures r.response.status == 201 ==>
              && user.Some? && r.response.body.PreferenceBody?
              && var p := r.response.body.preference;
                 && p.userId == user.value.id && p.trackedItemId == ItemArg(body).value
                 && ("notify" !in body ==> p.notify == Some(true))
                 && (NotifyArgOf(body).Ok? && NotifyArgOf(body).value.Given? ==> p.notify == NotifyArgOf(body).value.value)
                 && Tables.Lookup(r.db.preferences, Preferences.Key, Preferences.Key(p)) == Some(p)
                 && forall k :: k != Preferences.Key(p) ==>
                      Tables.Lookup(r.db.preferences, Preferences.Key, k) == Tables.Lookup(db.preferences, Preferences.Key, k)
    ensures && EnsureCorrectUser(user, userId) == Continue && Truthy(Prop(body, "trackedItemId"))
            && Text.PgToInt(userId).Some? && ItemArg(body).Ok? && NotifyArgOf(body).Ok?
            && Tables.Lookup(db.preferences, Preferences.Key, KeyFor(userId, ItemArg(body).value)).Some? ==>
              r.response == ErrorResponse(BadRequest([])) && r.db == db
  {
    if EnsureCorrectUser(user, userId) != Continue then Reply(ErrorResponse(Unauthorized), db)
    else if !Truthy(Prop(body, "trackedItemId")) then Reply(ErrorResponse(BadRequest([])), db)
    else
      match (PathInt(userId), ItemArg(body), NotifyArgOf(body))
      case (Ok(uid), Ok(item), Ok(notify)) =>
        GuardedParam(user, userId);
        var o := Preferences.Add(db.preferences, uid, item, notify);
        Reply(Respond(o.result, 201, (p: Preferences.Preference) => PreferenceBody(p)), db.(preferences := o.state))
      case _ => Reply(ErrorResponse(Unexpected), db)
  }

  /** The `notify` value a `PATCH` writes: a JSON boolean, or NULL when the
      property is absent or null. */
  function NotifyValue(body: Fields): Option<bool>
  {
    match BoolParam(Prop(body, "notify")) case Value(b) => Some(b) case _ => None
  }

  /** `updateNotify` on the cast parameters, answered as the route answers. */
  function UpdateStep(uid: int, item: int, notify: Option<bool>, db: Store.Db): (r: Reply)
    requires Preferences.Valid(db.preferences)
    ensures Preferences.Valid(r.db.preferences) && r.db == db.(preferences := r.db.preferences)
    ensures r.response.status != 200 ==> r.db == db
    ensures r.response.status == 404 <==> Tables.Lookup(db.preferences, Preferences.Key, (uid, item)).None?
    ensures Tables.Lookup(db.preferences, Preferences.Key, (uid, item)).Some? ==>
              var p := Tables.Lookup(db.preferences, Preferences.Key, (uid, item)).value.(notify := notify);
              && r.response == Response(200, PreferenceBody(p))
              && Tables.Lookup(r.db.preferences, Preferences.Key, (uid, item)) == Some(p)
    ensures forall k :: k != (uid, item) ==>
              Tables.Lookup(r.db.preferences, Preferences.Key, k) == Tables.Lookup(db.preferences, Preferences.Key, k)
  {
    var o := Preferences.UpdateNotify(db.preferences, uid, item, notify);
    Reply(Respond(o.result, 200, (p: Preferences.Preference) => PreferenceBody(p)), db.(preferences := o.state))
  }

  /** `PATCH /:userId/preferences/:itemId` with `{ notify }`: 200 with the
      updated row, 404 for a pair not present. */
  function Update(user: Option<Claims>, userId: string, itemId: string, body: Fields, db: Store.Db): (r: Reply)
    requires Preferences.Valid(db.preferences)
    ensures Preferences.Valid(r.db.preferences) && r.db == db.(preferences := r.db.preferences)
    ensures r.response.status != 200 ==> r.db == db
    ensures EnsureCorrectUser(user, userId) != Continue ==> r.response == ErrorResponse(Unauthorized)
    ensures EnsureCorrectUser(user, userId) == Continue && Text.PgToInt(userId).Some? && Text.PgToInt(itemId).Some?
            && BoolParam(Prop(body, "notify")) != Invalid ==>
              (r.response.status == 404 <==>
               Tables.Lookup(db.preferences, Preferences.Key, KeyFor(userId, Text.PgToInt(itemId).value)).None?)
    ensures r.response.status == 200 ==>
              && user.Some? && Text.PgToInt(itemId).Some? && r.response.body.PreferenceBody?
              && var p := r.response.body.preference;
                 && p.userId == user.value.id && p.trackedItemId == Text.PgToInt(itemId).value
                 && p.notify == NotifyValue(body)
                 && Tables.Lookup(r.db.preferences, Preferences.Key, Preferences.Key(p)) == Some(p)
                 && forall k :: k != Preferences.Key(p) ==>
                      Tables.Lookup(r.db.preferences, Preferences.Key, k) == Tables.Lookup(db.preferences, Preferences.Key, k)
    ensures && EnsureCorrectUser(user, userId) == Continue && Text.PgToInt(userId).Some? && Text.PgToInt(itemId).Some?
            && BoolParam(Prop(body, "notify")) != Invalid
            && Tables.Lookup(db.preferences, Preferences.Key, KeyFor(userId, Text.PgToInt(itemId).value)).Some? ==>
              r.response == Response(200, PreferenceBody(
                Tables.Lookup(db.preferences, Preferences.Key, KeyFor(userId, Text.PgToInt(itemId).value)).value
                  .(notify := NotifyValue(body))))
  {
    if EnsureCorrectUser(user, userId) != Continue then Reply(ErrorResponse(Unauthorized), db)
    else if BoolParam(Prop(body, "notify")) == Invalid then Reply(ErrorResponse(Unexpected), db)
    else
      match (PathInt(userId), PathInt(itemId))
      case (Ok(uid), Ok(item)) =>
        GuardedParam(user, userId);
        UpdateStep(uid, item, NotifyValue(body), db)
      case _ => Reply(ErrorResponse(Unexpected), db)
  }

  /** `remove` on the cast ids, answered as the route answers with the
      path strings echoed. */
  function RemoveStep(uid: int, item: int, userId: string, itemId: string, db: Store.Db): (r: Reply)
    requires Preferences.Valid(db.preferences)
    ensures Preferences.Valid(r.db.preferences) && r.db == db.(preferences := r.db.preferences)
    ensures r.response.status != 200 ==> r.db == db
    ensures r.response.status == 404 <==> Tables.Lookup(db.preferences, Preferences.Key, (uid, item)).None?
    ensures Tables.Lookup(db.preferences, Preferences.Key, (uid, item)).Some? ==>
              r.response == Response(200, DeletedPreferenceBody(userId, itemId))
    ensures r.response.status == 200 ==>
              && r.response.body == DeletedPreferenceBody(userId, itemId)
              && Tables.Lookup(r.db.preferences, Preferences.Key, (uid, item)).None?
    ensures forall k :: k != (uid, item) ==>
              Tables.Lookup(r.db.preferences, Preferences.Key, k) == Tables.Lookup(db.preferences, Preferences.Key, k)
  {
    var o := Preferences.Remove(db.preferences, uid, item);
    Reply(Respond(o.result, 200, (_: Preferences.Deleted) => DeletedPreferenceBody(userId, itemId)), db.(preferences := o.state))
  }

  /** `DELETE /:userId/preferences/:itemId`: 200 with
      `{ deleted: { userId, trackedItemId } }` echoing the path strings, 404
      for a pair not present. */
  function Remove(user: Option<Claims>, userId: string, itemId: string, db: Store.Db): (r: Reply)
    requires Preferences.Valid(db.preferences)
    ensures Preferences.Valid(r.db.preferences) && r.db == db.(preferences := r.db.preferences)
    ensures r.response.status != 200 ==> r.db == db
    ensures EnsureCorrectUser(user, userId) != Continue ==> r.response == ErrorResponse(Unauthorized)
    ensures EnsureCorrectUser(user, userId) == Continue && Text.PgToInt(userId).Some? && Text.PgToInt(itemId).Some? ==>
              (r.response.status == 404 <==>
               Tables.Lookup(db.preferences, Preferences.Key, KeyFor(userId, Text.PgToInt(itemId).value)).None?)
    ensures r.response.status == 200 ==>
              && r.response.body == DeletedPreferenceBody(userId, itemId)
              && user.Some? && Text.PgToInt(itemId).Some?
              && Tables.Lookup(r.db.preferences, Preferences.Key, (user.value.id, Text.PgToInt(itemId).value)).None?
              && forall k :: k != (user.value.id, Text.PgToInt(itemId).value) ==>
                   Tables.Lookup(r.db.preferences, Preferences.Key, k) == Tables.Lookup(db.preferences, Preferences.Key, k)
    ensures && EnsureCorrectUser(user, userId) == Continue && Text.PgToInt(userId).Some? && Text.PgToInt(itemId).Some?
            && Tables.Lookup(db.preferences, Preferences.Key, KeyFor(userId, Text.PgToInt(itemId).value)).Some? ==>
              r.response == Response(200, DeletedPreferenceBody(userId, itemId))
  {
    if EnsureCorrectUser(user, userId) != Continue then Reply(ErrorResponse(Unauthorized), db)
    else
      match (PathInt(userId), PathInt(itemId))
      case (Ok(uid), Ok(item)) =>
        GuardedParam(user, userId);
        RemoveStep(uid, item, userId, itemId, db)
      case _ => Reply(ErrorResponse(Unexpected), db)
  }
}
