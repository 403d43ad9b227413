/** `backend/routes/userNotifications.js`, mounted at `/notifications`.

    Only the listing is guarded.  `POST /` is open and validates nothing;
    `PATCH /:id/read` and `DELETE /:id` read `res.locals.user.id` without a
    guard, so an anonymous request fails there with an error that has no
    status (500), and any signed-in user may act on any notification. */
module NotificationRoutes {
  import opened Common
  import opened Http
  import opened AuthMiddleware
  import opened Crypto
  import Text
  import Store
  import Tables
  import Notifications

  /** `findAllForUser` on the cast id, answered as the route answers. */
  function ListStep(uid: int, db: Store.Db): (r: Reply)
    ensures r.db == db
    ensures r.response.status == 200 || r.response.status == 404
    ensures r.response.status == 404 <==> forall n :: n in db.notifications.rows ==> n.userId != uid
    ensures r.response.status == 200 ==>
              && r.response.body.NotificationsBody?
              && (forall n :: n in r.response.body.notifications <==> n in db.notifications.rows && n.userId == uid)
              && (forall n :: multiset(r.response.body.notifications)[n] ==
                    if n.userId == uid then multiset(db.notifications.rows)[n] else 0)
              && forall i, j :: 0 <= i < j < |r.response.body.notifications| ==>
                   r.response.body.notifications[i].createdAt >= r.response.body.notifications[j].createdAt
  {
    var found := Notifications.FindAllForUser(db.notifications, uid);
    Reply(Respond(found, 200, (ns: seq<Notifications.Notification>) => NotificationsBody(ns)), db)
  }

  /** `GET /:userId`: the caller's notifications, newest first; 404 when
      there are none. */
  function List(user: Option<Claims>, userId: string, db: Store.Db): (r: Reply)
    ensures r.db == db
    ensures EnsureCorrectUser(user, userId) != Continue ==> r.response == ErrorResponse(Unauthorized)
    ensures EnsureCorrectUser(user, userId) == Continue && Text.PgToInt(userId).Some? ==>
              (r.response.status == 404 <==> forall n :: n in db.notifications.rows ==> n.userId != user.value.id)
    ensures EnsureCorrectUser(user, userId) == Continue && Text.PgToInt(userId).Some?
            && (exists n :: n in db.notifications.rows && n.userId == user.value.id) ==>
              r.response.status == 200
    ensures r.response.status == 200 ==>
              && user.Some? && r.response.body.NotificationsBody?
              && (forall n :: n in r.response.body.notifications <==> n in db.notifications.rows && n.userId == user.value.id)
              && (forall n :: multiset(r.response.body.notifications)[n] ==
                    if n.userId == user.value.id then multiset(db.notifications.rows)[n] else 0)
              && forall i, j :: 0 <= i < j < |r.response.body.notifications| ==>
                   r.response.body.notifications[i].createdAt >= r.response.body.notifications[j].createdAt
  {
    if EnsureCorrectUser(user, userId) != Continue then Reply(ErrorResponse(Unauthorized), db)
    else
      match PathInt(userId)
      case Err(e) => Reply(ErrorResponse(e), db)
      case Ok(uid) =>
        GuardedParam(user, userId);
        ListStep(uid, db)
  }

  /** `POST /` with `{ userId, message }`, unguarded and unvalidated: 201
      with the new notification; a missing `userId` or `message` reaches
      the NOT NULL columns and ends in 500. */
  function Create(body: Fields, now: int, db: Store.Db): (r: Reply)
    requires Notifications.Valid(db.notifications)
    ensures Notifications.Valid(r.db.notifications) && r.db == db.(notifications := r.db.notifications)
    ensures r.response.status != 201 ==> r.db == db && r.response == ErrorResponse(Unexpected)
    ensures r.response.status == 201 <==> IntParam(Prop(body, "userId")).Value? && TextParam(Prop(body, "message")).Value?
    ensures "message" !in body ==> r.response.status == 500
    ensures r.response.status == 201 ==>
              && r.response.body.NotificationBody?
              && var n := r.response.body.notification;
                 && n.userId == IntParam(Prop(body, "userId")).value
                 && n.message == TextParam(Prop(body, "message")).value
                 && !n.isRead
                 && Tables.Lookup(db.notifications.rows, Notifications.Id, n.id).None?
                 && Tables.Lookup(r.db.notifications.rows, Notifications.Id, n.id) == Some(n)
  {
    match IntParam(Prop(body, "userId"))
    case Invalid => Reply(ErrorResponse(Unexpected), db)
    case _ =>
      var userId := match IntParam(Prop(body, "userId")) case Value(n) => Some(n) case _ => None;
      var message := match TextParam(Prop(body, "message")) case Value(m) => Some(m) case _ => None;
      var o := Notifications.Create(db.notifications, userId, message, now);
      Reply(Respond(o.result, 201, (n: Notifications.Notification) => NotificationBody(n)), db.(notifications := o.state))
  }

  /** `markAsRead` on the cast id, answered as the route answers. */
  function MarkReadStep(nid: int, db: Store.Db): (r: Reply)
    requires Notifications.Valid(db.notifications)
    ensures Notifications.Valid(r.db.notifications) && r.db == db.(notifications := r.db.notifications)
    ensures r.response.status != 200 ==> r.db == db
    ensures r.response.status == 404 <==> Tables.Lookup(db.notifications.rows, Notifications.Id, nid).None?
    ensures Tables.Lookup(db.notifications.rows, Notifications.Id, nid).Some? ==>
              var n := Tables.Lookup(db.notifications.rows, Notifications.Id, nid).value.(isRead := true);
              && r.response == Response(200, NotificationBody(n))
              && Tables.Lookup(r.db.notifications.rows, Notifications.Id, nid) == Some(n)
    ensures forall k :: k != nid ==>
              Tables.Lookup(r.db.notifications.rows, Notifications.Id, k) == Tables.Lookup(db.notifications.rows, Notifications.Id, k)
  {
    var o := Notifications.MarkAsRead(db.notifications, nid);
    Reply(Respond(o.result, 200, (n: Notifications.Notification) => NotificationBody(n)), db.(notifications := o.state))
  }

  /** `delete` on the cast id, answered as the route answers: the body
      echoes the path string. */
  function RemoveStep(id: string, nid: int, db: Store.Db): (r: Reply)
    requires Notifications.Valid(db.notifications)
    ensures Notifications.Valid(r.db.notifications) && r.db == db.(notifications := r.db.notifications)
    ensures r.response.status != 200 ==> r.db == db
    ensures r.response.status == 404 <==> Tables.Lookup(db.notifications.rows, Notifications.Id, nid).None?
    ensures Tables.Lookup(db.notifications.rows, Notifications.Id, nid).Some? ==> r.response == Response(200, DeletedBody(id))
    ensures Tables.Lookup(r.db.notifications.rows, Notifications.Id, nid).None?
    ensures forall k :: k != nid ==>
              Tables.Lookup(r.db.notifications.rows, Notifications.Id, k) == Tables.Lookup(db.notifications.rows, Notifications.Id, k)
  {
    var o := Notifications.Delete(db.notifications, nid);
    Reply(Respond(o.result, 200, (_: int) => DeletedBody(id)), db.(notifications := o.state))
  }

  /** `PATCH /:id/read`: 500 without an identity; otherwise `markAsRead`,
      200 with the updated row or 404, whoever owns the notification. */
  function MarkRead(user: Option<Claims>, id: string, db: Store.Db): (r: Reply)
    requires Notifications.Valid(db.notifications)
    ensures Notifications.Valid(r.db.notifications) && r.db == db.(notifications := r.db.notifications)
    ensures r.response.status != 200 ==> r.db == db
    ensures user.None? ==> r.response == ErrorResponse(Unexpected)
    ensures user.Some? && Text.PgToInt(id).Some? ==>
              (r.response.status == 404 <==> Tables.Lookup(db.notifications.rows, Notifications.Id, Text.PgToInt(id).value).None?)
    ensures r.response.status == 200 ==>
              && Text.PgToInt(id).Some? && r.response.body.NotificationBody?
              && var n := r.response.body.notification;
                 && n == Tables.Lookup(db.notifications.rows, Notifications.Id, Text.PgToInt(id).value).value.(isRead := true)
                 && Tables.Lookup(r.db.notifications.rows, Notifications.Id, n.id) == Some(n)
    ensures user.Some? && Text.PgToInt(id).Some?
            && Tables.Lookup(db.notifications.rows, Notifications.Id, Text.PgToInt(id).value).Some? ==>
              r.response == Response(200, NotificationBody(
                Tables.Lookup(db.notifications.rows, Notifications.Id, Text.PgToInt(id).value).value.(isRead := true)))
    ensures r.response.status == 200 ==>
              Text.PgToInt(id).Some? &&
              forall k :: k != Text.PgToInt(id).value ==>
                Tables.Lookup(r.db.notifications.rows, Notifications.Id, k) == Tables.Lookup(db.notifications.rows, Notifications.Id, k)
  {
    if user.None? then Reply(ErrorResponse(Unexpected), db)
    else
      match PathInt(id)
      case Err(e) => Reply(ErrorResponse(e), db)
      case Ok(nid) =>
        MarkReadStep(nid, db)
  }

  /** `DELETE /:id`: 500 without an identity; otherwise 200 with
      `{ deleted: id }`, `id` being the path string, or 404. */
  function Remove(user: Option<Claims>, id: string, db: Store.Db): (r: Reply)
    requires Notifications.Valid(db.notifications)
    ensures Notifications.Valid(r.db.notifications) && r.db == db.(notifications := r.db.notifications)
    ensures r.response.status != 200 ==> r.db == db
    ensures user.None? ==> r.response == ErrorResponse(Unexpected)
    ensures user.Some? && Text.PgToInt(id).Some? ==>
              (r.response.status == 404 <==> Tables.Lookup(db.notifications.rows, Notifications.Id, Text.PgToInt(id).value).None?)
    ensures r.response.status == 200 ==>
              && r.response.body == DeletedBody(id)
              && Text.PgToInt(id).Some?
              && Tables.Lookup(r.db.notifications.rows, Notifications.Id, Text.PgToInt(id).value).None?
    ensures user.Some? && Text.PgToInt(id).Some?
            && Tables.Lookup(db.notifications.rows, Notifications.Id, Text.PgToInt(id).value).Some? ==>
              r.response == Response(200, DeletedBody(id))
    ensures r.response.status == 200 ==>
              Text.PgToInt(id).Some? &&
              forall k :: k != Text.PgToInt(id).value ==>
                Tables.Lookup(r.db.notifications.rows, Notifications.Id, k) == Tables.Lookup(db.notifications.rows, Notifications.Id, k)
  {
    if user.None? then Reply(ErrorResponse(Unexpected), db)
    else
      match PathInt(id)
      case Err(e) => Reply(ErrorResponse(e), db)
      case Ok(nid) =>
        RemoveStep(id, nid, db)
  }

  /** Any signed-in user can mark another user's notification as read. */
  lemma AnyoneCanMarkRead(c: Claims, n: Notifications.Notification, db: Store.Db)
    requires Notifications.Valid(db.notifications) && n in db.notifications.rows
    requires 0 <= n.id <= Text.PgIntMax && n.userId != c.id
    ensures MarkRead(Some(c), Text.NatToString(n.id), db).response == Response(200, NotificationBody(n.(isRead := true)))
  {
    Text.ToNumberNatToString(n.id);
    assert PathInt(Text.NatToString(n.id)) == Ok(n.id);
    Notifications.NoOwnershipCheck(db.notifications, n);
  }
}
