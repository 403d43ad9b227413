/** `backend/models/notifications.js`: the `notifications` table with an
    auto-increment id.

    `markAsRead` and `delete` take only the notification id; no caller id is
    compared anywhere in this model, whatever the route comments say.
 */
module Notifications {
  import opened Common
  import opened Seqs
  import opened Tables

  datatype Notification = Notification(id: int, userId: int, message: string, isRead: bool, createdAt: int)

  /** The rows and the next value of the id sequence. */
  datatype Table = Table(rows: seq<Notification>, nextId: int)

  function Id(n: Notification): int
  {
    n.id
  }

  /** Ids are unique and every id was drawn from the sequence before `nextId`. */
  ghost predicate Valid(t: Table)
  {
    && UniqueBy(t.rows, Id)
    && forall n :: n in t.rows ==> n.id < t.nextId
  }

  /** `create(userId, message)` at time `now`: a fresh id, unread.  A missing
      `userId` or `message` violates the columns' NOT NULL constraint, an
      error without a status. */
  function Create(t: Table, userId: Option<int>, message: Option<string>, now: int): (r: Outcome<Notification, Table>)
    requires Valid(t)
    ensures Valid(r.state)
    ensures r.result.Ok? <==> userId.Some? && message.Some?
    ensures r.result.Err? ==> r.result.error == Unexpected && r.state == t
    ensures r.result.Ok? ==>
              && Lookup(t.rows, Id, r.result.value.id).None?
              && r.result.value == Notification(r.result.value.id, userId.value, message.value, false, now)
              && Lookup(r.state.rows, Id, r.result.value.id) == Some(r.result.value)
              && forall k :: k != r.result.value.id ==> Lookup(r.state.rows, Id, k) == Lookup(t.rows, Id, k)
  {
    if userId.None? || message.None? then
      Outcome(Err(Unexpected), t)
    else
      var n := Notification(t.nextId, userId.value, message.value, false, now);
      assert Lookup(t.rows, Id, n.id).None?;
      UniqueAppend(t.rows, Id, n);
      assert forall k :: Lookup(t.rows + [n], Id, k) == if k == n.id then Some(n) else Lookup(t.rows, Id, k) by {
        forall k { LookupAppend(t.rows, Id, n, k); }
      }
      Outcome(Ok(n), Table(t.rows + [n], t.nextId + 1))
  }

  /** `findAllForUser(userId)`: the user's notifications, newest first; a user
      with none is `NotFound`. */
  function FindAllForUser(t: Table, userId: int): (r: Result<seq<Notification>>)
    ensures r.Err? <==> forall n :: n in t.rows ==> n.userId != userId
    ensures r.Err? ==> r.error == NotFound
    ensures r.Ok? ==> forall n :: n in r.value ==> n in t.rows && n.userId == userId
    ensures r.Ok? ==> forall n :: n in t.rows && n.userId == userId ==> n in r.value
    ensures r.Ok? ==> forall n :: multiset(r.value)[n] == if n.userId == userId then multiset(t.rows)[n] else 0
    ensures r.Ok? ==> forall i, j :: 0 <= i < j < |r.value| ==> r.value[i].createdAt >= r.value[j].createdAt
  {
    var mine := Filter(t.rows, (n: Notification) => n.userId == userId);
    var sorted := Sort(mine, ByKeyDesc((n: Notification) => n.createdAt));
    SortByKeyDesc(mine, (n: Notification) => n.createdAt);
    SortMembers(mine, ByKeyDesc((n: Notification) => n.createdAt));
    assert forall n :: multiset(mine)[n] == if n.userId == userId then multiset(t.rows)[n] else 0 by {
      forall n { FilterMultiset(t.rows, (n: Notification) => n.userId == userId, n); }
    }
    if sorted == [] then Err(NotFound)
    else
      assert sorted[0] in mine;
      Ok(sorted)
  }

  /** `markAsRead(notificationId)`: sets `is_read`, keeps every other field
      and returns the row; `NotFound` for a missing id. */
  function MarkAsRead(t: Table, id: int): (r: Outcome<Notification, Table>)
    requires Valid(t)
    ensures Valid(r.state) && r.state.nextId == t.nextId
    ensures r.result.Ok? <==> Lookup(t.rows, Id, id).Some?
    ensures r.result.Err? ==> r.result.error == NotFound && r.state == t
    ensures r.result.Ok? ==>
              && r.result.value == Lookup(t.rows, Id, id).value.(isRead := true)
              && Lookup(r.state.rows, Id, id) == Some(r.result.value)
    ensures forall k :: k != id ==> Lookup(r.state.rows, Id, k) == Lookup(t.rows, Id, k)
  {
    match Lookup(t.rows, Id, id)
    case None => Outcome(Err(NotFound), t)
    case Some(n) =>
      var row := n.(isRead := true);
      assert forall k :: k != id ==> Lookup(Replace(t.rows, Id, row), Id, k) == Lookup(t.rows, Id, k) by {
        forall k { ReplaceLookup(t.rows, Id, row, k); }
      }
      ReplaceLookup(t.rows, Id, row, id);
      assert forall x :: x in Replace(t.rows, Id, row) ==> x in t.rows || x == row;
      Outcome(Ok(row), Table(Replace(t.rows, Id, row), t.nextId))
  }

  /** `delete(notificationId)`: removes the row and answers `{deleted: id}`;
      `NotFound` for a missing id. */
  function Delete(t: Table, id: int): (r: Outcome<int, Table>)
    requires Valid(t)
    ensures Valid(r.state)
    ensures r.result.Ok? <==> Lookup(t.rows, Id, id).Some?
    ensures r.result.Err? ==> r.result.error == NotFound && r.state == t
    ensures r.result.Ok? ==> r.result.value == id
    ensures Lookup(r.state.rows, Id, id).None?
    ensures forall k :: k != id ==> Lookup(r.state.rows, Id, k) == Lookup(t.rows, Id, k)
  {
    if Lookup(t.rows, Id, id).None? then
      Outcome(Err(NotFound), t)
    else
      UniqueWithout(t.rows, Id, id);
      assert forall k :: Lookup(Without(t.rows, Id, id), Id, k) == if k == id then None else Lookup(t.rows, Id, k) by {
        forall k { LookupWithout(t.rows, Id, id, k); }
      }
      Outcome(Ok(id), Table(Without(t.rows, Id, id), t.nextId))
  }

  /** Marking twice: the second call succeeds with the same record and
      changes nothing. */
  lemma MarkAsReadIdempotent(t: Table, id: int)
    requires Valid(t)
    requires MarkAsRead(t, id).result.Ok?
    ensures var r1 := MarkAsRead(t, id);
            var r2 := MarkAsRead(r1.state, id);
            r2.result == r1.result && r2.state == r1.state
  {
    var r1 := MarkAsRead(t, id);
    var row := r1.result.value;
    ReplaceSame(r1.state.rows, Id, row);
  }

  /** Any notification can be marked read or deleted by id, whoever owns it. */
  lemma NoOwnershipCheck(t: Table, n: Notification)
    requires Valid(t) && n in t.rows
    ensures MarkAsRead(t, n.id).result == Ok(n.(isRead := true))
    ensures Delete(t, n.id).result == Ok(n.id)
  {
    LookupUnique(t.rows, Id, n);
  }

  /** A created notification is listed for its user. */
  lemma CreateThenList(t: Table, userId: int, message: string, now: int)
    requires Valid(t)
    ensures var r := Create(t, Some(userId), Some(message), now);
            && FindAllForUser(r.state, userId).Ok?
            && r.result.value in FindAllForUser(r.state, userId).value
  {
    var r := Create(t, Some(userId), Some(message), now);
    assert r.result.value in r.state.rows;
  }
}
