/** `backend/models/userPreferences.js`: the `user_preferences` table, one
    row per (user, tracked item) pair with a `notify` flag.

    The pair is the table's key: a second `INSERT` of the same pair is the
    duplicate-key error (`23505`) that `add` turns into `BadRequest`.  The
    `notify` column holds SQL `NULL` as `None`: `updateNotify` writes
    whatever it is given, including an absent value.
 */
module Preferences {
  import opened Common
  import opened Seqs
  import opened Tables

  datatype Preference = Preference(userId: int, trackedItemId: int, notify: Option<bool>)

  type Table = seq<Preference>

  function Key(p: Preference): (int, int)
  {
    (p.userId, p.trackedItemId)
  }

  /** The (user, item) uniqueness constraint. */
  ghost predicate Valid(t: Table)
  {
    UniqueBy(t, Key)
  }

  /** `{ deleted: { userId, trackedItemId } }` */
  datatype Deleted = Deleted(userId: int, trackedItemId: int)

  /** The `notify` argument: left out (`undefined`, which takes the default)
      or given, possibly as `null`. */
  datatype NotifyArg = Omitted | Given(value: Option<bool>)

  /** `add(userId, trackedItemId, notify = true)`: inserts the pair, or fails
      with `BadRequest` when it already exists, leaving the table as it was. */
  function Add(t: Table, userId: int, trackedItemId: int, notify: NotifyArg): (r: Outcome<Preference, Table>)
    requires Valid(t)
    ensures Valid(r.state)
    ensures r.result.Ok? <==> Lookup(t, Key, (userId, trackedItemId)).None?
    ensures r.result.Err? ==> r.result.error.BadRequest? && r.state == t
    ensures r.result.Ok? ==>
              && r.result.value == Preference(userId, trackedItemId, if notify.Omitted? then Some(true) else notify.value)
              && Lookup(r.state, Key, (userId, trackedItemId)) == Some(r.result.value)
    ensures forall k :: k != (userId, trackedItemId) ==> Lookup(r.state, Key, k) == Lookup(t, Key, k)
  {
    var value := match notify case Omitted => Some(true) case Given(v) => v;
    var row := Preference(userId, trackedItemId, value);
    if Lookup(t, Key, Key(row)).Some? then
      Outcome(Err(BadRequest([])), t)
    else
      UniqueAppend(t, Key, row);
      assert forall k :: Lookup(t + [row], Key, k) == if k == Key(row) then Some(row) else Lookup(t, Key, k) by {
        forall k { LookupAppend(t, Key, row, k); }
      }
      Outcome(Ok(row), t + [row])
  }

  /** `remove(userId, trackedItemId)`: deletes the pair, or fails with
      `NotFound` when it is absent. */
  function Remove(t: Table, userId: int, trackedItemId: int): (r: Outcome<Deleted, Table>)
    requires Valid(t)
    ensures Valid(r.state)
    ensures r.result.Ok? <==> Lookup(t, Key, (userId, trackedItemId)).Some?
    ensures r.result.Err? ==> r.result.error == NotFound && r.state == t
    ensures r.result.Ok? ==> r.result.value == Deleted(userId, trackedItemId)
    ensures Lookup(r.state, Key, (userId, trackedItemId)).None?
    ensures forall k :: k != (userId, trackedItemId) ==> Lookup(r.state, Key, k) == Lookup(t, Key, k)
  {
    var k := (userId, trackedItemId);
    if Lookup(t, Key, k).None? then
      Outcome(Err(NotFound), t)
    else
      UniqueWithout(t, Key, k);
      assert forall k2 :: Lookup(Without(t, Key, k), Key, k2) == if k2 == k then None else Lookup(t, Key, k2) by {
        forall k2 { LookupWithout(t, Key, k, k2); }
      }
      Outcome(Ok(Deleted(userId, trackedItemId)), Without(t, Key, k))
  }

  /** `get(userId, trackedItemId)` */
  function Get(t: Table, userId: int, trackedItemId: int): (r: Result<Preference>)
    ensures r.Ok? ==> r.value in t && Key(r.value) == (userId, trackedItemId)
    ensures r.Err? ==> r.error == NotFound && forall p :: p in t ==> Key(p) != (userId, trackedItemId)
  {
    match Lookup(t, Key, (userId, trackedItemId))
    case Some(p) => Ok(p)
    case None => Err(NotFound)
  }

  /** `findAll(userId)`: the user's rows, in table order; an empty list is
      not an error. */
  function FindAll(t: Table, userId: int): (r: seq<Preference>)
    ensures forall p :: p in r ==> p in t && p.userId == userId
    ensures forall p :: p in t && p.userId == userId ==> p in r
    ensures forall p :: multiset(r)[p] == if p.userId == userId then multiset(t)[p] else 0
    ensures IsSubsequence(r, t)
  {
    FilterIsSubsequence(t, (p: Preference) => p.userId == userId);
    forall p
      ensures multiset(Filter(t, (p: Preference) => p.userId == userId))[p] == if p.userId == userId then multiset(t)[p] else 0
    {
      FilterMultiset(t, (p: Preference) => p.userId == userId, p);
    }
    Filter(t, (p: Preference) => p.userId == userId)
  }

  /** `updateNotify(userId, trackedItemId, notify)`: changes that row's
      `notify` only, or fails with `NotFound` when the pair is absent. */
  function UpdateNotify(t: Table, userId: int, trackedItemId: int, notify: Option<bool>): (r: Outcome<Preference, Table>)
    requires Valid(t)
    ensures Valid(r.state)
    ensures r.result.Ok? <==> Lookup(t, Key, (userId, trackedItemId)).Some?
    ensures r.result.Err? ==> r.result.error == NotFound && r.state == t
    ensures r.result.Ok? ==>
              && r.result.value == Lookup(t, Key, (userId, trackedItemId)).value.(notify := notify)
              && Lookup(r.state, Key, (userId, trackedItemId)) == Some(r.result.value)
    ensures forall k :: k != (userId, trackedItemId) ==> Lookup(r.state, Key, k) == Lookup(t, Key, k)
  {
    match Lookup(t, Key, (userId, trackedItemId))
    case None => Outcome(Err(NotFound), t)
    case Some(p) =>
      var row := p.(notify := notify);
      assert forall k :: k != Key(row) ==> Lookup(Replace(t, Key, row), Key, k) == Lookup(t, Key, k) by {
        forall k { ReplaceLookup(t, Key, row, k); }
      }
      ReplaceLookup(t, Key, row, Key(row));
      Outcome(Ok(row), Replace(t, Key, row))
  }

  /** Adding a pair twice: the second call is `BadRequest` and changes nothing. */
  lemma AddTwiceRejected(t: Table, userId: int, trackedItemId: int, n1: NotifyArg, n2: NotifyArg)
    requires Valid(t)
    requires Add(t, userId, trackedItemId, n1).result.Ok?
    ensures var t1 := Add(t, userId, trackedItemId, n1).state;
            && Add(t1, userId, trackedItemId, n2).result.Err?
            && Add(t1, userId, trackedItemId, n2).result.error.BadRequest?
            && Add(t1, userId, trackedItemId, n2).state == t1
  {
  }

  /** After `remove`, the same pair can be added again. */
  lemma RemoveThenAdd(t: Table, userId: int, trackedItemId: int, notify: NotifyArg)
    requires Valid(t)
    ensures var t1 := Remove(t, userId, trackedItemId).state;
            Add(t1, userId, trackedItemId, notify).result.Ok?
  {
  }

  /** An added preference is what `get` then returns, and `findAll` lists it. */
  lemma AddThenGet(t: Table, userId: int, trackedItemId: int, notify: NotifyArg)
    requires Valid(t)
    requires Add(t, userId, trackedItemId, notify).result.Ok?
    ensures var r := Add(t, userId, trackedItemId, notify);
            && Get(r.state, userId, trackedItemId) == Ok(r.result.value)
            && r.result.value in FindAll(r.state, userId)
  {
  }
}
