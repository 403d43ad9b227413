/** `backend/models/user.js`: the `users` table.

    Ids come from a PostgreSQL `serial` sequence (1, 2, … up to the largest
    `integer`); `email` is NOT NULL and UNIQUE, which is what makes `update`
    fail without a status when it would clear or duplicate an address.
 */
module Users {
  import opened Common
  import opened Seqs
  import opened Tables
  import opened Crypto
  import Text

  datatype User = User(id: int, email: string, passwordHash: string, createdAt: int)

  /** The rows and the next value of the id sequence. */
  datatype Table = Table(rows: seq<User>, nextId: int)

  /** `{ id, email }`, what `authenticate`, `register` and `update` return. */
  datatype Account = Account(id: int, email: string)

  /** `{ id, email, created_at }`, what `get` and `findAll` return. */
  datatype Profile = Profile(id: int, email: string, createdAt: int)

  /** The body of `update`: its number of properties
      (`Object.keys(data).length`) and the value bound for `email`, `None`
      being SQL NULL. */
  datatype UpdateData = UpdateData(keyCount: nat, email: Option<string>)

  function Id(u: User): int
  {
    u.id
  }

  function Email(u: User): string
  {
    u.email
  }

  function ProfileOf(u: User): Profile
  {
    Profile(u.id, u.email, u.createdAt)
  }

  /** Unique ids drawn from the sequence, unique e-mail addresses. */
  ghost predicate Valid(t: Table)
  {
    && UniqueBy(t.rows, Id)
    && UniqueBy(t.rows, Email)
    && 1 <= t.nextId
    && forall u :: u in t.rows ==> 0 < u.id < t.nextId && u.id <= Text.PgIntMax
  }

  /** `authenticate(email, password)`: the account whose stored hash the
      password matches; `Unauthorized` for an unknown address and for a wrong
      password alike. */
  function Authenticate(t: Table, h: Hasher, email: string, password: string): (r: Result<Account>)
    requires Valid(t)
    ensures r.Ok? <==> exists u :: u in t.rows && u.email == email && h.compare(password, u.passwordHash)
    ensures r.Err? ==> r.error == Unauthorized
    ensures r.Ok? ==> r.value.email == email && Lookup(t.rows, Id, r.value.id).Some?
                      && Lookup(t.rows, Id, r.value.id).value.email == email
  {
    match Lookup(t.rows, Email, email)
    case Some(u) =>
      LookupUnique(t.rows, Id, u);
      forall v | v in t.rows && v.email == email
        ensures v == u
      {
        LookupUnique(t.rows, Email, v);
      }
      if h.compare(password, u.passwordHash) then Ok(Account(u.id, u.email)) else Err(Unauthorized)
    case None => Err(Unauthorized)
  }

  /** `register({email, password})`: a new row holding the password's hash,
      never the password itself, or `BadRequest` for an address already in
      use.  The sequence running out is an error without a status. */
  function Register(t: Table, h: Hasher, email: string, password: string, now: int): (r: Outcome<Account, Table>)
    requires Valid(t)
    ensures Valid(r.state)
    ensures Lookup(t.rows, Email, email).Some? ==> r.result.Err? && r.result.error.BadRequest?
    ensures Lookup(t.rows, Email, email).None? && t.nextId <= Text.PgIntMax ==> r.result.Ok?
    ensures r.result.Err? ==> r.state == t
    ensures r.result.Ok? ==>
              && r.result.value.email == email
              && 0 < r.result.value.id <= Text.PgIntMax
              && Lookup(t.rows, Id, r.result.value.id).None?
              && Lookup(r.state.rows, Id, r.result.value.id) == Some(User(r.result.value.id, email, h.hash(password), now))
              && (forall k :: k != r.result.value.id ==> Lookup(r.state.rows, Id, k) == Lookup(t.rows, Id, k))
  {
    if Lookup(t.rows, Email, email).Some? then
      Outcome(Err(BadRequest([])), t)
    else if t.nextId > Text.PgIntMax then
      Outcome(Err(Unexpected), t)
    else
      var u := User(t.nextId, email, h.hash(password), now);
      UniqueAppend(t.rows, Id, u);
      UniqueAppend(t.rows, Email, u);
      assert forall k :: Lookup(t.rows + [u], Id, k) == if k == u.id then Some(u) else Lookup(t.rows, Id, k) by {
        forall k { LookupAppend(t.rows, Id, u, k); }
      }
      Outcome(Ok(Account(u.id, u.email)), Table(t.rows + [u], t.nextId + 1))
  }

  /** `get(id)` */
  function Get(t: Table, id: int): (r: Result<Profile>)
    ensures r.Ok? ==> exists u :: u in t.rows && u.id == id && r.value == ProfileOf(u)
    ensures r.Err? <==> forall u :: u in t.rows ==> u.id != id
    ensures r.Err? ==> r.error == NotFound
  {
    match Lookup(t.rows, Id, id)
    case Some(u) => Ok(ProfileOf(u))
    case None => Err(NotFound)
  }

  /** `findAll()`: every user's profile, ordered by id. */
  function FindAll(t: Table): (r: seq<Profile>)
    ensures |r| == |t.rows|
    ensures forall u :: u in t.rows ==> ProfileOf(u) in r
    ensures forall p :: p in r ==> exists u :: u in t.rows && p == ProfileOf(u)
    ensures forall i, j :: 0 <= i < j < |r| ==> r[i].id <= r[j].id
  {
    var ps := Map(t.rows, ProfileOf);
    MapMembers(t.rows, ProfileOf);
    SortByKey(ps, (p: Profile) => p.id);
    SortMembers(ps, ByKey((p: Profile) => p.id));
    Sort(ps, ByKey((p: Profile) => p.id))
  }

  /** `update(id, data)`.  An absent or empty body is `BadRequest`; an
      unknown id matches no row and is `NotFound`.  The statement always sets
      `email` to `data.email`: a body without it writes NULL and one naming
      another user's address breaks the UNIQUE constraint, both errors
      without a status.  Otherwise only that user's e-mail changes. */
  function Update(t: Table, id: int, data: Option<UpdateData>): (r: Outcome<Account, Table>)
    requires Valid(t)
    ensures Valid(r.state) && r.state.nextId == t.nextId
    ensures r.result.Err? ==> r.state == t
    ensures data.None? || data.value.keyCount == 0 ==> r.result == Err(BadRequest([]))
    ensures r.result == Err(NotFound) <==> data.Some? && data.value.keyCount > 0 && Lookup(t.rows, Id, id).None?
    ensures r.result.Ok? <==>
              && data.Some? && data.value.keyCount > 0 && data.value.email.Some?
              && Lookup(t.rows, Id, id).Some?
              && forall u :: u in t.rows && u.email == data.value.email.value ==> u.id == id
    ensures r.result.Ok? ==>
              && r.result.value == Account(id, data.value.email.value)
              && Lookup(r.state.rows, Id, id) == Some(Lookup(t.rows, Id, id).value.(email := data.value.email.value))
    ensures forall k :: k != id ==> Lookup(r.state.rows, Id, k) == Lookup(t.rows, Id, k)
  {
    if data.None? || data.value.keyCount == 0 then
      Outcome(Err(BadRequest([])), t)
    else
      match Lookup(t.rows, Id, id)
      case None => Outcome(Err(NotFound), t)
      case Some(u) =>
        match data.value.email
        case None => Outcome(Err(Unexpected), t)
        case Some(email) =>
          match Lookup(t.rows, Email, email)
          case Some(other) =>
            if other.id != id then
              Outcome(Err(Unexpected), t)
            else
              Store(t, u, email)
          case None =>
            Store(t, u, email)
  }

  /** The successful `UPDATE … SET email`: `email` is free or already `u`'s. */
  function Store(t: Table, u: User, email: string): (r: Outcome<Account, Table>)
    requires Valid(t) && u in t.rows
    requires forall v :: v in t.rows && v.email == email ==> v.id == u.id
    ensures Valid(r.state) && r.state.nextId == t.nextId
    ensures r.result == Ok(Account(u.id, email))
    ensures Lookup(r.state.rows, Id, u.id) == Some(u.(email := email))
    ensures forall k :: k != u.id ==> Lookup(r.state.rows, Id, k) == Lookup(t.rows, Id, k)
  {
    var row := u.(email := email);
    var rows := Replace(t.rows, Id, row);
    LookupUnique(t.rows, Id, u);
    assert forall k :: k != u.id ==> Lookup(rows, Id, k) == Lookup(t.rows, Id, k) by {
      forall k { ReplaceLookup(t.rows, Id, row, k); }
    }
    ReplaceLookup(t.rows, Id, row, u.id);
    assert UniqueBy(rows, Email) by {
      forall i, j | 0 <= i < j < |rows|
        ensures rows[i].email != rows[j].email
      {
        if t.rows[i].id == u.id {
          assert t.rows[j] in t.rows && t.rows[j].id != u.id;
        } else if t.rows[j].id == u.id {
          assert t.rows[i] in t.rows && t.rows[i].id != u.id;
        }
      }
    }
    assert forall v :: v in rows ==> v in t.rows || v == row;
    Outcome(Ok(Account(u.id, email)), Table(rows, t.nextId))
  }

  /** `remove(id)` */
  function Remove(t: Table, id: int): (r: Outcome<(), Table>)
    requires Valid(t)
    ensures Valid(r.state) && r.state.nextId == t.nextId
    ensures r.result.Ok? <==> Lookup(t.rows, Id, id).Some?
    ensures r.result.Err? ==> r.result.error == NotFound && r.state == t
    ensures Lookup(r.state.rows, Id, id).None?
    ensures forall k :: k != id ==> Lookup(r.state.rows, Id, k) == Lookup(t.rows, Id, k)
  {
    if Lookup(t.rows, Id, id).None? then
      Outcome(Err(NotFound), t)
    else
      UniqueWithout(t.rows, Id, id);
      UniqueFilter(t.rows, Email, (x: User) => Id(x) != id);
      assert forall k :: Lookup(Without(t.rows, Id, id), Id, k) == if k == id then None else Lookup(t.rows, Id, k) by {
        forall k { LookupWithout(t.rows, Id, id, k); }
      }
      Outcome(Ok(()), Table(Without(t.rows, Id, id), t.nextId))
  }

  /** A registered user can log in with the password they registered with,
      given that the hasher accepts a password against its own hash. */
  lemma RegisterThenAuthenticate(t: Table, h: Hasher, email: string, password: string, now: int)
    requires Valid(t) && Sound(h)
    requires Register(t, h, email, password, now).result.Ok?
    ensures var r := Register(t, h, email, password, now);
            Authenticate(r.state, h, email, password) == Ok(r.result.value)
  {
    var r := Register(t, h, email, password, now);
    var u := User(r.result.value.id, email, h.hash(password), now);
    assert u in r.state.rows;
    LookupUnique(r.state.rows, Email, u);
  }

  /** A second registration with the same address is rejected and changes nothing. */
  lemma RegisterTwiceRejected(t: Table, h: Hasher, email: string, p1: string, p2: string, now: int, later: int)
    requires Valid(t)
    requires Register(t, h, email, p1, now).result.Ok?
    ensures var t1 := Register(t, h, email, p1, now).state;
            && Register(t1, h, email, p2, later).result.Err?
            && Register(t1, h, email, p2, later).result.error.BadRequest?
            && Register(t1, h, email, p2, later).state == t1
  {
    var r := Register(t, h, email, p1, now);
    var u := User(r.result.value.id, email, h.hash(p1), now);
    assert Lookup(r.state.rows, Id, u.id) == Some(u);
    assert u in r.state.rows;
  }

  /** A registered account has a truthy id, so a token can be issued for it. */
  lemma RegisteredIdPositive(t: Table, h: Hasher, email: string, password: string, now: int)
    requires Valid(t)
    requires Register(t, h, email, password, now).result.Ok?
    ensures 0 < Register(t, h, email, password, now).result.value.id <= Text.PgIntMax
  {
    var r := Register(t, h, email, password, now);
    var u := User(r.result.value.id, email, h.hash(password), now);
    assert Lookup(r.state.rows, Id, u.id) == Some(u);
  }
}
