/** `createToken` of `backend/helpers/tokens.js`: validates the user object
    and signs the projection `{id, email}` of it. */
module Tokens {
  import opened Common
  import opened Crypto

  /** The user object handed to `createToken`; `extra` stands for any other
      properties it carries (a `created_at`, a stray field), which are ignored. */
  datatype UserFields = UserFields(id: Option<int>, email: Option<string>, extra: seq<(string, string)>)

  /** JavaScript truthiness of a numeric id: present and not 0. */
  predicate IdTruthy(id: Option<int>)
  {
    id.Some? && id.value != 0
  }

  /** JavaScript truthiness of a string: present and nonempty. */
  predicate EmailTruthy(email: Option<string>)
  {
    email.Some? && email.value != ""
  }

  /** The payload that gets signed, or the plain `Error` thrown (no status,
      hence `Unexpected`) when `id` or `email` is falsy. */
  function TokenPayload(user: UserFields): (r: Result<Payload>)
    ensures r.Ok? <==> IdTruthy(user.id) && EmailTruthy(user.email)
    ensures r.Err? ==> r.error == Unexpected
    ensures r.Ok? ==> r.value.id == user.id.value && r.value.email == user.email.value
  {
    if user.id.None? || user.id.value == 0 || user.email.None? || user.email.value == "" then
      Err(Unexpected)
    else
      Ok(Payload(user.id.value, user.email.value))
  }

  /** `createToken(user)` signed at time `now`. */
  function CreateToken(user: UserFields, signer: Signer, now: int): (r: Result<string>)
    ensures r.Err? <==> !IdTruthy(user.id) || !EmailTruthy(user.email)
    ensures r.Err? ==> r.error == Unexpected
    ensures r.Ok? ==> r.value == signer.sign(Payload(user.id.value, user.email.value), now)
  {
    var payload :- TokenPayload(user);
    Ok(signer.sign(payload, now))
  }

  /** Extra properties of the input do not reach the token. */
  lemma ExtraFieldsIgnored(user: UserFields, signer: Signer, now: int)
    ensures CreateToken(user, signer, now) == CreateToken(user.(extra := []), signer, now)
  {
  }

  /** Verifying an issued token yields exactly `id`, `email` and the issue
      time: no admin flag and no expiry claim. */
  lemma CreateTokenRoundTrip(user: UserFields, signer: Signer, now: int)
    requires RoundTrips(signer)
    requires CreateToken(user, signer, now).Ok?
    ensures signer.verify(CreateToken(user, signer, now).value)
            == Some(Claims(user.id.value, user.email.value, false, now, None))
  {
  }
}
