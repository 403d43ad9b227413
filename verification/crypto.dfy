/** The cryptographic libraries the backend calls, as parameters.

    `jsonwebtoken` and `bcrypt` are foreign code; the model receives them as
    values of the datatypes below, and the properties it relies on are stated
    as predicates (`RoundTrips`, `Compact`, `Sound`) that a lemma takes as a
    precondition.  The signing secret is part of the `Signer` value: it is
    fixed once per process, as `SECRET_KEY` is.
 */
module Crypto {
  import opened Common
  import Text

  /** What `createToken` signs. */
  datatype Payload = Payload(id: int, email: string)

  /** A verified token's decoded claims, i.e. what `res.locals.user` holds:
      the signed fields, `isAdmin` (absent, hence false, in every token this
      backend issues), the issued-at time and the optional expiry. */
  datatype Claims = Claims(id: int, email: string, isAdmin: bool, iat: int, exp: Option<int>)

  /** `jwt.sign(payload, SECRET_KEY)` at issue time `iat`, and
      `jwt.verify(token, SECRET_KEY)`, whose `None` is the thrown error. */
  datatype Signer = Signer(sign: (Payload, int) -> string, verify: string -> Option<Claims>)

  /** Verifying a token this signer issued gives back its payload, stamped
      with the issue time and no expiry (`jwt.sign` without `expiresIn`). */
  ghost predicate RoundTrips(s: Signer)
  {
    forall p: Payload, iat: int :: s.verify(s.sign(p, iat)) == Some(Claims(p.id, p.email, false, iat, None))
  }

  /** A token is nonempty and free of white space (base64url segments and dots). */
  predicate NoSpace(t: string)
  {
    t != [] && forall i :: 0 <= i < |t| ==> !Text.IsSpace(t[i])
  }

  ghost predicate Compact(s: Signer)
  {
    forall p: Payload, iat: int :: NoSpace(s.sign(p, iat))
  }

  /** `bcrypt.hash(password, BCRYPT_WORK_FACTOR)` and `bcrypt.compare(password, hash)`. */
  datatype Hasher = Hasher(hash: string -> string, compare: (string, string) -> bool)

  /** A password always matches its own hash. */
  ghost predicate Sound(h: Hasher)
  {
    forall p: string :: h.compare(p, h.hash(p))
  }
}
