/** The identity middleware and the route guards of `backend/middleware/auth.js`.

    `AuthenticateJwt` is the best-effort step every request passes through: it
    may fill the optional identity slot (`res.locals.user`) but never rejects.
    The guards are predicates over that optional identity and, for two of
    them, the `:userId` path parameter; each either continues or fails with
    `Unauthorized`.
 */
module AuthMiddleware {
  import opened Common
  import opened Text
  import opened Crypto

  /** What a middleware passes to `next`: nothing, or an error. */
  datatype Next = Continue | Fail(error: Error)

  /** The result of the identity middleware: its `next` call and the identity slot. */
  datatype Step = Step(next: Next, user: Option<Claims>)

  /** `authHeader.replace(/^[Bb]earer /, "").trim()`: one leading "Bearer " or
      "bearer " is removed, then surrounding white space. */
  function ExtractToken(header: string): (token: string)
    ensures token == [] || (!IsSpace(token[0]) && !IsSpace(token[|token| - 1]))
    ensures exists k :: TrimmedAt(header, token, k) || (|header| >= 7 && TrimmedAt(header[7..], token, k))
  {
    var rest := if StartsWith(header, "Bearer ") || StartsWith(header, "bearer ") then header[7..] else header;
    Trim(rest)
  }

  /** Either spelling of the scheme is removed. */
  lemma ExtractTokenBearer(t: string)
    ensures ExtractToken("Bearer " + t) == Trim(t)
    ensures ExtractToken("bearer " + t) == Trim(t)
  {
    assert ("Bearer " + t)[..7] == "Bearer " && ("Bearer " + t)[7..] == t;
    assert ("bearer " + t)[..7] == "bearer " && ("bearer " + t)[7..] == t;
  }

  /** Any other seven-character prefix (another capitalisation of the scheme,
      or a different scheme) stays part of the token. */
  lemma ExtractTokenOtherPrefix(p: string, t: string)
    requires |p| == 7 && p != "Bearer " && p != "bearer "
    ensures ExtractToken(p + t) == Trim(p + t)
  {
    assert (p + t)[..7] == p;
  }

  /** A compact token sent as "Bearer <token>" is extracted intact. */
  lemma ExtractCompactToken(t: string)
    requires NoSpace(t)
    ensures ExtractToken("Bearer " + t) == t
  {
    ExtractTokenBearer(t);
    TrimIdentity(t);
  }

  /** `authenticateJWT`: with a nonempty Authorization header whose token
      verifies, the slot receives the claims; otherwise it is left as it was.
      Both the normal and the catch path call `next()` without an error. */
  function AuthenticateJwt(authorization: Option<string>, user: Option<Claims>, verify: string -> Option<Claims>): (r: Step)
    ensures r.next == Continue
    ensures authorization == None || authorization == Some("") ==> r.user == user
    ensures authorization.Some? && verify(ExtractToken(authorization.value)).None? ==> r.user == user
    ensures r.user != user ==> authorization.Some? && authorization.value != [] &&
                               r.user == verify(ExtractToken(authorization.value)) && r.user.Some?
  {
    match authorization
    case Some(header) =>
      if header == "" then Step(Continue, user)
      else
        // jwt.verify throws before the assignment, and the catch calls next()
        (match verify(ExtractToken(header))
         case Some(claims) => Step(Continue, Some(claims))
         case None => Step(Continue, user))
    case None => Step(Continue, user)
  }

  /** A request carrying "Bearer <token>" for a token the signer issued is
      authenticated as the token's payload. */
  lemma AuthenticateIssuedToken(s: Signer, p: Payload, iat: int, user: Option<Claims>)
    requires RoundTrips(s) && Compact(s)
    ensures AuthenticateJwt(Some("Bearer " + s.sign(p, iat)), user, s.verify).user
            == Some(Claims(p.id, p.email, false, iat, None))
  {
    ExtractCompactToken(s.sign(p, iat));
  }

  /** `ensureLoggedIn` */
  function EnsureLoggedIn(user: Option<Claims>): (n: Next)
    ensures n == Continue <==> user.Some?
    ensures n != Continue ==> n == Fail(Unauthorized)
  {
    if user.None? then Fail(Unauthorized) else Continue
  }

  /** `ensureAdmin` */
  function EnsureAdmin(user: Option<Claims>): (n: Next)
    ensures n == Continue <==> user.Some? && user.value.isAdmin
    ensures n != Continue ==> n == Fail(Unauthorized)
  {
    if user.None? || !user.value.isAdmin then Fail(Unauthorized) else Continue
  }

  /** `ensureCorrectUserOrAdmin`: `!(user && user.id === +req.params.userId)`. */
  function EnsureCorrectUserOrAdmin(user: Option<Claims>, userIdParam: string): (n: Next)
    ensures n == Continue <==> user.Some? && JsToNumber(userIdParam) == Some(user.value.id)
    ensures n != Continue ==> n == Fail(Unauthorized)
  {
    if !(user.Some? && JsToNumber(userIdParam).Some? && user.value.id == JsToNumber(userIdParam).value)
    then Fail(Unauthorized)
    else Continue
  }

  /** `ensureCorrectUser`: `!user || +req.params.userId !== user.id`. */
  function EnsureCorrectUser(user: Option<Claims>, userIdParam: string): (n: Next)
    ensures n == Continue <==> user.Some? && JsToNumber(userIdParam) == Some(user.value.id)
    ensures n != Continue ==> n == Fail(Unauthorized)
  {
    if user.None? || JsToNumber(userIdParam).None? || JsToNumber(userIdParam).value != user.value.id
    then Fail(Unauthorized)
    else Continue
  }

  /** Despite its name, `ensureCorrectUserOrAdmin` accepts exactly the
      requests `ensureCorrectUser` accepts. */
  lemma CorrectUserGuardsAgree(user: Option<Claims>, userIdParam: string)
    ensures EnsureCorrectUserOrAdmin(user, userIdParam) == EnsureCorrectUser(user, userIdParam)
  {
  }

  /** An administrator has no override: with a different id, the admin
      identity is rejected by the "or admin" guard. */
  lemma NoAdminOverride(c: Claims, userIdParam: string)
    requires c.isAdmin && JsToNumber(userIdParam) != Some(c.id)
    ensures EnsureCorrectUserOrAdmin(Some(c), userIdParam) == Fail(Unauthorized)
  {
  }

  /** A path parameter that is not a number never matches an identity. */
  lemma NonNumericParamRejected(user: Option<Claims>, userIdParam: string)
    requires JsToNumber(userIdParam).None?
    ensures EnsureCorrectUser(user, userIdParam) == Fail(Unauthorized)
  {
  }

  /** Behind `ensureCorrectUser`, a path parameter that PostgreSQL reads as
      an integer is the identity's own id. */
  lemma GuardedParam(user: Option<Claims>, userIdParam: string)
    requires EnsureCorrectUser(user, userIdParam) == Continue
    requires PgToInt(userIdParam).Some?
    ensures user.Some? && PgToInt(userIdParam).value == user.value.id
  {
    PgToIntAgrees(userIdParam);
  }
}
