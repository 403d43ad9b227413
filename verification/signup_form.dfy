/** `frontend/src/pages/authentication/SignupForm.jsx`: the client-side
    checks of the sign-up form and what it submits.

    Lengths are counted in characters; JavaScript counts UTF-16 code units,
    which differs only for characters outside the Basic Multilingual Plane.
 */
module SignupForm {
  import opened Common

  datatype FormData = FormData(email: string, password: string, passwordConfirm: string)

  /** What `signup` receives: the form without `passwordConfirm`. */
  datatype SignupData = SignupData(email: string, password: string)

  const MismatchMessage: string := "Passwords don't match"
  const TooShortMessage: string := "Password must be at least 6 characters"
  const MinPasswordLength: nat := 6

  /** `validateForm`: the list of messages, the mismatch first. */
  function Validate(f: FormData): (errors: seq<string>)
    ensures |errors| <= 2
    ensures MismatchMessage in errors <==> f.password != f.passwordConfirm
    ensures TooShortMessage in errors <==> |f.password| < MinPasswordLength
    ensures errors == [] <==> f.password == f.passwordConfirm && |f.password| >= MinPasswordLength
    ensures |errors| == 2 ==> errors == [MismatchMessage, TooShortMessage]
  {
    (if f.password != f.passwordConfirm then [MismatchMessage] else [])
    + (if |f.password| < MinPasswordLength then [TooShortMessage] else [])
  }

  /** `const { passwordConfirm, ...signupData } = formData` */
  function SignupDataOf(f: FormData): (d: SignupData)
    ensures d.email == f.email && d.password == f.password
  {
    SignupData(f.email, f.password)
  }

  /** `handleSubmit`: nothing is sent unless the form validates. */
  function Submit(f: FormData): (r: Option<SignupData>)
    ensures r.Some? <==> Validate(f) == []
    ensures r.Some? ==> r.value == SignupDataOf(f) && r.value.password == f.passwordConfirm
    ensures r.Some? ==> |r.value.password| >= MinPasswordLength
  {
    if Validate(f) != [] then None else Some(SignupDataOf(f))
  }

  /** Exactly the sign-ups with a password of at least six characters can
      be submitted: each is what the form sends once the password is
      typed twice. */
  lemma SubmittableData(d: SignupData)
    ensures |d.password| >= MinPasswordLength <==> Submit(FormData(d.email, d.password, d.password)) == Some(d)
    ensures |d.password| >= MinPasswordLength <==> exists f :: Submit(f) == Some(d)
  {
    if exists f :: Submit(f) == Some(d) {
      var f :| Submit(f) == Some(d);
      assert |d.password| >= MinPasswordLength;
    }
    if |d.password| >= MinPasswordLength {
      assert Submit(FormData(d.email, d.password, d.password)) == Some(d);
    }
  }
}
