/**
 * `authSchema`: an email address and a password, neither of them trimmed.
 * The address format is decided by zod's email pattern, which this model
 * takes as a parameter `isEmail` rather than spelling out.
 */
module AuthSchema {
  import opened Wrappers
  import opened JsText
  import opened Zod

  const EmailMessage := "Please enter a valid email address"
  const EmailBounds: Bounds := Bounds(0, Some(255), None, Some("Email must be less than 255 characters"))
  const PasswordBounds: Bounds :=
    Bounds(6, Some(72), Some("Password must be at least 6 characters"), Some("Password must be less than 72 characters"))

  /** Credentials accepted by `authSchema`. */
  datatype AuthInput = AuthInput(email: string, password: string)

  /** An address the email pattern accepts, of at most 255 code units. */
  predicate EmailOk(x: Value, isEmail: string -> bool) {
    x.Str? && isEmail(x.s) && JsLength(x.s) <= 255
  }

  /** A password of 6 to 72 code units, whitespace included. */
  predicate PasswordOk(x: Value) {
    x.Str? && 6 <= JsLength(x.s) <= 72
  }

  /** The inputs `authSchema` accepts. */
  predicate ValidAuth(v: Value, isEmail: string -> bool) {
    v.Obj? && EmailOk(Get(v, "email"), isEmail) && PasswordOk(Get(v, "password"))
  }

  /**
   * `z.string().email(..).max(255, ..)`: both checks run, the pattern's
   * issue before the length's.
   */
  function EmailField(v: Value, isEmail: string -> bool): (r: Parsed<string>)
    requires v.Obj?
    ensures r.Success? <==> EmailOk(Get(v, "email"), isEmail)
    ensures r.Success? ==> r.value == Get(v, "email").s
    ensures Get(v, "email").Str? && !isEmail(Get(v, "email").s) ==>
              r.Failure? && Issue([Key("email")], InvalidEmail, Some(EmailMessage)) in r.error
    ensures Get(v, "email").Str? && JsLength(Get(v, "email").s) > 255 ==>
              r.Failure? && Issue([Key("email")], TooBig, EmailBounds.tooLong) in r.error
    ensures Reported(r)
  {
    match Get(v, "email")
    case Str(s) =>
      var issues := (if isEmail(s) then [] else [Issue([Key("email")], InvalidEmail, Some(EmailMessage))])
                    + LengthIssues(s, [Key("email")], EmailBounds);
      if issues == [] then Success(s) else Failure(issues)
    case _ => Failure([Issue([Key("email")], InvalidType, None)])
  }

  function PasswordField(v: Value): (r: Parsed<string>)
    requires v.Obj?
    ensures r.Success? <==> PasswordOk(Get(v, "password"))
    ensures r.Success? ==> r.value == Get(v, "password").s
    ensures Reported(r)
  {
    PlainText(Get(v, "password"), [Key("password")], PasswordBounds)
  }

  /** `authSchema.safeParse(v)`, with zod's email pattern given as `isEmail`. */
  function ParseAuth(v: Value, isEmail: string -> bool): (r: Parsed<AuthInput>)
    ensures r.Success? <==> ValidAuth(v, isEmail)
    ensures r.Success? ==> r.value == AuthInput(Get(v, "email").s, Get(v, "password").s)
    ensures Reported(r)
  {
    if !v.Obj? then NotAnObject([])
    else
      var email := EmailField(v, isEmail);
      var password := PasswordField(v);
      if email.Success? && password.Success? then Success(AuthInput(email.value, password.value))
      else Failure(IssuesOf(email) + IssuesOf(password))
  }

  /** A password is accepted or refused on its length alone, 6 to 72 code units. */
  lemma PasswordLengthDecides(v: Value, isEmail: string -> bool)
    requires v.Obj? && EmailOk(Get(v, "email"), isEmail) && Get(v, "password").Str?
    ensures ParseAuth(v, isEmail).Success? <==> 6 <= JsLength(Get(v, "password").s) <= 72
  {
  }

  /** A short or long password is refused with the matching message. */
  lemma PasswordLengthMessages(v: Value, isEmail: string -> bool)
    requires v.Obj? && Get(v, "password").Str?
    ensures JsLength(Get(v, "password").s) < 6 ==>
              && ParseAuth(v, isEmail).Failure?
              && Issue([Key("password")], TooSmall, PasswordBounds.tooShort) in ParseAuth(v, isEmail).error
    ensures JsLength(Get(v, "password").s) > 72 ==>
              && ParseAuth(v, isEmail).Failure?
              && Issue([Key("password")], TooBig, PasswordBounds.tooLong) in ParseAuth(v, isEmail).error
  {
    var p := PasswordField(v);
    if JsLength(Get(v, "password").s) < 6 {
      assert p.error[0] == Issue([Key("password")], TooSmall, PasswordBounds.tooShort);
    }
    if JsLength(Get(v, "password").s) > 72 {
      assert p.error[|p.error| - 1] == Issue([Key("password")], TooBig, PasswordBounds.tooLong);
    }
    if p.Failure? {
      assert ParseAuth(v, isEmail).error == IssuesOf(EmailField(v, isEmail)) + IssuesOf(p);
    }
  }

  /** Credentials as the object the sign-in form submits. */
  function EncodeAuth(a: AuthInput): Value {
    Obj(map["email" := Str(a.email), "password" := Str(a.password)])
  }

  /** Acceptable credentials, submitted as an object, are accepted unchanged. */
  lemma AuthRoundTrip(a: AuthInput, isEmail: string -> bool)
    requires isEmail(a.email) && JsLength(a.email) <= 255 && 6 <= JsLength(a.password) <= 72
    ensures ParseAuth(EncodeAuth(a), isEmail) == Success(a)
  {
    assert Get(EncodeAuth(a), "email") == Str(a.email);
    assert Get(EncodeAuth(a), "password") == Str(a.password);
  }
}
