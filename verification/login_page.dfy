/** The sign-in form of login/page.tsx: its field rules and the outcome of
    `onSubmit`, which goes through the session store's `login`. */
module LoginPage {
  import opened Common
  import Auth
  import Guard

  datatype Form = Form(email: string, password: string)

  datatype Field = Email | Password

  datatype FieldError = FieldError(field: Field, message: string)

  const MinPasswordLength := 6
  const LoginFailed := "Login failed. Please check your credentials."
  const HomePath := "/"

  /** The e-mail is only required here; no pattern is checked. */
  function EmailError(f: Form): Option<string>
  {
    if f.email == "" then Some("Email is required") else None
  }

  function PasswordError(f: Form): Option<string>
  {
    if f.password == "" then Some("Password is required")
    else if |f.password| < MinPasswordLength then Some("Password must be at least 6 characters")
    else None
  }

  function Errors(f: Form): (es: seq<FieldError>)
    ensures es == [] <==> f.email != "" && |f.password| >= MinPasswordLength
    ensures FieldError(Email, "Email is required") in es <==> f.email == ""
    ensures FieldError(Password, "Password is required") in es <==> f.password == ""
    ensures FieldError(Password, "Password must be at least 6 characters") in es <==> 0 < |f.password| < MinPasswordLength
  {
    (match EmailError(f) case Some(m) => [FieldError(Email, m)] case None => [])
    + (match PasswordError(f) case Some(m) => [FieldError(Password, m)] case None => [])
  }

  datatype Outcome = Outcome(
    page: FormStatus,
    session: Auth.Session,
    calls: seq<Auth.AuthCall>,
    navigate: Option<string>,
    fieldErrors: seq<FieldError>)

  /** `onSubmit` once the sign-in call settles. When `login` returns, the
      browser goes home; when it throws, the fixed message is shown and the
      browser stays. `loading` ends either way. */
  function OnSubmit(p: FormStatus, s: Auth.Session, f: Form, reply: Reply<Auth.SignInBody>): (r: Outcome)
    ensures !r.page.loading
    ensures r.calls == [Auth.SignInCall(f.email, f.password)]
    ensures r.session == Auth.Login(s, reply).session
    ensures r.navigate.Some? <==> !Auth.Login(s, reply).thrown
    ensures r.navigate.Some? ==> r.navigate.value == HomePath && r.page.error.None?
    ensures r.navigate.None? ==> r.page.error == Some(LoginFailed)
  {
    var started := BeginSubmit(p);
    var login := Auth.Login(s, reply);
    var calls := [Auth.SignInCall(f.email, f.password)];
    if login.thrown then Outcome(started.(loading := false, error := Some(LoginFailed)), login.session, calls, None, [])
    else Outcome(started.(loading := false), login.session, calls, Some(HomePath), [])
  }

  /** The sign-in button: field errors stop everything before the call. */
  function HandleSubmit(p: FormStatus, s: Auth.Session, f: Form, reply: Reply<Auth.SignInBody>): (r: Outcome)
    ensures r.calls == [] <==> Errors(f) != []
    ensures Errors(f) != [] ==> r.page == p && r.session == s && r.navigate.None? && r.fieldErrors == Errors(f)
    ensures Errors(f) == [] ==> r == OnSubmit(p, s, f, reply)
  {
    if Errors(f) == [] then OnSubmit(p, s, f, reply) else Outcome(p, s, [], None, Errors(f))
  }

  /** A rejected sign-in leaves the session exactly as it was and stays on the page. */
  lemma FailedSignInChangesNoSession(p: FormStatus, s: Auth.Session, f: Form, message: string)
    ensures HandleSubmit(p, s, f, Err(message)).session == s
    ensures HandleSubmit(p, s, f, Err(message)).navigate.None?
  {
  }

  /** A sign-in that navigates home lands on a page the guard lets through,
      once the session has finished loading. */
  lemma SignedInPassesGuard(p: FormStatus, s: Auth.Session, f: Form, reply: Reply<Auth.SignInBody>)
    requires !s.loading
    ensures var r := HandleSubmit(p, s, f, reply);
      r.navigate == Some(HomePath) ==>
        && Guard.DecideFor(r.session).view == Guard.Children
        && r.session.token == Some(reply.body.token)
  {
  }
}
