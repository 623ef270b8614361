/** The sign-up form of register/page.tsx: its field rules, the role choices
    it offers, and the outcome of `onSubmit` once the sign-up call settles. */
module RegisterPage {
  import opened Common
  import EmailPattern

  datatype Form = Form(firstName: string, lastName: string, email: string, password: string, role: string)

  datatype Field = FirstName | LastName | Email | Password | Role

  datatype FieldError = FieldError(field: Field, message: string)

  /** An entry of the role select: the value sent, and the text shown. */
  datatype RoleOption = RoleOption(value: string, shown: string)

  const RoleOptions: seq<RoleOption> := [
    RoleOption("DOCTOR", "Doktor"),
    RoleOption("PHARMACIST", "Eczacı"),
    RoleOption("ADMIN", "Yönetici")
  ]

  const MinPasswordLength := 6
  const RegisterFailed := "Failed to register. Please check your information."

  /** The e-mail field's error: required first, then the pattern. */
  function EmailError(email: string): (m: Option<string>)
    ensures m.None? <==> EmailPattern.Matches(email)
  {
    if email == "" then Some("Email required")
    else if !EmailPattern.Matches(email) then Some("Unvalid email address")
    else None
  }

  /** The error of one field, if any: its first failing rule. */
  function FieldErrorOf(f: Form, field: Field): Option<string>
  {
    match field
    case FirstName => if f.firstName == "" then Some("Name is required") else None
    case LastName => if f.lastName == "" then Some("Surname is required") else None
    case Email => EmailError(f.email)
    case Password =>
      if f.password == "" then Some("Password required")
      else if |f.password| < MinPasswordLength then Some("Password must be at least 6 characters")
      else None
    case Role => if f.role == "" then Some("Rol seçimi zorunludur") else None
  }

  function ErrorsOf(f: Form, field: Field): seq<FieldError>
  {
    match FieldErrorOf(f, field)
    case Some(m) => [FieldError(field, m)]
    case None => []
  }

  /** All field errors, in the order the fields appear on the form. */
  function Errors(f: Form): seq<FieldError>
  {
    ErrorsOf(f, FirstName) + ErrorsOf(f, LastName) + ErrorsOf(f, Email)
      + ErrorsOf(f, Password) + ErrorsOf(f, Role)
  }

  /** A field is reported with a message exactly when its rule fails with that message. */
  lemma ErrorsExact(f: Form, field: Field, message: string)
    ensures FieldError(field, message) in Errors(f) <==> FieldErrorOf(f, field) == Some(message)
  {
  }

  /** What the form accepts, stated field by field. */
  ghost predicate Acceptable(f: Form)
  {
    && f.firstName != "" && f.lastName != ""
    && EmailPattern.InLanguage(f.email)
    && |f.password| >= MinPasswordLength
    && f.role != ""
  }

  /** The form submits exactly the acceptable values. */
  lemma ErrorsEmptyIffAcceptable(f: Form)
    ensures Errors(f) == [] <==> Acceptable(f)
  {
    EmailPattern.MatchesIffInLanguage(f.email);
  }

  /** The select offers exactly three roles, each of which the role rule accepts. */
  lemma RoleChoices(f: Form, k: nat)
    requires k < |RoleOptions|
    ensures (set o | o in RoleOptions :: o.value) == {"DOCTOR", "PHARMACIST", "ADMIN"}
    ensures FieldErrorOf(f.(role := RoleOptions[k].value), Role).None?
    ensures FieldErrorOf(f.(role := ""), Role).Some?
  {
    var values := set o | o in RoleOptions :: o.value;
    assert RoleOptions[0].value in values && RoleOptions[1].value in values && RoleOptions[2].value in values;
  }

  /** The body of the sign-up call. */
  datatype SignUp = SignUp(email: string, password: string, firstName: string, lastName: string, role: string)

  datatype Outcome = Outcome(page: FormStatus, call: Option<SignUp>, navigate: Option<string>, fieldErrors: seq<FieldError>)

  /** `onSubmit` once the sign-up call settles: success goes to the sign-in
      page, failure shows the fixed message and stays; loading ends. */
  function OnSubmit(p: FormStatus, f: Form, reply: Reply<()>): (r: Outcome)
    ensures !r.page.loading
    ensures r.call == Some(SignUp(f.email, f.password, f.firstName, f.lastName, f.role))
    ensures r.navigate.Some? <==> reply.Ok?
    ensures r.navigate.Some? ==> r.navigate.value == LoginPath && r.page.error.None?
    ensures r.navigate.None? ==> r.page.error == Some(RegisterFailed)
  {
    var started := BeginSubmit(p);
    var call := SignUp(f.email, f.password, f.firstName, f.lastName, f.role);
    match reply
    case Ok(_) => Outcome(started.(loading := false), Some(call), Some(LoginPath), [])
    case Err(_) => Outcome(started.(loading := false, error := Some(RegisterFailed)), Some(call), None, [])
  }

  /** The register button: field errors stop everything before the call. */
  function HandleSubmit(p: FormStatus, f: Form, reply: Reply<()>): (r: Outcome)
    ensures r.call.Some? <==> Errors(f) == []
    ensures r.call.None? ==> r.page == p && r.navigate.None? && r.fieldErrors == Errors(f)
    ensures r.call.Some? ==> r == OnSubmit(p, f, reply)
  {
    if Errors(f) == [] then OnSubmit(p, f, reply) else Outcome(p, None, None, Errors(f))
  }

  /** Only acceptable forms reach the server, and when they do, success
      and failure are told apart by where the browser goes. */
  lemma SignUpOnlyWhenAcceptable(p: FormStatus, f: Form, reply: Reply<()>)
    ensures HandleSubmit(p, f, reply).call.Some? <==> Acceptable(f)
    ensures Acceptable(f) ==> (HandleSubmit(p, f, reply).navigate == Some(LoginPath) <==> reply.Ok?)
  {
    ErrorsEmptyIffAcceptable(f);
  }
}
