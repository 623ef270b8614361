/** The session store of contexts/AuthContext.tsx: the signed-in `user`, the
    `loading` flag and the `token` cookie, with its three operations (the
    bootstrap run by the mount effect, `login`, `logout`). Network calls are
    inputs; the calls the store issues are outputs. */
module Auth {
  import opened Common

  datatype User = User(id: string, email: string, firstName: string, lastName: string, roles: seq<string>)

  /** The provider's state. `token` is the `token` cookie as react-cookie reports it. */
  datatype Session = Session(user: Option<User>, loading: bool, token: Option<string>)

  /** Body of the validate response. */
  datatype Validation = Validation(
    isValid: bool, userId: string, email: string, firstName: string, lastName: string, roles: seq<string>)

  /** Body of the sign-in response; `userInfo` may be missing from a malformed reply. */
  datatype SignInBody = SignInBody(token: string, userInfo: Option<User>)

  /** Calls to the authentication service. The validate call carries its
      `Authorization` value; the sign-out call is sent without credentials. */
  datatype AuthCall =
    | ValidateCall(authorization: string)
    | SignInCall(email: string, password: string)
    | SignOutCall

  /** A transition together with the calls it issues. */
  datatype Step = Step(session: Session, calls: seq<AuthCall>)

  /** `login` either returns or throws; either way the state is what it left. */
  datatype LoginOutcome = LoginOutcome(session: Session, thrown: bool)

  /** The provider as first rendered, with whatever cookie the browser holds. */
  function Initial(cookie: Option<string>): (s: Session)
    ensures s.user.None? && s.loading && s.token == cookie
  {
    Session(None, true, cookie)
  }

  /** The mount effect: with a truthy cookie it sends the validate call and
      keeps `loading`; without one it only ends `loading`. */
  function Bootstrap(s: Session): (r: Step)
    ensures r.session.user == s.user && r.session.token == s.token
    ensures r.session.loading <==> s.loading && Present(s.token)
    ensures |r.calls| <= 1
    ensures |r.calls| == 1 <==> Present(s.token)
    ensures Present(s.token) ==> r.calls[0] == ValidateCall("Bearer " + s.token.value)
  {
    if Present(s.token) then Step(s, [ValidateCall("Bearer " + s.token.value)])
    else Step(s.(loading := false), [])
  }

  function UserOf(v: Validation): (u: User)
    ensures u.id == v.userId && u.email == v.email && u.roles == v.roles
    ensures u.firstName == v.firstName && u.lastName == v.lastName
  {
    User(v.userId, v.email, v.firstName, v.lastName, v.roles)
  }

  /** The validate call settles. A valid reply signs the user in; an invalid
      reply changes nothing but `loading`; a failed call deletes the cookie.
      `loading` ends in every case. */
  function ValidateSettled(s: Session, reply: Reply<Validation>): (r: Session)
    ensures !r.loading
    ensures r.token == (if reply.Err? then None else s.token)
    ensures r.user == (if reply.Ok? && reply.body.isValid then Some(UserOf(reply.body)) else s.user)
  {
    match reply
    case Ok(v) => if v.isValid then s.(user := Some(UserOf(v)), loading := false) else s.(loading := false)
    case Err(_) => s.(token := None, loading := false)
  }

  /** `login` after the sign-in call settles. A failed call throws before any
      state change. A reply stores its token (path '/') and then reads
      `userInfo`; a reply without `userInfo` throws at that read, after the
      cookie was already written. `loading` is never touched. */
  function Login(s: Session, reply: Reply<SignInBody>): (r: LoginOutcome)
    ensures r.session.loading == s.loading
    ensures reply.Err? ==> r.thrown && r.session == s
    ensures reply.Ok? ==> r.session.token == Some(reply.body.token)
    ensures r.thrown <==> reply.Err? || reply.body.userInfo.None?
    ensures r.session.user == (if r.thrown then s.user else reply.body.userInfo)
  {
    match reply
    case Err(_) => LoginOutcome(s, true)
    case Ok(b) =>
      var stored := s.(token := Some(b.token));
      match b.userInfo
      case None => LoginOutcome(stored, true)
      case Some(u) => LoginOutcome(stored.(user := Some(u)), false)
  }

  /** `logout` clears the cookie and the user at once and fires the sign-out
      call without waiting for it; its result is not an input at all. */
  function Logout(s: Session): (r: Step)
    ensures r.session.user.None? && r.session.token.None?
    ensures r.session.loading == s.loading
    ensures r.calls == [SignOutCall]
  {
    Step(s.(token := None, user := None), [SignOutCall])
  }

  // ---------------------------------------------------------------------
  // The provider over time: the session plus the runtime facts the source
  // leaves to React and to pending promises.

  /** `effectRan` records that the mount effect (empty dependency list) has
      run; `validating` records that a validate call is still pending. */
  datatype Provider = Provider(session: Session, effectRan: bool, validating: bool)

  datatype Event =
    | Mounted
    | ValidateReturned(validation: Reply<Validation>)
    | LoginCalled(email: string, password: string, signIn: Reply<SignInBody>)
    | LogoutCalled

  function Fresh(cookie: Option<string>): Provider
  {
    Provider(Initial(cookie), false, false)
  }

  /** One event. The mount effect only runs the first time; a validate result
      only arrives while its call is pending. Login and logout are applied
      whenever they happen: nothing orders them against a pending validate. */
  function StepProvider(p: Provider, e: Event): (r: (Provider, seq<AuthCall>))
    ensures e.Mounted? && !p.effectRan ==> r.0.effectRan
    ensures p.effectRan ==> r.0.effectRan
  {
    match e
    case Mounted =>
      if p.effectRan then (p, [])
      else
        var b := Bootstrap(p.session);
        (Provider(b.session, true, |b.calls| == 1), b.calls)
    case ValidateReturned(v) =>
      if p.validating then (Provider(ValidateSettled(p.session, v), p.effectRan, false), [])
      else (p, [])
    case LoginCalled(email, password, reply) =>
      (p.(session := Login(p.session, reply).session), [SignInCall(email, password)])
    case LogoutCalled =>
      var l := Logout(p.session);
      (p.(session := l.session), l.calls)
  }

  function Run(p: Provider, events: seq<Event>): (Provider, seq<AuthCall>)
    decreases |events|
  {
    if events == [] then (p, [])
    else
      var first := StepProvider(p, events[0]);
      var rest := Run(first.0, events[1..]);
      (rest.0, first.1 + rest.1)
  }

  function CountValidate(calls: seq<AuthCall>): nat
  {
    if calls == [] then 0
    else (if calls[0].ValidateCall? then 1 else 0) + CountValidate(calls[1..])
  }

  lemma CountValidateAppend(a: seq<AuthCall>, b: seq<AuthCall>)
    ensures CountValidate(a + b) == CountValidate(a) + CountValidate(b)
  {
    if a != [] {
      assert (a + b)[1..] == a[1..] + b;
      CountValidateAppend(a[1..], b);
    } else {
      assert a + b == b;
    }
  }

  /** Once the mount effect has run, no further validate call is ever sent. */
  lemma {:induction false} NoValidateAfterMount(p: Provider, events: seq<Event>)
    requires p.effectRan
    ensures CountValidate(Run(p, events).1) == 0
    decreases |events|
  {
    if events != [] {
      var first := StepProvider(p, events[0]);
      NoValidateAfterMount(first.0, events[1..]);
      assert CountValidate(first.1) == 0;
      CountValidateAppend(first.1, Run(first.0, events[1..]).1);
    }
  }

  /** The bootstrap runs once: over any history of a freshly created
      provider, at most one validate call is sent. */
  lemma {:induction false} ValidateAtMostOnce(p: Provider, events: seq<Event>)
    requires !p.effectRan
    ensures CountValidate(Run(p, events).1) <= 1
    decreases |events|
  {
    if events != [] {
      var first := StepProvider(p, events[0]);
      var rest := Run(first.0, events[1..]);
      CountValidateAppend(first.1, rest.1);
      if first.0.effectRan {
        NoValidateAfterMount(first.0, events[1..]);
      } else {
        ValidateAtMostOnce(first.0, events[1..]);
      }
      assert CountValidate(first.1) <= 1;
    }
  }

  /** What a provider keeps true while identity transitions are serial: a
      signed-in user always has a cookie; before the bootstrap, and while its
      validate call is pending, nobody is signed in and `loading` holds; and
      the cookie that was sent for validation is still set. */
  predicate Consistent(p: Provider)
  {
    && (p.session.user.Some? ==> p.session.token.Some?)
    && (!p.effectRan ==> !p.validating && p.session.user.None? && p.session.loading)
    && (p.validating ==> p.session.user.None? && Present(p.session.token) && p.session.loading)
  }

  /** A login or logout before the bootstrap has finished: the source does not
      order these against the validate call. */
  predicate Races(p: Provider, e: Event)
  {
    (!p.effectRan || p.validating) && (e.LoginCalled? || e.LogoutCalled?)
  }

  lemma FreshIsConsistent(cookie: Option<string>)
    ensures Consistent(Fresh(cookie))
  {
  }

  /** Every event that does not race a pending validation keeps the provider consistent. */
  lemma SerialStepKeepsConsistency(p: Provider, e: Event)
    requires Consistent(p) && !Races(p, e)
    ensures Consistent(StepProvider(p, e).0)
  {
  }

  /** Without a guard, a logout while the validate call is pending followed
      by a valid reply leaves a signed-in user with no cookie. */
  lemma LogoutRacingValidationLosesCookie()
    ensures var u := Validation(true, "7", "a@b.co", "A", "B", ["ROLE_DOCTOR"]);
      var p := Run(Fresh(Some("t")), [Mounted, LogoutCalled, ValidateReturned(Ok(u))]).0;
      p.session.user.Some? && p.session.token.None?
  {
    var u := Validation(true, "7", "a@b.co", "A", "B", ["ROLE_DOCTOR"]);
    var p0 := Fresh(Some("t"));
    var p1 := StepProvider(p0, Mounted).0;
    assert p1.validating;
    var p2 := StepProvider(p1, LogoutCalled).0;
    assert p2.validating && p2.session.token.None?;
    var p3 := StepProvider(p2, ValidateReturned(Ok(u))).0;
    assert p3.session.user.Some? && p3.session.token.None?;
    var last := [ValidateReturned(Ok(u))];
    assert Run(p2, last).0 == p3 by { assert last[1..] == []; }
    assert Run(p1, [LogoutCalled] + last).0 == p3 by { assert ([LogoutCalled] + last)[1..] == last; }
    assert Run(p0, [Mounted, LogoutCalled] + last).0 == p3 by {
      assert ([Mounted, LogoutCalled] + last)[1..] == [LogoutCalled] + last;
    }
    assert [Mounted, LogoutCalled] + last == [Mounted, LogoutCalled, ValidateReturned(Ok(u))];
  }
}
