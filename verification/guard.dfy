/** The route guard of components/ProtectedRoute.tsx: from the session's
    `loading` flag and `user` it decides what to render and whether to send
    the browser to the sign-in page. */
module Guard {
  import opened Common
  import Auth

  /** What the guard renders: the "Loading..." placeholder, nothing, or its children. */
  datatype View = Placeholder | Nothing | Children

  datatype Decision = Decision(view: View, redirect: Option<string>)

  function Decide(loading: bool, user: Option<Auth.User>): (d: Decision)
    ensures d.view == Placeholder <==> loading
    ensures d.view == Children <==> !loading && user.Some?
    ensures d.redirect.Some? <==> !loading && user.None?
    ensures d.redirect.Some? ==> d.redirect.value == LoginPath
  {
    if loading then Decision(Placeholder, None)
    else if user.None? then Decision(Nothing, Some(LoginPath))
    else Decision(Children, None)
  }

  function DecideFor(s: Auth.Session): Decision
  {
    Decide(s.loading, s.user)
  }

  /** The guard never redirects while the session is resolving, and never
      shows protected content without a user. */
  lemma NoRedirectWhileLoading(loading: bool, user: Option<Auth.User>)
    ensures loading ==> Decide(loading, user).redirect.None?
    ensures Decide(loading, user).view == Children ==> user.Some?
  {
  }

  /** Roles are never consulted: any two signed-in users get the same decision. */
  lemma RolesNotConsulted(loading: bool, a: Auth.User, b: Auth.User)
    ensures Decide(loading, Some(a)) == Decide(loading, Some(b))
  {
  }

  /** Across the bootstrap: right after mount with a truthy cookie the guard
      waits; once the validate call has settled it never waits again, and it
      redirects exactly when the reply did not sign anyone in. */
  lemma GuardAcrossBootstrap(cookie: Option<string>, reply: Reply<Auth.Validation>)
    requires Present(cookie)
    ensures var mounted := Auth.StepProvider(Auth.Fresh(cookie), Auth.Mounted).0;
      && DecideFor(mounted.session).view == Placeholder
      && var settled := Auth.StepProvider(mounted, Auth.ValidateReturned(reply)).0;
      && DecideFor(settled.session).view != Placeholder
      && (DecideFor(settled.session).redirect.Some? <==> !(reply.Ok? && reply.body.isValid))
  {
  }

  /** Without a cookie the first render after mount already redirects. */
  lemma GuardWithoutCookie(cookie: Option<string>)
    requires !Present(cookie)
    ensures DecideFor(Auth.StepProvider(Auth.Fresh(cookie), Auth.Mounted).0.session).redirect == Some(LoginPath)
  {
  }

  /** In any consistent provider the guard is waiting whenever a validate
      call is pending, so a pending bootstrap is never cut short by a redirect. */
  lemma PendingValidationIsNeverRedirected(p: Auth.Provider)
    requires Auth.Consistent(p) && p.validating
    ensures DecideFor(p.session).view == Placeholder && DecideFor(p.session).redirect.None?
  {
  }
}
