/** The administrator panel of admin/page.tsx: the role gate on its view,
    and the state kept around its two actions (reloading the catalogue from
    the spreadsheet and rebuilding the catalogue cache). */
module AdminPanel {
  import opened Common
  import Auth
  import ApiClient

  const AdminRole := "ROLE_ADMIN"

  datatype View = NotAuthorized | Panel

  /** The view rendered for the signed-in user, if any. */
  function ViewFor(user: Option<Auth.User>): (v: View)
    ensures v == NotAuthorized <==> user.None? || AdminRole !in user.value.roles
  {
    if user.Some? && AdminRole in user.value.roles then Panel else NotAuthorized
  }

  datatype Action = Upload | RefreshCache

  datatype State = State(loading: bool, error: string, success: string)

  function EndpointOf(a: Action): ApiClient.Endpoint
  {
    match a
    case Upload => ApiClient.UploadMedicines
    case RefreshCache => ApiClient.UpdateCache
  }

  function SuccessMessage(a: Action): string
  {
    match a
    case Upload => "Medicines successfully updated"
    case RefreshCache => "Cache successfully updated"
  }

  function FailureMessage(a: Action): string
  {
    match a
    case Upload => "Failed to update medicines"
    case RefreshCache => "Failed to update cache"
  }

  function Initial(): State
  {
    State(false, "", "")
  }

  /** Both buttons are disabled while an action runs. */
  predicate ButtonsEnabled(s: State)
  {
    !s.loading
  }

  /** Start of an action: loading, and the error cleared. The success
      message is left as it was. */
  function Begin(s: State): (r: State)
    ensures r.loading && r.error == "" && r.success == s.success
  {
    s.(loading := true, error := "")
  }

  /** An action's call settles: success writes the action's success message,
      failure its failure message; loading ends. */
  function Finish(s: State, a: Action, reply: Reply<()>): (r: State)
    ensures !r.loading
    ensures reply.Ok? ==> r.success == SuccessMessage(a) && r.error == s.error
    ensures reply.Err? ==> r.error == FailureMessage(a) && r.success == s.success
  {
    match reply
    case Ok(_) => s.(loading := false, success := SuccessMessage(a))
    case Err(_) => s.(loading := false, error := FailureMessage(a))
  }

  /** A click on an action button. Only administrators see the buttons, and
      a disabled button does nothing. */
  function Click(user: Option<Auth.User>, s: State, a: Action, reply: Reply<()>): (r: (State, seq<ApiClient.Endpoint>))
    ensures r.1 != [] <==> ViewFor(user) == Panel && ButtonsEnabled(s)
    ensures r.1 != [] ==> r.1 == [EndpointOf(a)] && r.0 == Finish(Begin(s), a, reply)
    ensures r.1 == [] ==> r.0 == s
  {
    if ViewFor(user) == Panel && ButtonsEnabled(s) then (Finish(Begin(s), a, reply), [EndpointOf(a)])
    else (s, [])
  }

  /** Nothing clears an earlier success: after a successful upload, a failed
      cache refresh shows its error next to the upload's success message. */
  lemma EarlierSuccessSurvivesFailure(user: Option<Auth.User>, s: State, m: string)
    requires ViewFor(user) == Panel && ButtonsEnabled(s)
    ensures var afterUpload := Click(user, s, Upload, Ok(())).0;
      var afterCache := Click(user, afterUpload, RefreshCache, Err(m)).0;
      && afterCache.success == "Medicines successfully updated"
      && afterCache.error == "Failed to update cache"
  {
  }

  /** The buttons start enabled; an action in progress disables both; a
      settled one enables them again. */
  lemma ActionsNeverOverlap(user: Option<Auth.User>, s: State, a: Action, b: Action, reply: Reply<()>, other: Reply<()>)
    ensures ButtonsEnabled(Initial())
    ensures !ButtonsEnabled(Begin(s))
    ensures Click(user, Begin(s), b, other) == (Begin(s), [])
    ensures ButtonsEnabled(Click(user, s, a, reply).0) || s.loading
  {
  }

  /** The two buttons reach different endpoints: both POST, to different paths. */
  lemma ActionsHitDistinctPaths(a: Action, b: Action)
    requires a != b
    ensures ApiClient.PathOf(EndpointOf(a)) != ApiClient.PathOf(EndpointOf(b))
    ensures ApiClient.VerbOf(EndpointOf(a)) == ApiClient.Post
  {
    var u := ApiClient.PathOf(ApiClient.UploadMedicines);
    var c := ApiClient.PathOf(ApiClient.UpdateCache);
    assert u[|ApiClient.MedicinesBase| + 1] == 'u' && c[|ApiClient.MedicinesBase| + 1] == 'c';
  }

  /** The gate looks only at the role list: any user holding the admin role
      sees the panel, whatever else they hold. */
  lemma GateIsRoleMembership(u: Auth.User, extra: seq<string>)
    ensures ViewFor(Some(u.(roles := u.roles + [AdminRole] + extra))) == Panel
    ensures ViewFor(None) == NotAuthorized
  {
    assert AdminRole in u.roles + [AdminRole] + extra;
  }
}
