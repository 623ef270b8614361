/** The HTTP gateway of api/client.tsx: the request interceptor that attaches
    the session cookie as a bearer credential, and the verb and path of every
    call in `prescriptionApi` (the admin page's two direct calls use the same
    paths). Paths are relative to the configured `/api` base URL. */
module ApiClient {
  import opened Common
  import Decimal
  import Models

  datatype Verb = Get | Post | Put

  /** The remote calls, one constructor per member of `prescriptionApi`. */
  datatype Endpoint =
    | Create(payload: Models.PrescriptionRequest)
    | Submit(id: int)
    | Incomplete(date: string)
    | Visit(visitId: int)
    | SearchMedicines(query: string)
    | UploadMedicines
    | UpdateCache
    | MedicineById(medicineId: string)

  /** What the interceptor receives and returns: everything axios would send. */
  datatype RequestConfig = RequestConfig(
    verb: Verb,
    url: string,
    headers: map<string, string>,
    data: Option<Models.PrescriptionRequest>)

  const AuthorizationHeader := "Authorization"
  const ContentTypeHeader := "Content-Type"
  const BearerPrefix := "Bearer "
  const PrescriptionsBase := "/prescriptions/v1"
  const MedicinesBase := "/medicines/v1"
  const SubmitSuffix := "/submit"
  const SearchPrefix := "/medicines/v1/search?query="

  function VerbOf(e: Endpoint): (v: Verb)
    ensures v == Put <==> e.Submit?
    ensures v == Post <==> e.Create? || e.UploadMedicines? || e.UpdateCache?
  {
    match e
    case Create(_) => Post
    case Submit(_) => Put
    case UploadMedicines => Post
    case UpdateCache => Post
    case _ => Get
  }

  /** Path of a call. Arguments are spliced in as they are, without URL encoding. */
  function PathOf(e: Endpoint): (p: string)
    ensures (e.Create? || e.Submit? || e.Incomplete? || e.Visit?) ==> StartsWith(p, PrescriptionsBase)
    ensures (e.SearchMedicines? || e.UploadMedicines? || e.UpdateCache? || e.MedicineById?) ==> StartsWith(p, MedicinesBase)
    ensures e.Create? ==> p == PrescriptionsBase
    ensures e.UploadMedicines? ==> p == MedicinesBase + "/upload"
    ensures e.UpdateCache? ==> p == MedicinesBase + "/cache"
  {
    match e
    case Create(_) => PrescriptionsBase
    case Submit(id) => PrescriptionsBase + "/" + Decimal.IntToString(id) + SubmitSuffix
    case Incomplete(date) => PrescriptionsBase + "/incomplete?date=" + date
    case Visit(id) => PrescriptionsBase + "/visits/" + Decimal.IntToString(id)
    case SearchMedicines(q) => SearchPrefix + q
    case UploadMedicines => MedicinesBase + "/upload"
    case UpdateCache => MedicinesBase + "/cache"
    case MedicineById(id) => MedicinesBase + "/" + id
  }

  /** The config `apiClient` builds before interceptors run: the JSON content
      type is its default header; only `create` sends a body, and that body
      is the create payload itself. */
  function ConfigFor(e: Endpoint): (c: RequestConfig)
    ensures c.verb == VerbOf(e) && c.url == PathOf(e)
    ensures AuthorizationHeader !in c.headers
    ensures c.data.Some? <==> e.Create?
    ensures e.Create? ==> c.data == Some(e.payload)
  {
    RequestConfig(
      VerbOf(e),
      PathOf(e),
      map[ContentTypeHeader := "application/json"],
      if e.Create? then Some(e.payload) else None)
  }

  /** The request interceptor, given the `token` cookie as read at send time.
      A truthy token sets the bearer header; otherwise the config is
      returned as it came. No other field is touched either way. */
  function Intercept(config: RequestConfig, token: Option<string>): (r: RequestConfig)
    ensures r.verb == config.verb && r.url == config.url && r.data == config.data
    ensures forall h :: h in config.headers && h != AuthorizationHeader ==> h in r.headers && r.headers[h] == config.headers[h]
    ensures forall h :: h in r.headers ==> h in config.headers || h == AuthorizationHeader
    ensures Present(token) ==> AuthorizationHeader in r.headers && r.headers[AuthorizationHeader] == BearerPrefix + token.value
    ensures !Present(token) ==> r.headers == config.headers
  {
    if Present(token) then
      config.(headers := config.headers[AuthorizationHeader := BearerPrefix + token.value])
    else
      config
  }

  /** A request as it leaves the client. */
  function Outgoing(e: Endpoint, token: Option<string>): RequestConfig
  {
    Intercept(ConfigFor(e), token)
  }

  /** Reads a bearer credential back out of an `Authorization` value. */
  function BearerTokenOf(value: string): Option<string>
  {
    if StartsWith(value, BearerPrefix) then Some(value[|BearerPrefix|..]) else None
  }

  /** Every outgoing request carries exactly the cookie's credential when the
      cookie is truthy, and no `Authorization` header at all otherwise. */
  lemma OutgoingCarriesCookie(e: Endpoint, token: Option<string>)
    ensures var r := Outgoing(e, token);
      && (AuthorizationHeader in r.headers <==> Present(token))
      && (Present(token) ==> BearerTokenOf(r.headers[AuthorizationHeader]) == token)
      && r.verb == VerbOf(e) && r.url == PathOf(e)
  {
    var r := Outgoing(e, token);
    if Present(token) {
      var v := BearerPrefix + token.value;
      assert r.headers[AuthorizationHeader] == v;
      assert v[..|BearerPrefix|] == BearerPrefix;
      assert v[|BearerPrefix|..] == token.value;
    }
  }

  /** Running the interceptor twice with the same cookie changes nothing more. */
  lemma InterceptIdempotent(config: RequestConfig, token: Option<string>)
    ensures Intercept(Intercept(config, token), token) == Intercept(config, token)
  {
  }

  /** Recovers the id from a submit path. */
  function SubmittedIdOf(path: string): Option<int>
  {
    var pre := PrescriptionsBase + "/";
    if |pre| + |SubmitSuffix| <= |path| && path[..|pre|] == pre && path[|path| - |SubmitSuffix|..] == SubmitSuffix then
      Decimal.ParseInt(path[|pre|..|path| - |SubmitSuffix|])
    else
      None
  }

  /** The submit path names exactly the prescription it was built for. */
  lemma SubmitPathRoundTrip(id: int)
    ensures SubmittedIdOf(PathOf(Submit(id))) == Some(id)
  {
    var pre := PrescriptionsBase + "/";
    var digits := Decimal.IntToString(id);
    var path := PathOf(Submit(id));
    assert path == pre + digits + SubmitSuffix;
    assert path[..|pre|] == pre;
    assert path[|path| - |SubmitSuffix|..] == SubmitSuffix;
    assert path[|pre|..|path| - |SubmitSuffix|] == digits;
    Decimal.IntRoundTrip(id);
  }

  /** Two submissions share a path only if they submit the same prescription. */
  lemma SubmitPathInjective(a: int, b: int)
    ensures PathOf(Submit(a)) == PathOf(Submit(b)) ==> a == b
  {
    SubmitPathRoundTrip(a);
    SubmitPathRoundTrip(b);
  }

  /** Recovers the raw query from a search path. */
  function SearchQueryOf(path: string): Option<string>
  {
    if StartsWith(path, SearchPrefix) then Some(path[|SearchPrefix|..]) else None
  }

  /** The search query reaches the path verbatim (it is not encoded). */
  lemma SearchPathRoundTrip(q: string)
    ensures SearchQueryOf(PathOf(SearchMedicines(q))) == Some(q)
    ensures PathOf(SearchMedicines(q)) == SearchPrefix + q
  {
    var path := SearchPrefix + q;
    assert path[..|SearchPrefix|] == SearchPrefix;
    assert path[|SearchPrefix|..] == q;
  }
}
