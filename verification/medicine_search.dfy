/** The catalogue search of medicine/page.tsx as a discrete-event machine:
    keystrokes, the debounce timer firing, and search responses arriving.
    The 500 ms delay itself is not modelled; only which timer is pending. */
module MedicineSearch {
  import opened Common
  import ApiClient

  datatype Medicine = Medicine(id: int, name: string, price: real)

  /** The page state plus the two runtime facts the effect leaves to the
      browser: the pending debounce timer (holding the term its closure
      captured) and the queries whose requests are still in flight. */
  datatype Page = Page(
    searchTerm: string,
    medicines: seq<Medicine>,
    loading: bool,
    error: string,
    timer: Option<string>,
    inFlight: seq<string>)

  datatype Event =
    | Keystroke(term: string)
    | TimerFired
    | ResponseArrived(index: nat, reply: Reply<seq<Medicine>>)

  const MinTermLength := 2
  const FetchFailed := "Failed to fetch medicine data"
  const NoResults := "No results found"
  const TypeMore := "Enter at least 2 characters to search"

  /** After the first render: the mount run of the effect has scheduled a
      timer for the empty term. */
  function Initial(): (p: Page)
    ensures p.searchTerm == "" && p.medicines == [] && !p.loading && p.error == ""
    ensures p.timer == Some("") && p.inFlight == []
  {
    Page("", [], false, "", Some(""), [])
  }

  /** A change of the text field. A new term re-runs the effect: the pending
      timer is cleared and one new timer captures the new term. The same term
      leaves the dependency list unchanged, so nothing is rescheduled. */
  function Keystroke(p: Page, term: string): (r: Page)
    ensures r.searchTerm == term
    ensures r.medicines == p.medicines && r.loading == p.loading && r.error == p.error
    ensures r.inFlight == p.inFlight
    ensures r.timer == (if term == p.searchTerm then p.timer else Some(term))
  {
    if term == p.searchTerm then p else p.(searchTerm := term, timer := Some(term))
  }

  /** The pending timer fires. A captured term shorter than two characters
      returns at once; a longer one starts loading, clears the error and
      sends one search request for exactly that term. */
  function TimerFired(p: Page): (r: (Page, Option<ApiClient.Endpoint>))
    ensures r.0.timer.None? && r.0.searchTerm == p.searchTerm && r.0.medicines == p.medicines
    ensures r.1.Some? <==> p.timer.Some? && |p.timer.value| >= MinTermLength
    ensures r.1.Some? ==>
      && r.1.value == ApiClient.SearchMedicines(p.timer.value)
      && r.0.loading && r.0.error == "" && r.0.inFlight == p.inFlight + [p.timer.value]
    ensures r.1.None? ==> r.0.loading == p.loading && r.0.error == p.error && r.0.inFlight == p.inFlight
  {
    match p.timer
    case None => (p, None)
    case Some(term) =>
      if |term| < MinTermLength then (p.(timer := None), None)
      else
        (p.(timer := None, loading := true, error := "", inFlight := p.inFlight + [term]),
         Some(ApiClient.SearchMedicines(term)))
  }

  /** The in-flight request at `index` settles. Success replaces the list;
      failure sets the error and keeps the previous list. `loading` ends
      either way, whatever else is still in flight; no check is made that the
      response belongs to the latest term. */
  function ResponseArrived(p: Page, index: nat, reply: Reply<seq<Medicine>>): (r: Page)
    ensures index >= |p.inFlight| ==> r == p
    ensures index < |p.inFlight| ==>
      && !r.loading && r.searchTerm == p.searchTerm && r.timer == p.timer
      && r.inFlight == p.inFlight[..index] + p.inFlight[index + 1..]
      && r.medicines == (if reply.Ok? then reply.body else p.medicines)
      && r.error == (if reply.Ok? then p.error else FetchFailed)
  {
    if index >= |p.inFlight| then p
    else
      var rest := p.inFlight[..index] + p.inFlight[index + 1..];
      match reply
      case Ok(ms) => p.(medicines := ms, loading := false, inFlight := rest)
      case Err(_) => p.(error := FetchFailed, loading := false, inFlight := rest)
  }

  function Step(p: Page, e: Event): (Page, Option<ApiClient.Endpoint>)
  {
    match e
    case Keystroke(t) => (Keystroke(p, t), None)
    case TimerFired => TimerFired(p)
    case ResponseArrived(i, reply) => (ResponseArrived(p, i, reply), None)
  }

  /** The line shown under an empty, settled list. */
  function EmptyListMessage(p: Page): (m: Option<string>)
    ensures m.Some? <==> |p.medicines| == 0 && !p.loading
    ensures m == Some(NoResults) <==> |p.medicines| == 0 && !p.loading && p.searchTerm != ""
    ensures m == Some(TypeMore) <==> |p.medicines| == 0 && !p.loading && p.searchTerm == ""
  {
    if |p.medicines| == 0 && !p.loading then
      Some(if Truthy(p.searchTerm) then NoResults else TypeMore)
    else None
  }

  /** The one pending timer, if any, always carries the current term. */
  predicate TimerTracksTerm(p: Page)
  {
    p.timer.None? || p.timer == Some(p.searchTerm)
  }

  lemma InitialTracksTerm()
    ensures TimerTracksTerm(Initial())
  {
  }

  lemma StepTracksTerm(p: Page, e: Event)
    requires TimerTracksTerm(p)
    ensures TimerTracksTerm(Step(p, e).0)
  {
  }

  /** Every request the page sends is for a term of at least two characters,
      and it is the current term at the moment it is sent. */
  lemma RequestsOnlyForLongTerms(p: Page, e: Event)
    requires TimerTracksTerm(p)
    ensures var r := Step(p, e);
      r.1.Some? ==> r.1 == Some(ApiClient.SearchMedicines(p.searchTerm)) && |p.searchTerm| >= MinTermLength
  {
  }

  function TypeAll(p: Page, terms: seq<string>): Page
    decreases |terms|
  {
    if terms == [] then p else TypeAll(Keystroke(p, terms[0]), terms[1..])
  }

  /** Keystrokes that all repeat the current term change nothing. */
  lemma {:induction false} RepeatedTermIsIgnored(p: Page, terms: seq<string>)
    requires forall k :: 0 <= k < |terms| ==> terms[k] == p.searchTerm
    ensures TypeAll(p, terms) == p
    decreases |terms|
  {
    if terms != [] {
      RepeatedTermIsIgnored(Keystroke(p, terms[0]), terms[1..]);
    }
  }

  /** Debounce: after a burst of keystrokes that changed the term at least
      once, exactly one timer is pending and it carries the last term typed;
      the burst sends nothing. */
  lemma {:induction false} BurstLeavesOneTimer(p: Page, terms: seq<string>)
    requires exists k :: 0 <= k < |terms| && terms[k] != p.searchTerm
    ensures |terms| > 0
    ensures TypeAll(p, terms).searchTerm == terms[|terms| - 1]
    ensures TypeAll(p, terms).timer == Some(terms[|terms| - 1])
    ensures TypeAll(p, terms).inFlight == p.inFlight
    decreases |terms|
  {
    var q := Keystroke(p, terms[0]);
    var rest := terms[1..];
    if exists k :: 0 <= k < |rest| && rest[k] != q.searchTerm {
      BurstLeavesOneTimer(q, rest);
      assert terms[|terms| - 1] == rest[|rest| - 1];
    } else {
      RepeatedTermIsIgnored(q, rest);
      if rest != [] {
        assert rest[|rest| - 1] == q.searchTerm;
      }
    }
  }

  /** The burst followed by the timer firing sends at most one request, for
      the last term, and only if that term has two characters or more. */
  lemma BurstThenFire(p: Page, terms: seq<string>)
    requires exists k :: 0 <= k < |terms| && terms[k] != p.searchTerm
    ensures |terms| > 0
    ensures var last := terms[|terms| - 1];
      var fired := TimerFired(TypeAll(p, terms));
      && (fired.1.Some? <==> |last| >= MinTermLength)
      && (fired.1.Some? ==> fired.1.value == ApiClient.SearchMedicines(last))
  {
    BurstLeavesOneTimer(p, terms);
  }

  /** No stale-response guard: when "asp" and then "aspirin" are both in
      flight and the older response arrives last, its list is what is shown
      although the field reads "aspirin". */
  lemma OlderResponseOverwritesNewer(a: seq<Medicine>, b: seq<Medicine>)
    ensures var p0 := Keystroke(Initial(), "asp");
      var p1 := TimerFired(p0).0;
      var p2 := TimerFired(Keystroke(p1, "aspirin")).0;
      var p3 := ResponseArrived(p2, 1, Ok(b));
      var p4 := ResponseArrived(p3, 0, Ok(a));
      && p2.inFlight == ["asp", "aspirin"]
      && p4.searchTerm == "aspirin" && p4.medicines == a
  {
    var p0 := Keystroke(Initial(), "asp");
    var p1 := TimerFired(p0).0;
    assert p1.inFlight == ["asp"];
    var p2 := TimerFired(Keystroke(p1, "aspirin")).0;
    assert p2.inFlight == ["asp", "aspirin"];
    var p3 := ResponseArrived(p2, 1, Ok(b));
    assert p3.inFlight == ["asp"];
  }
}
