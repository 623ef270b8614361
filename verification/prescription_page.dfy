/** The prescription page of prescription/page.tsx around its draft: the
    picker's search gate, and the create-then-submit sequence of `onSubmit`.
    Replies of the remote calls are inputs; the calls made are outputs. */
module PrescriptionPage {
  import opened Common
  import opened PrescriptionDraft
  import ApiClient

  datatype Page = Page(
    draft: Draft,
    searchResults: seq<MedicineOption>,
    searching: bool,
    loading: bool,
    serverError: Option<string>,
    success: Option<string>)

  const SubmittedMessage := "Prescription created and submitted successfully!"
  const MissingIdMessage := "Failed to retrieve prescription ID for submission."
  const DefaultErrorMessage := "An error occurred"
  const MinQueryLength := 2

  function Initial(): Page
  {
    Page(InitialDraft(), [], false, false, None, None)
  }

  // ---------------------------------------------------------------------
  // Search for the medicine picker.

  /** Typing into a picker. A query shorter than two characters empties the
      results and sends nothing; a longer one raises `searching` and sends
      one search for that query. */
  function SearchTyped(p: Page, query: string): (r: (Page, Option<ApiClient.Endpoint>))
    ensures r.0.draft == p.draft && r.0.loading == p.loading
    ensures r.0.serverError == p.serverError && r.0.success == p.success
    ensures r.1.Some? <==> |query| >= MinQueryLength
    ensures r.1.Some? ==>
      && r.1.value == ApiClient.SearchMedicines(query)
      && r.0.searching && r.0.searchResults == p.searchResults
    ensures r.1.None? ==> r.0.searchResults == [] && r.0.searching == p.searching
  {
    if |query| < MinQueryLength then (p.(searchResults := []), None)
    else (p.(searching := true), Some(ApiClient.SearchMedicines(query)))
  }

  /** The search settles. The results become the reply's `content`, or []
      when the reply has none or the call failed; `searching` ends. */
  function SearchSettled(p: Page, reply: Reply<Option<seq<MedicineOption>>>): (r: Page)
    ensures !r.searching
    ensures r.draft == p.draft && r.loading == p.loading
    ensures r.serverError == p.serverError && r.success == p.success
    ensures r.searchResults == (if reply.Ok? && reply.body.Some? then reply.body.value else [])
  {
    match reply
    case Ok(Some(content)) => p.(searchResults := content, searching := false)
    case Ok(None) => p.(searchResults := [], searching := false)
    case Err(_) => p.(searchResults := [], searching := false)
  }

  /** The picker of line `index` changes (the same edit as on the draft). */
  function Pick(p: Page, index: nat, choice: Option<MedicineOption>): (r: Page)
    requires index < |p.draft.lines|
    ensures r.draft == Select(p.draft, index, choice)
    ensures r.(draft := p.draft) == p
  {
    p.(draft := Select(p.draft, index, choice))
  }

  /** The picker's searches are neither debounced nor ordered. With a search
      for `q1` and then one for `q2` outstanding, the reply to `q1` settling
      first ends `searching` and lists `q1`'s results, although the search
      for `q2` is still pending; the reply to `q2` then replaces them. */
  lemma OverlappingSearchesSettleInArrivalOrder(p: Page, q1: string, q2: string, first: seq<MedicineOption>, second: seq<MedicineOption>)
    requires |q1| >= MinQueryLength && |q2| >= MinQueryLength
    ensures var (a, c1) := SearchTyped(p, q1);
      var (b, c2) := SearchTyped(a, q2);
      var settled := SearchSettled(b, Ok(Some(first)));
      && c1 == Some(ApiClient.SearchMedicines(q1)) && c2 == Some(ApiClient.SearchMedicines(q2))
      && !settled.searching && settled.searchResults == first
      && SearchSettled(settled, Ok(Some(second))).searchResults == second
      && settled.draft == p.draft
  {
  }

  /** A short query always leaves the picker empty and quiet, whatever
      search was outstanding: no call, and no results from before. */
  lemma ShortQueryClearsResults(p: Page, query: string)
    requires |query| < MinQueryLength
    ensures SearchTyped(p, query).1.None?
    ensures SearchTyped(p, query).0.searchResults == []
    ensures SearchSettled(SearchTyped(p, query).0, Err("")).searchResults == []
  {
  }

  // ---------------------------------------------------------------------
  // Submission.

  /** The message a caught error shows: its own, or the fallback when empty. */
  function ErrorText(message: string): (t: string)
    ensures Truthy(t)
    ensures Truthy(message) ==> t == message
    ensures !Truthy(message) ==> t == DefaultErrorMessage
  {
    if Truthy(message) then message else DefaultErrorMessage
  }

  /** The create call returns the body's `id`, when the body has one. A
      number is truthy unless it is 0. */
  predicate TruthyId(id: Option<int>)
  {
    id.Some? && id.value != 0
  }

  /** Start of `onSubmit`: loading, and both messages cleared. */
  function Begin(p: Page): (r: Page)
    ensures r.loading && r.serverError.None? && r.success.None?
    ensures r.draft == p.draft && r.searchResults == p.searchResults && r.searching == p.searching
  {
    p.(loading := true, serverError := None, success := None)
  }

  datatype Submission = Submission(page: Page, calls: seq<ApiClient.Endpoint>)

  /** `onSubmit` on a validated draft. Create is called first; submit is
      called only when create returned a truthy id, and with that id. Every
      failure, including a failed submit after a successful create, lands in
      the one `serverError`. */
  function OnSubmit(p: Page, create: Reply<Option<int>>, submit: Reply<()>): (r: Submission)
    requires Submittable(p.draft)
    ensures !r.page.loading
    ensures r.page.draft == p.draft
    ensures r.page.searchResults == p.searchResults && r.page.searching == p.searching
    ensures 1 <= |r.calls| <= 2 && r.calls[0] == ApiClient.Create(ToRequest(p.draft))
    ensures |r.calls| == 2 <==> create.Ok? && TruthyId(create.body)
    ensures |r.calls| == 2 ==> r.calls[1] == ApiClient.Submit(create.body.value)
    ensures r.page.success.Some? <==> |r.calls| == 2 && submit.Ok?
    ensures r.page.success.Some? ==> r.page.success.value == SubmittedMessage
    ensures r.page.serverError.Some? <==> r.page.success.None?
    ensures create.Ok? && !TruthyId(create.body) ==> r.page.serverError == Some(MissingIdMessage)
    ensures create.Err? ==> r.page.serverError == Some(ErrorText(create.message))
    ensures |r.calls| == 2 && submit.Err? ==> r.page.serverError == Some(ErrorText(submit.message))
  {
    var started := Begin(p);
    var created := ApiClient.Create(ToRequest(p.draft));
    match create
    case Err(m) =>
      Submission(started.(loading := false, serverError := Some(ErrorText(m))), [created])
    case Ok(id) =>
      if !TruthyId(id) then
        Submission(started.(loading := false, serverError := Some(MissingIdMessage)), [created])
      else
        var calls := [created, ApiClient.Submit(id.value)];
        match submit
        case Ok(_) => Submission(started.(loading := false, success := Some(SubmittedMessage)), calls)
        case Err(m) => Submission(started.(loading := false, serverError := Some(ErrorText(m))), calls)
  }

  datatype Attempt = Attempt(submission: Submission, fieldErrors: seq<FieldError>)

  /** The submit button. An invalid draft shows its field errors and makes
      no call; a valid one runs `onSubmit`. */
  function HandleSubmit(p: Page, create: Reply<Option<int>>, submit: Reply<()>): (r: Attempt)
    ensures r.fieldErrors == Errors(p.draft)
    ensures r.submission.calls == [] <==> !Submittable(p.draft)
    ensures !Submittable(p.draft) ==> r.submission.page == p
    ensures r.submission.page.draft == p.draft
    ensures Submittable(p.draft) ==> r.submission == OnSubmit(p, create, submit) && r.fieldErrors == []
  {
    ErrorsEmptyIffSubmittable(p.draft);
    if Submittable(p.draft) then Attempt(OnSubmit(p, create, submit), [])
    else Attempt(Submission(p, []), Errors(p.draft))
  }

  /** The submit button is disabled while a submission is in progress. */
  predicate SubmitEnabled(p: Page)
  {
    !p.loading
  }

  lemma BeginDisablesSubmit(p: Page)
    ensures !SubmitEnabled(Begin(p))
    ensures SubmitEnabled(Initial())
  {
  }

  /** A submit failure after a successful create leaves the page exactly as
      a failed create with the same message does: the page cannot tell that
      a prescription was created. */
  lemma PartialFailureLooksLikeTotalFailure(p: Page, id: int, message: string, anySubmit: Reply<()>)
    requires Submittable(p.draft) && id != 0
    ensures OnSubmit(p, Ok(Some(id)), Err(message)).page == OnSubmit(p, Err(message), anySubmit).page
    ensures |OnSubmit(p, Ok(Some(id)), Err(message)).calls| == 2
    ensures |OnSubmit(p, Err(message), anySubmit).calls| == 1
  {
  }

  /** When no submit call is made, its reply has no effect at all. */
  lemma SubmitReplyIrrelevantWithoutId(p: Page, create: Reply<Option<int>>, s1: Reply<()>, s2: Reply<()>)
    requires Submittable(p.draft) && !(create.Ok? && TruthyId(create.body))
    ensures OnSubmit(p, create, s1) == OnSubmit(p, create, s2)
  {
  }

  /** A success leaves the draft in the form, so submitting again sends the
      same create payload a second time. */
  lemma ResubmitSendsSamePayload(p: Page, id: int, create: Reply<Option<int>>, submit: Reply<()>)
    requires Submittable(p.draft) && id != 0
    ensures var first := OnSubmit(p, Ok(Some(id)), Ok(()));
      && first.page.success == Some(SubmittedMessage)
      && Submittable(first.page.draft)
      && OnSubmit(first.page, create, submit).calls[0] == first.calls[0]
  {
  }
}
