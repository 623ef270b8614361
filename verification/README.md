# Clinic front-end: session, guard, search and prescription rules in Dafny

This project models the behaviour inside a small Next.js clinic front-end:
the session store (`AuthProvider`: signed-in user, `loading`, `token`
cookie; bootstrap on mount, `login`, `logout`), the route guard
(`ProtectedRoute`), the debounced catalogue search of the medicine page,
the prescription form (draft edits, field rules, the picker's search, the
create-then-submit sequence), the login and register forms, the admin
panel's role gate and action state, and the HTTP gateway (bearer
interceptor and request paths).

Every network call is an input: `Reply<T>` is `Ok(body)` or `Err(message)`.
The calls a transition makes are an output (`ApiClient.Endpoint`,
`Auth.AuthCall`, `RegisterPage.SignUp`), so "no call is made" is a
checkable fact. Redirects and navigations are output strings, not router
calls. Timers are a "pending timer / fire" event model. Pending promises
are explicit state where their order matters (`Auth.Provider.validating`,
`MedicineSearch.Page.inFlight`).

Files, one module each: `common.dfy` (Option, Reply, truthiness, the auth forms' submit status),
`decimal.dfy` (`${id}` for integral numbers, with its parser),
`models.dfy` (request shapes), `client.dfy`, `auth.dfy`, `guard.dfy`,
`medicine_search.dfy`, `prescription_draft.dfy`, `prescription_page.dfy`,
`email_pattern.dfy`, `register_page.dfy`, `login_page.dfy`,
`admin_panel.dfy`.

## What the code does not do

The model follows the code. The code lacks some behaviour one might
expect of a clinic front-end, and lemmas show each gap:

- A submit failure after a successful create is not a distinct outcome. It
  lands in the same `serverError` as a failed create
  (`PrescriptionPage.PartialFailureLooksLikeTotalFailure`).
- A successful submission leaves the draft in the form
  (`PrescriptionPage.ResubmitSendsSamePayload`).
- A draft whose lines were all removed passes the field rules
  (`PrescriptionDraft.EmptyDraftIsSubmittable`).
- A validate reply with `isValid` false keeps the cookie. Only a failed
  call removes it (`Auth.ValidateSettled`).
- Login and logout are not ordered against a pending validation
  (`Auth.LogoutRacingValidationLosesCookie`).
- The medicine search applies responses in arrival order
  (`MedicineSearch.OlderResponseOverwritesNewer`).
- A failed medicine search keeps the previous list.
- The guard never looks at roles (`Guard.RolesNotConsulted`). Only the
  admin page gates on a role. The navigation bar and the home page test
  roles only to choose which links to show.

## Model

| member | source | states |
|---|---|---|
| Common.BeginSubmit | src/app/login/page.tsx:23-24 | submitting the sign-in or sign-up form shows the spinner and clears the error banner, whatever was shown before (the same two steps open register/page.tsx at lines 37-38) |
| Decimal.IntToString | src/app/api/client.tsx:35 | an integral id renders as digits with no leading zero, with a minus sign exactly for negatives |
| Decimal.NatRoundTrip | src/app/api/client.tsx:35 | parsing the decimal rendering of a natural number gives the number back |
| Decimal.IntRoundTrip | src/app/api/client.tsx:34-35 | parsing the rendering of any integer id gives the id back, so distinct ids never share a rendering |
| ApiClient.VerbOf | src/app/api/client.tsx:27-54 | submit is the only PUT; create, upload and cache refresh are the POSTs; every other call is a GET |
| ApiClient.PathOf | src/app/api/client.tsx:27-54 | prescription calls live under /prescriptions/v1 and medicine calls under /medicines/v1; create posts to exactly /prescriptions/v1; upload and cache refresh post to /medicines/v1/upload and /medicines/v1/cache |
| ApiClient.ConfigFor | src/app/api/client.tsx:11-15 | a fresh request has the verb and path of its call and no Authorization header; only create has a body, and that body is the create payload itself |
| ApiClient.Intercept | src/app/api/client.tsx:17-25 | a truthy token sets Authorization to "Bearer " + token; otherwise the config comes back unchanged; no other header or field changes either way |
| ApiClient.OutgoingCarriesCookie | src/app/api/client.tsx:17-25 | a sent request has an Authorization header exactly when the cookie is truthy, and the header yields the cookie back |
| ApiClient.InterceptIdempotent | src/app/api/client.tsx:17-25 | running the interceptor again with the same cookie changes nothing |
| ApiClient.SubmitPathRoundTrip | src/app/api/client.tsx:34-35 | the id can be read back from the submit path /prescriptions/v1/{id}/submit |
| ApiClient.SubmitPathInjective | src/app/api/client.tsx:34-35 | two submit paths are equal only for the same id |
| ApiClient.SearchPathRoundTrip | src/app/api/client.tsx:43-44 | the search path is the fixed prefix followed by the query verbatim, unencoded |
| Auth.Initial | src/app/contexts/AuthContext.tsx:26-28 | the provider starts with no user, loading true and the browser's cookie |
| Auth.Bootstrap | src/app/contexts/AuthContext.tsx:30-55 | a truthy cookie sends exactly one validate call with "Bearer " + cookie and keeps loading; otherwise no call is made and loading ends; user and cookie are untouched |
| Auth.UserOf | src/app/contexts/AuthContext.tsx:38-44 | the user is built field by field from the validate reply |
| Auth.ValidateSettled | src/app/contexts/AuthContext.tsx:37-50 | loading always ends; a valid reply sets the user; an invalid reply keeps user and cookie; only a failed call removes the cookie |
| Auth.Login | src/app/contexts/AuthContext.tsx:57-71 | a failed call throws and changes nothing; a reply stores its token; the user is set exactly when the reply has userInfo; a reply without userInfo throws after the cookie is written; loading is untouched |
| Auth.Logout | src/app/contexts/AuthContext.tsx:73-77 | cookie and user are cleared whatever the sign-out call does, and the sign-out call is the only call made |
| Auth.StepProvider | src/app/contexts/AuthContext.tsx:30-77 | the first mount event runs the mount effect, and once it has run it stays run |
| Auth.NoValidateAfterMount | src/app/contexts/AuthContext.tsx:30-55 | after the mount effect has run, no event sequence sends another validate call |
| Auth.ValidateAtMostOnce | src/app/contexts/AuthContext.tsx:30-55 | over any event history of a fresh provider, at most one validate call is sent |
| Auth.FreshIsConsistent | src/app/contexts/AuthContext.tsx:26-28 | a fresh provider meets the session invariant: nobody signed in, loading, no pending validation |
| Auth.SerialStepKeepsConsistency | src/app/contexts/AuthContext.tsx:30-77 | an event that does not race the bootstrap keeps the invariant: a user implies a cookie, and a pending validation means loading, no user and a truthy cookie |
| Auth.LogoutRacingValidationLosesCookie | src/app/contexts/AuthContext.tsx:37-77 | a logout during validation followed by a valid reply leaves a user signed in with no cookie |
| Guard.Decide | src/app/components/ProtectedRoute.tsx:7-25 | placeholder exactly while loading; children exactly when not loading with a user; a redirect to /login exactly when not loading without a user |
| Guard.NoRedirectWhileLoading | src/app/components/ProtectedRoute.tsx:11-19 | no redirect while loading, and children are never shown without a user |
| Guard.RolesNotConsulted | src/app/components/ProtectedRoute.tsx:7-25 | any two signed-in users get the same decision |
| Guard.GuardAcrossBootstrap | src/app/components/ProtectedRoute.tsx:11-24 | with a cookie the guard waits until validation settles, then redirects exactly when the reply signed nobody in |
| Guard.GuardWithoutCookie | src/app/components/ProtectedRoute.tsx:11-15 | without a cookie the guard redirects to /login right after mount |
| Guard.PendingValidationIsNeverRedirected | src/app/components/ProtectedRoute.tsx:11-19 | in a consistent provider, a pending validation shows the placeholder and never redirects |
| MedicineSearch.Initial | src/app/medicine/page.tsx:19-42 | after mount the term is empty, nothing is listed or loading, and one timer is pending for the empty term |
| MedicineSearch.Keystroke | src/app/medicine/page.tsx:40-42 | a new term replaces the pending timer with one for that term; repeating the current term keeps the timer; results and loading are untouched |
| MedicineSearch.TimerFired | src/app/medicine/page.tsx:25-31 | a fired timer sends one search for its term exactly when the term has 2 or more characters, and then sets loading and clears the error; otherwise loading and error are untouched |
| MedicineSearch.ResponseArrived | src/app/medicine/page.tsx:31-37 | success replaces the list; failure sets "Failed to fetch medicine data" and keeps the list; loading ends either way; the answered request leaves the outstanding ones, which keep their order |
| MedicineSearch.EmptyListMessage | src/app/medicine/page.tsx:88-92 | a message shows exactly for an empty, settled list: "No results found" for a non-empty term, the 2-character hint otherwise |
| MedicineSearch.InitialTracksTerm | src/app/medicine/page.tsx:40-42 | after mount, the pending timer carries the current term |
| MedicineSearch.StepTracksTerm | src/app/medicine/page.tsx:40-42 | every event keeps it so: at most one timer is pending, and it carries the current term |
| MedicineSearch.RequestsOnlyForLongTerms | src/app/medicine/page.tsx:26-31 | every request sent is for the current term, which has 2 or more characters |
| MedicineSearch.RepeatedTermIsIgnored | src/app/medicine/page.tsx:40-42 | keystrokes that repeat the current term change nothing |
| MedicineSearch.BurstLeavesOneTimer | src/app/medicine/page.tsx:40-42 | after a burst that changed the term, exactly one timer is pending, for the last term typed, and nothing was sent |
| MedicineSearch.BurstThenFire | src/app/medicine/page.tsx:24-42 | a burst and then a fire send at most one request, for the last term, only when it has 2 or more characters |
| MedicineSearch.OlderResponseOverwritesNewer | src/app/medicine/page.tsx:31-36 | with "asp" and then "aspirin" in flight, the older response arriving last is what the page shows |
| PrescriptionDraft.InitialDraftShape | src/app/prescription/page.tsx:46-49 | `InitialDraft`, the form's default: the form starts with an empty patient and one line ("", "", 1), which reports exactly the patient and medicine errors |
| PrescriptionDraft.Append | src/app/prescription/page.tsx:201-202 | one blank line ("", "", 1) is added at the end; existing lines and patient are unchanged |
| PrescriptionDraft.Remove | src/app/prescription/page.tsx:179 | the line at the index is deleted and the rest keep their contents and order; an index past the end changes nothing |
| PrescriptionDraft.Select | src/app/prescription/page.tsx:146-154 | a pick writes the option's id and name into that line together; clearing writes "" into both; quantity and other lines are unchanged |
| PrescriptionDraft.EditPatientTC | src/app/prescription/page.tsx:124 | typing sets the patient and leaves the lines alone |
| PrescriptionDraft.EditQuantity | src/app/prescription/page.tsx:170-174 | typing changes only that line's quantity |
| PrescriptionDraft.LinesErrors | src/app/prescription/page.tsx:166-189 | line errors name only lines that exist, never the patient field |
| PrescriptionDraft.LinesErrorsExact | src/app/prescription/page.tsx:166-189 | a line is reported "Select a medicine", "Quantity required" or "Min 1" exactly when that rule fails for it |
| PrescriptionDraft.LinesErrorsEmpty | src/app/prescription/page.tsx:166-189 | no line errors exactly when every line has an id and a quantity of at least 1 |
| PrescriptionDraft.ErrorsEmptyIffSubmittable | src/app/prescription/page.tsx:119-189 | the validator `Errors` (patient rule, then the rules of each line) is empty, so the form reaches onSubmit exactly when the patient is non-empty and every line has an id and a quantity of at least 1 |
| PrescriptionDraft.ErrorsPinpointLine | src/app/prescription/page.tsx:124-188 | every failing field of every line and the patient field is reported, and nothing else |
| PrescriptionDraft.ToRequest | src/app/prescription/page.tsx:84-91 | the create body carries the patient and the three fields of every line in order, with quantities of at least 1 |
| PrescriptionDraft.RemoveUndoesAppend | src/app/prescription/page.tsx:179-202 | removing the line just appended gives the draft back |
| PrescriptionDraft.RemoveDeletesOneLine | src/app/prescription/page.tsx:179 | removal takes exactly one occurrence of the removed line out of the multiset of lines |
| PrescriptionDraft.SelectLastWins | src/app/prescription/page.tsx:146-154 | a later pick of the same line overrides an earlier one |
| PrescriptionDraft.EditsKeepPairing | src/app/prescription/page.tsx:146-154 | id and name are never half set: the initial draft and every edit keep both empty or both filled, provided every picked option has a non-empty id and name |
| PrescriptionDraft.UnnamedOptionBreaksPairing | src/app/prescription/page.tsx:146-154 | the pick is copied unchecked: an option with an id and an empty name leaves its line half set |
| PrescriptionDraft.ClearBlocksSubmission | src/app/prescription/page.tsx:146-188 | clearing a line's pick makes the draft fail the field rules |
| PrescriptionDraft.EmptyDraftIsSubmittable | src/app/prescription/page.tsx:170-188 | removing the only line leaves a draft that passes with just a patient |
| PrescriptionPage.SearchTyped | src/app/prescription/page.tsx:57-64 | a query shorter than 2 empties the results and sends nothing; a longer one sets searching and sends one search for it; the draft and messages are untouched |
| PrescriptionPage.SearchSettled | src/app/prescription/page.tsx:64-75 | results become the reply's content, or [] when it is missing or the call failed; searching ends |
| PrescriptionPage.OverlappingSearchesSettleInArrivalOrder | src/app/prescription/page.tsx:57-76 | two long queries send two searches; the first reply to settle ends `searching` and shows its results while the other is still pending, and a later reply replaces them |
| PrescriptionPage.ShortQueryClearsResults | src/app/prescription/page.tsx:58-61 | a query shorter than 2 sends nothing and leaves the results empty, also after a failed search settles |
| PrescriptionPage.Pick | src/app/prescription/page.tsx:146-154 | the picker's change is the draft selection, and nothing else on the page changes |
| PrescriptionPage.ErrorText | src/app/prescription/page.tsx:105 | a caught error shows its own message when that is non-empty, and "An error occurred" otherwise |
| PrescriptionPage.Begin | src/app/prescription/page.tsx:79-81 | submission starts loading and clears both messages |
| PrescriptionPage.OnSubmit | src/app/prescription/page.tsx:78-109 | create is called first; submit is called only for a truthy returned id, with that id; success is set exactly when both succeed; otherwise serverError is set, to the missing-id message when the id is falsy and to the error text of the failed create or submit otherwise; loading ends; the draft is never modified |
| PrescriptionPage.HandleSubmit | src/app/prescription/page.tsx:119 | a draft that fails the field rules shows its errors and makes no call; for a valid one the outcome is exactly onSubmit's, with no field errors |
| PrescriptionPage.BeginDisablesSubmit | src/app/prescription/page.tsx:212-217 | the submit button is disabled while a submission runs and enabled on the page's initial state `PrescriptionPage.Initial` |
| PrescriptionPage.PartialFailureLooksLikeTotalFailure | src/app/prescription/page.tsx:94-105 | create-ok-then-submit-failed and create-failed with the same message leave identical pages, although one made two calls and the other one |
| PrescriptionPage.SubmitReplyIrrelevantWithoutId | src/app/prescription/page.tsx:97-102 | without a truthy id the submit reply has no effect at all |
| PrescriptionPage.ResubmitSendsSamePayload | src/app/prescription/page.tsx:78-109 | after a success the draft is still there and a second submission sends the same create body |
| EmailPattern.MatchesIffInLanguage | src/app/register/page.tsx:88 | the recogniser `Matches` accepts exactly the strings the e-mail expression matches: local part, '@', domain body, '.', 2 or more letters |
| EmailPattern.OneAt | src/app/register/page.tsx:88 | an accepted address contains exactly one '@' |
| EmailPattern.Examples | src/app/register/page.tsx:88 | sample verdicts: a dotted address is accepted; a one-letter top level, an empty domain body, an empty local part and a second '@' are rejected |
| RegisterPage.EmailError | src/app/register/page.tsx:85-91 | the e-mail field has no error exactly when the address matches the pattern |
| RegisterPage.ErrorsExact | src/app/register/page.tsx:60-118 | a field is reported with a message exactly when its first failing rule, as `FieldErrorOf` lists the rules per field, has that message |
| RegisterPage.ErrorsEmptyIffAcceptable | src/app/register/page.tsx:59-118 | under react-hook-form's rules, the form submits exactly when both names are given, the e-mail is in the pattern's language, the password has 6 or more characters and a role is chosen |
| RegisterPage.RoleChoices | src/app/register/page.tsx:18-22 | the select offers exactly DOCTOR, PHARMACIST and ADMIN, each accepted by the role rule, while the empty default is rejected |
| RegisterPage.OnSubmit | src/app/register/page.tsx:36-53 | the form fields are sent as given; success navigates to /login; failure shows the fixed message and does not navigate; loading ends |
| RegisterPage.HandleSubmit | src/app/register/page.tsx:59 | a form with field errors makes no call and changes nothing; otherwise onSubmit runs |
| RegisterPage.SignUpOnlyWhenAcceptable | src/app/register/page.tsx:59-118 | under react-hook-form's rules, the sign-up call is made exactly for acceptable forms, and then navigation happens exactly on success |
| LoginPage.Errors | src/app/login/page.tsx:48-65 | react-hook-form's rules: e-mail is only required; the password is required and needs 6 or more characters; no errors exactly when both hold |
| LoginPage.OnSubmit | src/app/login/page.tsx:22-34 | one sign-in call; navigates to / exactly when login returns; otherwise "Login failed. Please check your credentials."; loading ends |
| LoginPage.HandleSubmit | src/app/login/page.tsx:40 | field errors stop the submission before any call |
| LoginPage.FailedSignInChangesNoSession | src/app/login/page.tsx:22-34 | a failed sign-in call leaves the session as it was and does not navigate |
| LoginPage.SignedInPassesGuard | src/app/login/page.tsx:26-27 | a sign-in that navigates home leaves a session the guard lets through, holding the reply's token |
| AdminPanel.ViewFor | src/app/admin/page.tsx:41-47 | the unauthorized view shows exactly when there is no user or its roles lack ROLE_ADMIN |
| AdminPanel.Begin | src/app/admin/page.tsx:16-18 | an action starts loading and clears the error, keeping any earlier success message |
| AdminPanel.Finish | src/app/admin/page.tsx:19-25 | success sets the action's success message; failure sets its error message; loading ends |
| AdminPanel.Click | src/app/admin/page.tsx:15-38 | a click calls the action's endpoint only for an administrator with the buttons enabled; otherwise nothing changes |
| AdminPanel.ActionsHitDistinctPaths | src/app/admin/page.tsx:19-32 | the two buttons POST to different paths |
| AdminPanel.EarlierSuccessSurvivesFailure | src/app/admin/page.tsx:15-38 | after a successful upload, a failed cache refresh shows its error next to the upload's success message |
| AdminPanel.ActionsNeverOverlap | src/app/admin/page.tsx:56-75 | the buttons start enabled (`AdminPanel.Initial`); a running action disables both buttons, so a second click does nothing; a finished action enables them again |
| AdminPanel.GateIsRoleMembership | src/app/admin/page.tsx:41 | any user whose roles include ROLE_ADMIN sees the panel, and no user means no panel |

## Left out

- React rendering, MUI components and Next.js routing: redirects and navigations are output strings.
- axios, react-cookie, js-cookie and react-hook-form internals. The cookie is an optional string. Network results are `Reply` inputs. `useFieldArray` append and remove are sequence operations.
- Real time. The 500 ms delay is not modelled, only which timer is pending and when it fires. No event is ever dropped because a component unmounted.
- Interleavings inside one handler. Each handler runs from its start to the settling of its awaited call in one step, except for three calls whose order against other events changes the outcome. The bootstrap's validate call and the medicine search responses are pending events. The picker's search is split into `SearchTyped` and `SearchSettled`. The picker search is not debounced, several searches may overlap, and the first reply to settle ends `searching` while others are pending (`PrescriptionPage.OverlappingSearchesSettleInArrivalOrder`). The picker's outstanding searches are not kept as state.
- Login is one step, so a login that overlaps a pending validation is a single event between the mount and the validate reply.
- Response shapes. The medicine page reads the search response body as a list, while the prescription page reads `content` from it. Each page is modelled with its own reading.
- Field values of the wrong JavaScript type (a missing `userInfo.id`, a non-array `roles`, a non-integral or NaN id or quantity). Quantities and ids are integers. An empty quantity field is `None`.
- String lengths count Unicode scalar values. JavaScript counts UTF-16 code units, so the two differ only for characters outside the Basic Multilingual Plane.
- The backend base URL and the hard-coded auth service URLs, console logging, and the price column's `toFixed(2)` formatting (floating point).
- The `Content-Type` header casing rules of axios headers. Header names are compared exactly.
- Navbar.tsx, page.tsx (home) and pages/profile.tsx are presentation only. Their role checks repeat the membership test of `AdminPanel.ViewFor`.
- providers.tsx (provider wiring) and eslint.config.mjs (tooling).
- `getIncomplete`, `getVisit` and `getMedicineById` are modelled only as paths. No page of the modelled core calls them.
- Auth.StepProvider: its contract only states that the mount effect runs on the first mount event and stays run. What each event does is stated by the contracts of `Bootstrap`, `ValidateSettled`, `Login` and `Logout`, which it applies.
- Decimal.IntToString: renders every integer in plain decimal. JavaScript renders a number whose magnitude is at least 10^21 in exponent form (`1e+21`), and it holds integers exactly only up to 2^53. Ids are treated as unbounded integers, so neither limit is modelled.
- LoginPage.HandleSubmit: states react-hook-form's rules only. The e-mail input has `type="email"` (src/app/login/page.tsx:45) in a form without `noValidate`. The browser's own constraint check therefore blocks a non-empty value that is not an HTML e-mail address, such as "abc", before react-hook-form runs. That browser check is outside the code and is not modelled.
- RegisterPage.HandleSubmit: the same browser check applies to the e-mail input at src/app/register/page.tsx:82. It rejects some strings the expression accepts, such as "a@b-.co" and "a@b..co". The contracts of `HandleSubmit`, `ErrorsEmptyIffAcceptable` and `SignUpOnlyWhenAcceptable` describe react-hook-form's decision only.
- PrescriptionDraft.EditsKeepPairing: holds only when every picked option has a non-empty id and name. The page copies the option from the search reply's `content` without checking it (src/app/prescription/page.tsx:65-66, 147-149), so the server's data decides it. `PrescriptionDraft.UnnamedOptionBreaksPairing` shows the half-set line otherwise.
