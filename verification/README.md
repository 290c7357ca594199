# MyLugha in Dafny

MyLugha collects text and audio translations for Kenyan languages and has other users
validate them. This project models its core and proves properties of the model:

- **The frontend HTTP client** (`frontend/src/services/api.js`). A request interceptor
  attaches the stored access token. A response interceptor refreshes an expired token once
  and re-sends the request. Login and registration go through the same client.
- **The contribution and validation records** (`backend/contributions/models.py`,
  `backend/validations/models.py`). These cover the closed choice fields, the column defaults,
  the validation ratio and `Validation.save`. A first save counts the vote and moves the status
  by the 3-vote, 70 % / 30 % rule.
- **The backend endpoints** (`backend/validations/views.py`,
  `server/mylugha/contributions/views.py`). These cover the guards in front of a new
  validation, the querysets of the list and detail views, and the language and user counters
  the create views bump.
- **Two management commands.**
  - `add_kenyan_languages.py` upserts a fixed list of 30 languages.
  - `backend/validations/management/__init__.py` fills the validations table with test
    validations made by users other than the author.
- **The page logic of the frontend** (`frontend/src/MyLugha.jsx`,
  `frontend/src/RegisterPage.jsx`). This covers:
  - the recording clock, the language search and the category filter;
  - the stats lookup with its zero default;
  - the validation queue;
  - the text contribution form, with its pre-check and error formatting;
  - the registration form.

The database is one object, `Tables.Database`, whose tables are fields that the views, the
`save` methods and the commands update in place. Three invariants are kept by every operation
that writes to it:
- `Valid`: referential integrity and the unique (contribution, validator) pair.
- `CountersMatch`: each contribution's two vote counters equal what the validations table holds.
- `StatsMatch`: each language's and user's counters equal the rows they count.

The frontend handlers are classes whose fields are the React state they set. Network answers
are parameters of the handlers, and so are the random choices of the test-data command, which
are left open (`:|`). The model follows the code wherever the code and its written
description disagree. For the client:
- When the refresh call fails, the code rejects with the *original* 401, not with the refresh
  error.
- A refresh reply without `access` leaves storage as it is and also rejects with the original
  error.
- A login refused with a 401 goes through the refresh path like any other call, so it can clear
  the stored tokens. Only a refusal with another status is guaranteed to leave them untouched.

## Model

| member | source | states |
|---|---|---|
| ApiClient.WithAuthorization | frontend/src/services/api.js:17-24 | with a non-empty stored token, `Authorization` is `Bearer <token>`; without one the headers are returned unchanged; no other header is ever touched |
| ApiClient.OnRejected | frontend/src/services/api.js:35-69 | anything but a first 401 is rejected unchanged; a first 401 marks the request, so there is at most one refresh and one re-send; with no refresh token, or a failed refresh, storage is cleared, `/login` is set and the ORIGINAL error is rejected; a refresh with `access` stores it, re-sends with it and returns that outcome; the refresh token is never rewritten |
| ApiClient.Pipeline | frontend/src/services/api.js:9-70 | the first request carries the stored token; a reply that is not a 401 is returned as is and changes nothing; at most three calls go on the wire (send, refresh, re-send) |
| ApiClient.LoginCredentials | frontend/src/services/api.js:75-83 | a resolved login stores both returned tokens, with "undefined" for a missing one; a rejected login leaves what the interceptor left |
| ApiClient.Session.AttachToken | frontend/src/services/api.js:17-24 | the request's headers become `WithAuthorization` of the stored token |
| ApiClient.Session.HandleRejected | frontend/src/services/api.js:35-69 | the storage, the `_retry` flag, the headers, the calls made and the outcome are those of `OnRejected`; the redirect flag is only ever set |
| ApiClient.Session.Dispatch | frontend/src/services/api.js:9-70 | one call through the interceptors has exactly the effects of `Pipeline` |
| ApiClient.Session.Login | frontend/src/services/api.js:75-83 | the outcome and the calls are those of `Pipeline`, storage is `LoginCredentials`; a login refused with a status other than 401 leaves storage untouched |
| ApiClient.Session.Register | frontend/src/services/api.js:74 | registration stores nothing itself: storage changes only through the interceptor on a 401 |
| ContributionModel.ParseKind | backend/contributions/models.py:10-12 | reading a stored `type` accepts exactly the two choice values and inverts `KindValue` |
| ContributionModel.ParseContentType | backend/contributions/models.py:14-18 | reading a stored `content_type` accepts exactly the four choice values and inverts `ContentTypeValue` |
| ContributionModel.ParseStatus | backend/contributions/models.py:20-23 | reading a stored `status` accepts exactly the three choice values and inverts `StatusValue` |
| ContributionModel.NewContribution | backend/contributions/models.py:25-38 | a created row keeps the given fields and starts pending with both vote counters at zero |
| ContributionModel.Describe | backend/contributions/models.py:40-41 | the text starts with the content-type label and " by ", and ends with "Anonymous" for an anonymous row, else with the author's name |
| ContributionModel.ValidationRatio | backend/contributions/models.py:43-48 | 0 without votes, otherwise the exact share of positive votes; between 0 and 1 when the counters are consistent |
| ContributionModel.ThresholdsMatchRatio | backend/validations/models.py:37-41 | the integer comparisons `10p >= 7n` and `10p <= 3n` decide exactly `ratio >= 0.7` and `ratio <= 0.3` |
| ValidationModel.ApplyVote | backend/validations/models.py:30-43 | a new vote adds one to the count and one to the positives when valid; only the two counters and the status change |
| ValidationModel.ApplyVoteStatus | backend/validations/models.py:37-41 | the status is unchanged below three votes, validated at a ratio of 0.7 or more, rejected at 0.3 or less, and unchanged strictly between |
| ValidationModel.NewContributionConsistent | backend/contributions/models.py:34-38 | a new contribution's status agrees with its (zero) votes |
| ValidationModel.ThresholdsExclusive | backend/validations/models.py:37-41 | once there are votes the two thresholds cannot both hold |
| ValidationModel.ApplyVoteConsistent | backend/validations/models.py:30-43 | a vote keeps the status consistent with the counters |
| ValidationModel.ApplyVotesSummary | backend/validations/models.py:30-43 | after any run of votes the counters hold exactly those votes, the status is consistent, and nothing else changed |
| ValidationModel.ValidatedIsNotTerminal | backend/validations/models.py:37-41 | three approvals validate a new contribution, and seven rejections after them reject it |
| ValidationModel.SaveNewValidation | backend/validations/models.py:22-48 | a second save of the same pair fails and changes nothing; otherwise the row is appended, the vote is counted on the contribution and the validator, and `Valid`, `CountersMatch` and `StatsMatch` are kept |
| ValidationModel.VoteKeepsIntegrity | backend/validations/models.py:16-27 | appending a validation of a new pair keeps referential integrity and the unique pairs |
| ValidationModel.VoteKeepsCounters | backend/validations/models.py:30-34 | counting a vote keeps every contribution's counters equal to its validations |
| ValidationModel.VoteKeepsStats | backend/validations/models.py:44-48 | counting a vote keeps every language and user counter equal to what it counts |
| ValidationModel.ResaveValidation | backend/validations/models.py:22-27 | saving an existing validation rewrites its row and nothing else |
| ValidationViews.CreateGuard | backend/validations/views.py:55-70 | the duplicate error exactly when the pair exists, the own-contribution error exactly when it does not and the user is the author, and no error exactly otherwise |
| ValidationViews.VoteKeepsNoSelf | backend/validations/views.py:68-73 | a vote by someone other than the author keeps "nobody validated their own contribution" |
| ValidationViews.CreateValidation | backend/validations/views.py:55-73 | a refused create changes nothing; an accepted one is a first `Validation.save`; the three table invariants and "no self-validation" are kept |
| ValidationViews.ListValidations | backend/validations/views.py:20-46 | `pending_only` lists nothing; an unknown contribution id fails; the author of the named contribution sees all of its validations; everyone else sees exactly the validations they made |
| ValidationViews.RetrieveValidation | backend/validations/views.py:85-95 | the detail view as intended, one queryset of both conditions then the key lookup: a validation is found exactly when the user made it or owns its contribution, otherwise the answer is a 404 (the lookup as written is under Findings) |
| ValidationViews.ListedAreRetrievable | backend/validations/views.py:85-95 | every validation a user can list, the intended detail view finds for them |
| ValidationViews.CreatedIsVisible | backend/validations/views.py:85-95 | a new validation is in its validator's list, and the intended detail view finds it for its validator and for the author |
| ValidationViews.GetByPk | backend/validations/views.py:85-95 | the key lookup the detail view makes on its queryset: found exactly when the key is one of the queryset's rows; on a union of querysets it always fails with `NotSupportedError` |
| ValidationViews.RetrieveAsWrittenRefusesOwn | backend/validations/views.py:89-95 | with the union as written, even a validation the user made cannot be opened, while the intended lookup finds it |
| ContributionViews.ContributionQuery | server/mylugha/contributions/views.py:25-47 | a contribution is listed exactly when it passes every filter asked for: language code, own contributions, and pending and not yet validated by the user |
| ContributionViews.ValidatedLeavesQueue | server/mylugha/contributions/views.py:39-45 | once a user has validated a contribution it leaves their `to_validate` list |
| ContributionViews.OwnPendingInQueue | server/mylugha/contributions/views.py:39-45 | the `to_validate` list does not exclude the user's own pending contributions |
| ContributionViews.TextCounted | server/mylugha/contributions/views.py:68-73 | a text contribution adds one contributor and one word or sentence by its content type; no other field changes |
| ContributionViews.AudioCounted | server/mylugha/contributions/views.py:92-96 | an audio contribution adds one contributor and one audio; no other field changes |
| ContributionViews.InsertKeepsIntegrity | server/mylugha/contributions/views.py:64-78 | inserting a contribution under the next id keeps referential integrity |
| ContributionViews.InsertKeepsCounters | server/mylugha/contributions/views.py:66 | a new contribution has no votes, so every vote counter still matches |
| ContributionViews.InsertLanguageStats | server/mylugha/contributions/views.py:68-73 | each language counter grows by one exactly when the new row is one it counts |
| ContributionViews.InsertKeepsStats | server/mylugha/contributions/views.py:68-78 | the counter bumps keep every language and user counter equal to what it counts |
| ContributionViews.InsertKeepsNoSelf | server/mylugha/contributions/views.py:66 | a new contribution brings no self-validation |
| ContributionViews.InsertKeepsTables | server/mylugha/contributions/views.py:64-101 | storing a new contribution of either kind, with its language and author counted, keeps integrity, every counter and "no self-validation" |
| ContributionViews.CreateTextContribution | server/mylugha/contributions/views.py:64-78 | the new row is stored under a fresh id, its language and author are counted, and the three table invariants and "no self-validation" are kept |
| ContributionViews.CreateAudioContribution | server/mylugha/contributions/views.py:88-101 | as for text, with the audio counter bumped |
| KenyanLanguages.KenyanCodesDistinct | backend/languages/management/commands/add_kenyan_languages.py:9-43 | the command's list names every code once |
| KenyanLanguages.UpsertAllFrame | backend/languages/management/commands/add_kenyan_languages.py:49-57 | after the upserts the table holds the old codes plus the listed ones, and rows of unlisted codes are untouched |
| KenyanLanguages.UpsertAllWrites | backend/languages/management/commands/add_kenyan_languages.py:49-57 | with distinct codes every listed code ends with its entry's name, category and description |
| KenyanLanguages.UpsertAllIdempotent | backend/languages/management/commands/add_kenyan_languages.py:49-57 | upserting a list with distinct codes twice is upserting it once |
| KenyanLanguages.UpsertAllKeepsCounters | backend/languages/management/commands/add_kenyan_languages.py:50-57 | the upserts never change the counters of an existing row |
| KenyanLanguages.UpsertAllSize | backend/languages/management/commands/add_kenyan_languages.py:45-60 | the upserts add exactly one row per listed code that was missing, so the table grows by the created tally |
| KenyanLanguages.UpsertKeepsTables | backend/languages/management/commands/add_kenyan_languages.py:50-57 | one upsert keeps integrity and the language counters (a created row has zero counters and no contributions) |
| KenyanLanguages.UpsertOne | backend/languages/management/commands/add_kenyan_languages.py:50-76 | the table becomes the upsert of the entry; `created` exactly when the code was missing; the field comparison never finds a change |
| KenyanLanguages.UpsertLanguages | backend/languages/management/commands/add_kenyan_languages.py:45-76 | the table becomes the upsert of the whole list; each entry lands in exactly one tally; the updated tally is 0; the created tally is the number of listed codes that were missing |
| KenyanLanguages.AddKenyanLanguages | backend/languages/management/commands/add_kenyan_languages.py:7-82 | the command over its own list of 30, with the same guarantees |
| KenyanLanguages.SecondRunCreatesNothing | backend/languages/management/commands/add_kenyan_languages.py:49-60 | a second run leaves the table as the first left it and creates nothing |
| KenyanLanguages.ListedLanguagesDescribed | backend/languages/management/commands/add_kenyan_languages.py:9-57 | after the command every listed code has its listed name, category and description |
| TestValidations.TallyAll | backend/validations/management/__init__.py:63-68 | saving a run of validations keeps the contribution ids and each row's author, language and kind |
| TestValidations.CreditAll | backend/validations/management/__init__.py:63-68 | saving a run of validations keeps the user ids |
| TestValidations.SavesKeepCounters | backend/validations/management/__init__.py:63-68 | a run of saves keeps every vote counter, language counter and user counter equal to what it counts |
| TestValidations.SaveKeepsCounters | backend/validations/management/__init__.py:63-68 | one save keeps every vote counter, language counter and user counter equal to what it counts |
| TestValidations.SavesKeepNoSelf | backend/validations/management/__init__.py:30-36 | a run of validations, none by the author, keeps "no self-validation" |
| TestValidations.ValidateOnce | backend/validations/management/__init__.py:39-70 | a validation is created exactly when the pair does not exist yet; then it is appended and counted, otherwise nothing changes |
| TestValidations.ValidatorTurn | backend/validations/management/__init__.py:38-70 | one chosen validator's turn, with a random result and a feedback from the nine options; afterwards the contribution has a validation |
| TestValidations.ValidateContribution | backend/validations/management/__init__.py:38-70 | the table grows only by validations of this contribution by chosen validators, saved one by one, at most one per validator; with at least one chosen, the contribution ends up with a validation |
| TestValidations.Sample | backend/validations/management/__init__.py:36 | `k` distinct members of the pool |
| TestValidations.Min | backend/validations/management/__init__.py:35 | the smaller of the two numbers |
| TestValidations.ValidateRandomly | backend/validations/management/__init__.py:30-70 | one to three users other than the author are drawn and each validates the contribution unless the pair exists; afterwards it has a validation, at most three new ones, no new one by its author, and it joins the handled ones |
| TestValidations.ValidateAll | backend/validations/management/__init__.py:27-70 | every contribution ends up with a validation, at most three new ones each, none by its author; the count returned is the number created |
| TestValidations.RecordedKeepsTables | backend/validations/management/__init__.py:27-70 | tables reached by saving validations made by someone other than the author keep every counter and "no self-validation" |
| TestValidations.GenerateTestValidations | backend/validations/management/__init__.py:12-77 | stops with an error and changes nothing when there are fewer than two users or no contributions; otherwise every contribution ends up with a validation, at most three new ones each, none by its author, all saved one by one as `Validation.save` saves them; the count is the number created; the three table invariants and "no self-validation" are kept |
| LanguageBrowser.FormatTime | frontend/src/MyLugha.jsx:987-991 | whole minutes, a colon, then two digits of seconds |
| LanguageBrowser.ParseClock | frontend/src/MyLugha.jsx:987-991 | the inverse of `formatTime` used to state its round trip, not a model of that code: it reads a text exactly when it is digits, a colon and two digits |
| LanguageBrowser.PaddedSecondsRoundTrip | frontend/src/MyLugha.jsx:989-990 | seconds below 60 come back from their two-digit padded form |
| LanguageBrowser.FormatTimeRoundTrip | frontend/src/MyLugha.jsx:987-991 | reading the clock back gives the elapsed seconds: `mins * 60 + secs` |
| LanguageBrowser.SearchLanguages | frontend/src/MyLugha.jsx:465-467 | keeps exactly the languages whose lowercased name contains the lowercased term, every copy of each, in order |
| Seqs.FilterIsSubsequence | frontend/src/MyLugha.jsx:465-467 | a filter keeps the kept elements in their original order |
| Seqs.FilterCounts | frontend/src/MyLugha.jsx:465-467 | a filter keeps every copy of a matching element and no copy of the rest |
| LanguageBrowser.EmptySearchKeepsAll | frontend/src/MyLugha.jsx:465-467 | an empty search keeps every language |
| LanguageBrowser.CategoryCodes | frontend/src/MyLugha.jsx:1798-1805 | exactly the four families have code lists; any other category has none |
| LanguageBrowser.ByCategoryIsFilter | frontend/src/MyLugha.jsx:1795-1806 | the category step is one filter by category membership, with "all" keeping everything and an unknown category keeping nothing |
| LanguageBrowser.FilteredLanguagesListed | frontend/src/MyLugha.jsx:1790-1815 | a language is listed exactly when it belongs to the category and passes the search (an empty term passes all; otherwise the name must be non-empty and match), in the fetched order; an unknown category lists nothing |
| LanguageBrowser.GetLanguageStats | frontend/src/MyLugha.jsx:1820-1829 | a language without fetched figures gets zeros; each fetched figure is kept when it is an integer and becomes 0 when it is not a number |
| Text.Trim | frontend/src/MyLugha.jsx:638-641 | the trimmed text is empty exactly when the text is all white space; a non-empty result neither starts nor ends with white space |
| Text.TrimIsMiddleSlice | frontend/src/MyLugha.jsx:649-652 | trimming removes white space at the two ends and nothing else |
| FormErrors.FieldLine | frontend/src/MyLugha.jsx:687-692 | every line starts with the field name and ": " |
| FormErrors.FieldLines | frontend/src/MyLugha.jsx:686-693 | one line per field of the body, in order |
| ContributionForms.RemoveAt | frontend/src/MyLugha.jsx:1314 | removes exactly the item at the index, keeping the others in order; an index past the end removes nothing |
| ContributionForms.ValidationForm.LoadItems | frontend/src/MyLugha.jsx:1285-1291 | a successful fetch shows the fetched items and clears the error; a failed one empties the queue and sets the error |
| ContributionForms.ValidationForm.HandleValidate | frontend/src/MyLugha.jsx:1299-1330 | an empty queue does nothing; an index past the end throws and alerts; otherwise the vote for the item on screen is posted, with the feedback only for a rejection; an accepted vote removes exactly that item and clears the feedback; a refused one alerts and keeps the queue; the index never leaves 0 |
| ContributionForms.SubmitErrorMessage | frontend/src/MyLugha.jsx:679-708 | a response body gives "Failed to submit contribution. " followed by its text, or by exactly its field lines joined with "; "; without one, the message is chosen by status 400, 401, 403 or any other |
| ContributionForms.SubmitErrorNamesEveryField | frontend/src/MyLugha.jsx:684-694 | every field of an object body appears, with its name, in the message |
| ContributionForms.CollectFieldErrors | frontend/src/MyLugha.jsx:686-693 | the loop collects exactly `FieldLines` of the body |
| ContributionForms.FailureMessage | frontend/src/MyLugha.jsx:675-708 | the message the `catch` block sets is `SubmitErrorMessage` |
| ContributionForms.TextContributionForm.HandleSubmit | frontend/src/MyLugha.jsx:634-712 | a blank text after trimming sends nothing and asks for both fields; otherwise the trimmed texts are sent with the chosen content type, type "text" and the anonymity flag; success clears the texts and the flag; failure sets `SubmitErrorMessage` and keeps the form |
| Registration.EmptyForm | frontend/src/RegisterPage.jsx:7-12 | the four fields, all empty |
| Registration.HandleChange | frontend/src/RegisterPage.jsx:17-23 | the named field gets the value, every other field is kept, and no field is dropped |
| Registration.ListFieldLinesAppend | frontend/src/RegisterPage.jsx:71-75 | a field adds its line exactly when it holds a list |
| Registration.CollectListErrors | frontend/src/RegisterPage.jsx:69-75 | the loop collects one line per field holding a list, in order, and skips the others |
| Registration.RegisterErrorMessage | frontend/src/RegisterPage.jsx:66-80 | an object body with list fields gives exactly the lines of those fields, joined by newlines; a body without any, a text body or none gives the default message |
| Registration.DefaultErrorIffNoListField | frontend/src/RegisterPage.jsx:71-77 | the default message shows exactly when no field of the body holds a list |
| Registration.EveryListFieldReported | frontend/src/RegisterPage.jsx:71-77 | every field holding a list appears, with its name, in the message |
| Registration.RefusalMessage | frontend/src/RegisterPage.jsx:63-80 | the message the `catch` block sets is `RegisterErrorMessage` |
| Registration.RegisterPage.Change | frontend/src/RegisterPage.jsx:17-23 | the form becomes `HandleChange` of the old one; the four fields stay present |
| Registration.RegisterPage.HandleSubmit | frontend/src/RegisterPage.jsx:25-84 | differing passwords send nothing and report it; otherwise the name, address and password are sent without the confirmation; success shows the message and empties the form; failure sets `RegisterErrorMessage` and keeps the form; loading always ends off |

## Left out

- The list views' `DjangoFilterBackend`, search and ordering backends are not modelled, and neither is any ordering of querysets. Query results are sets of ids.
- Contribution ids are uuid4 values in the source; here they are drawn from a counter (`nextContributionId`), which gives the same freshness.
- A `contribution_id` that is not a valid id format is not modelled, only an id that names no row.
- Everything written to stdout by the two management commands is left out, including the ratio summary the test-data command prints after its loop.
- The audio file, its duration, size and transcription are left out.
- `contributors_count` counts contributions, not distinct contributors. The model keeps this behaviour of the code.
- In the Kenyan command, the update branch is never taken, because `update_or_create` has already written the defaults. The model proves this (`updated == 0`).
- The random probabilities of the test-data command (80 % valid, 70 % with feedback) are arbitrary choices in the model. Only the possible outcomes are modelled.
- Lower-casing covers ASCII letters only; Unicode case mapping is not modelled.
- A language without a name makes the search at MyLugha.jsx:465-467 throw. The model requires a name, as a string.
- The fetch of language stats, its random fallback figures, the recording timers and audio capture are left out.
- The `setTimeout` that hides the success message, and the delayed `onRegisterSuccess` call, are left out.
- The filtering and mapping of fetched pending items into the validation queue is left out. `LoadItems` receives the items already mapped.
- `Object.entries` lists integer-like keys first in JavaScript. The model keeps the order the body gives.
- A field value that is not a list is held as the text JavaScript makes of it.
- Concurrent requests in the HTTP client are not modelled; each call is followed on its own. Requests that get no response at all are not modelled either.
- Apart from the `/login` flag, the page navigation of the client is left out.
- Ratio arithmetic uses exact rationals; Python's floating-point division is not modelled.
- ValidationViews.RetrieveValidation: models the detail view as intended; the lookup on the union queryset as written is modelled only as the refusal under Findings, and the filter backends DRF would also apply to the detail view are not modelled.
- LanguageBrowser.GetLanguageStats: figures are integers or not numbers at all; `Number(v) || 0` also keeps fractions and infinities as they are, which `Option<int>` cannot hold.

## Findings

| source | as written | input that shows it | evidently intended | confidence | as-written member | corrected member |
|---|---|---|---|---|---|---|
| backend/validations/views.py:89-95 | `get_queryset` of the detail view returns `filter(validator=user).union(filter(contribution__user=user))`, and the view then looks the key up in it with `get_object_or_404(queryset, pk=...)`; Django refuses a filtered `get` after `union()` (`NotSupportedError`) | any authenticated user opening any key, even a validation they made | one queryset of both conditions, `filter(Q(validator=user) \| Q(contribution__user=user))`, so the lookup finds the row | not executed; the project's migrations were generated by Django 4.2.21 (backend/contributions/migrations/0001_initial.py:1), whose `get` with a filter on a `union()` queryset raises `NotSupportedError` | ValidationViews.RetrieveAsWrittenRefusesOwn | ValidationViews.RetrieveValidation |
