# Patient portal form state, in Dafny

A model of the client-side form bookkeeping of the patient portal. The portal has
three form components:

- **Questionnaire form** (`src/components/PatientForm.tsx`). It keeps a record of
  answers keyed by field name and a generic change handler. The multi-select answer
  `painLocation` is a comma-joined string that six checkboxes edit. The submit handler
  passes the record on.
- **Questionnaire page** (`src/App.tsx`). It keeps per-question text answers and
  checkbox selection lists. It also keeps the list of questions just submitted, whose
  buttons are disabled, and a banner message. `saveResponse` validates an answer. It then
  rejects it with a message, or sends a create request, clears the answer, marks the
  question submitted and schedules its release.
- **Profile form** (`src/components/PatientProfile.tsx`). It holds a seven-field record.
  The record is filled from loaded profile data with `''` defaults, edited one field at a
  time and passed on at submit.

Modules:

- `JsText` models the JavaScript built-ins the handlers use: `split` with one
  separator character, `join`, `filter(x => x !== v)`, `trim` (with the ECMA-262
  whitespace set) and `includes`. It also proves the laws that link them: split/join
  round trips, order and multiset preservation of the filter, and when `trim()` is empty.
- `PatientForm` has the toggle encoding as pure functions with lemmas. The form state is
  a class `QuestionnaireForm` whose handlers update a `map` from field name to value.
- `App` has the validation of `saveResponse` as a function `Validate`. The page state is
  a class `QuestionnairePage` with the four state variables of the page. The model adds
  two things. Backend calls become returned `Request` values. Each `setTimeout` callback
  becomes a pending `Timer` that the environment fires with `FireTimer`.
- `PatientProfile` has the normalisation of loaded data as a function. The form state is
  the class `ProfileForm`.
- `Optional` defines `Option`, which stands for JavaScript's `null`/`undefined`.

JavaScript objects built with spread and a computed key (`{...prev, [name]: val}`) are
modelled as maps. The setter is then a map update, and a name outside the initial
fields adds a key, as in JavaScript.

Two behaviours of the code are worth stating plainly:

- The questionnaire submits the whole record. Its six fields are always present, and a
  field the user did not touch keeps its initial value (`SubmitWithoutPainLocation`).
- Checking a box appends without deduplication. On the questionnaire page the option is
  appended to the selection list (`ChangedSelections`). On the questionnaire form a
  pain location is appended as a new piece even if it is already there (`CheckLocation`).

## Model

| member | source | states |
|---|---|---|
| JsText.Split | src/components/PatientForm.tsx:77 | `split(',')` gives at least one piece (the empty string gives one empty piece) and no piece contains the separator |
| JsText.Join | src/components/PatientForm.tsx:77 | `join` of no parts is `""`; otherwise the result starts with the first part. Its contents are pinned by `JoinSplit` and `SplitJoin`. The selections of a checkbox question (`src/App.tsx` line 82) are joined the same way, with `", "` |
| JsText.Remove | src/App.tsx:67 | `filter(x => x !== v)` keeps exactly the elements other than `v` and never lengthens the list |
| JsText.RemoveMultiset | src/App.tsx:67 | filtering removes every copy of `v` and keeps every copy of every other value |
| JsText.RemoveAppend | src/components/PatientForm.tsx:77 | filtering keeps the original order: it distributes over concatenation |
| JsText.RemoveAbsent | src/components/PatientForm.tsx:77 | filtering out a value that does not occur changes nothing |
| JsText.TrimStartSuffix | src/App.tsx:85 | `TrimStart`, the leading-whitespace strip, yields the suffix left after a whitespace-only prefix, and starts with a non-whitespace character |
| JsText.TrimEndPrefix | src/App.tsx:85 | `TrimEnd`, the trailing-whitespace strip, yields the prefix left before a whitespace-only suffix, and ends with a non-whitespace character |
| JsText.Trim | src/App.tsx:85 | `trim()` yields a piece of the string that neither starts nor ends with whitespace, and it is empty exactly when every character is whitespace |
| JsText.TrimEmptyIff | src/App.tsx:85 | stripping leading and then trailing whitespace leaves `""` exactly when every character is whitespace |
| JsText.Includes | src/components/PatientForm.tsx:70 | `includes` finds the empty string and the string itself, and never a longer string. `IncludesAgreesWithPieces` gives its meaning for the pain-location answer |
| JsText.IncludesAroundSep | src/components/PatientForm.tsx:70 | a separator-free string occurs in `a + sep + b` exactly when it occurs in `a` or in `b` |
| JsText.SplitAppend | src/components/PatientForm.tsx:76-77 | splitting `a + sep + b` gives the pieces of `a` followed by those of `b` |
| JsText.SplitWithoutSep | src/components/PatientForm.tsx:76-77 | a string without the separator splits into itself alone |
| JsText.JoinSplit | src/components/PatientForm.tsx:77 | joining the pieces of a split with the same separator restores the string |
| JsText.SplitJoin | src/components/PatientForm.tsx:77 | splitting a join of separator-free pieces gives back the pieces |
| PatientForm.InitialFormData | src/components/PatientForm.tsx:8-18 | the form starts with the six fields, every text field `''` and `recentMedicationChanges` false |
| PatientForm.ChangedValue | src/components/PatientForm.tsx:20-22 | the change handler stores a flag exactly for checkbox inputs, the checked state for them and the text otherwise |
| PatientForm.CheckLocation | src/components/PatientForm.tsx:76 | checking makes an empty answer exactly the value; otherwise the old answer is a prefix, followed by a comma and the value |
| PatientForm.CheckLocationPieces | src/components/PatientForm.tsx:76 | checking adds exactly one piece, the value, after the pieces already there |
| PatientForm.UncheckLocation | src/components/PatientForm.tsx:77 | unchecking keeps exactly the pieces not equal to the value, in order, and the value is no longer a piece; with no piece left the answer is `''` |
| PatientForm.ToggleLocation | src/components/PatientForm.tsx:75-77 | after a box changes, its value is one of the pieces exactly when the box is checked |
| PatientForm.CheckThenUncheck | src/components/PatientForm.tsx:76-77 | checking a value that is not yet a piece and then unchecking it restores the answer exactly, `''` included |
| PatientForm.UncheckIdempotent | src/components/PatientForm.tsx:77 | unchecking twice is the same as unchecking once |
| PatientForm.ToggleKeepsOptions | src/components/PatientForm.tsx:65-172 | the six pain-location checkboxes keep the answer made only of option values |
| PatientForm.OptionIncludes | src/components/PatientForm.tsx:65-172 | no pain-location option value occurs inside another one |
| PatientForm.IncludesJoinedOptions | src/components/PatientForm.tsx:70 | in a comma join of option values, an option value is a substring exactly when it is one of the joined values |
| PatientForm.IncludesAgreesWithPieces | src/components/PatientForm.tsx:70 | for an answer built by the checkboxes, the substring test that shows a box as checked agrees with piece membership |
| PatientForm.QuestionnaireForm.constructor | src/components/PatientForm.tsx:8-18 | the form state starts as the initial record |
| PatientForm.QuestionnaireForm.HandleChange | src/components/PatientForm.tsx:20-25 | the named field gets the flag or the text, and every other field is unchanged |
| PatientForm.QuestionnaireForm.TogglePainLocation | src/components/PatientForm.tsx:71-78 | a pain-location checkbox rewrites only `painLocation`, to its checked or unchecked form |
| PatientForm.QuestionnaireForm.HandleSubmit | src/components/PatientForm.tsx:27-30 | the submitted record is the current record, unchanged |
| PatientForm.SubmitWithoutPainLocation | src/components/PatientForm.tsx:8-30 | answering pain level, duration and medications and submitting sends all six fields, with `painLocation` `''` and `recentMedicationChanges` false |
| App.Validate | src/App.tsx:73-90 | "Please select at least one option" exactly for a checkbox question with an empty recorded list; "Please provide a response" exactly when the checkbox branch is not taken and the answer is all whitespace; otherwise the answer is the selections joined with `", "` in order, or the text as typed |
| App.ChangedSelections | src/App.tsx:56-71 | checking appends the option at the end with no deduplication; unchecking removes every copy and keeps every other selection |
| App.TextAnswer | src/App.tsx:84 | a stored answer reads as itself, the empty one included; a non-empty answer always comes from a stored one; a missing one reads as `""` |
| App.UsesSelections | src/App.tsx:76 | the selection branch is taken only for checkbox questions and only when a list is recorded; an empty recorded list still takes it, because an empty array is truthy |
| App.ShownRangeValue | src/App.tsx:151 | the slider never shows an empty value: it shows the stored answer when one is non-empty and "5" otherwise |
| App.UntouchedRangeRejected | src/App.tsx:84-89 | a range question never moved (or cleared by a submission) shows "5" and is rejected as unanswered |
| App.UntouchedCheckboxAsksForResponse | src/App.tsx:76-89 | a checkbox question with no selection list goes through the text checks and is rejected with "Please provide a response" |
| App.QuestionnairePage.constructor | src/App.tsx:38-41 | no answers, no selections, nothing submitted, no banner, no timers |
| App.QuestionnairePage.SubmitDisabled | src/App.tsx:208 | a question's button is disabled exactly while its id occurs in the submitted list at least once |
| App.QuestionnairePage.HandleInputChange | src/App.tsx:49-54 | sets only the question's text answer; every other key and all other state are unchanged |
| App.QuestionnairePage.HandleCheckboxChange | src/App.tsx:56-71 | sets only the question's selection list, starting from `[]` when there is none; other questions and other state are unchanged |
| App.QuestionnairePage.SaveResponse | src/App.tsx:73-119 | a rejection issues no request and changes only the banner (and schedules its clearing); an acceptance returns the create request, clears the answer (and the selections of a checkbox question), appends the id to the submitted list, sets the success banner and schedules both timers, so the button is disabled until the release timer fires; a rejection leaves the button as it was |
| App.QuestionnairePage.DeleteResponse | src/App.tsx:121-125 | returns the delete request for the id, sets the deleted banner and schedules its clearing; nothing else changes |
| App.QuestionnairePage.FireTimer | src/App.tsx:113-118 | the banner timer clears the banner whatever it shows; the release timer removes every copy of the id, so its button is enabled again |
| App.SubmitThenRelease | src/App.tsx:111-118 | after an accepted submission and the firing of its release timer the button is enabled; a rejected one leaves the submitted list as it was |
| PatientProfile.InitialProfile | src/components/PatientProfile.tsx:10-18 | the profile form starts with the seven fields, all `''` |
| PatientProfile.FieldOrEmpty | src/components/PatientProfile.tsx:23-29 | the `''` default of each field gives a present text value unchanged, the empty one included, and `''` for a missing one |
| PatientProfile.Normalise | src/components/PatientProfile.tsx:22-30 | loaded data gives exactly the seven fields, each the loaded value or `''` when it is missing; other keys are dropped |
| PatientProfile.NormaliseFixesProfile | src/components/PatientProfile.tsx:22-30 | a record with exactly the seven fields normalises to itself |
| PatientProfile.NormaliseIgnoresOtherKeys | src/components/PatientProfile.tsx:22-30 | keys other than the seven fields have no influence on the record |
| PatientProfile.ProfileForm.constructor | src/components/PatientProfile.tsx:10-18 | the form state starts as the initial record |
| PatientProfile.ProfileForm.LoadInitialData | src/components/PatientProfile.tsx:20-32 | present data replaces the record by its normalisation; absent data leaves the record unchanged |
| PatientProfile.ProfileForm.HandleChange | src/components/PatientProfile.tsx:34-37 | sets only the named field to the input text |
| PatientProfile.ProfileForm.HandleSubmit | src/components/PatientProfile.tsx:39-42 | the saved record is the current record, unchanged |

## Left out

- Rendering, styling and React's hook mechanics are not modelled. Each handler runs as one
  sequential update, with no batching and no double invocation.
- The data service is not modelled: `observeQuery`, the list of previous responses
  it feeds, and what `create` and `delete` do. Only the request values are modelled.
- Timer delays are not modelled: a pending timer may fire at any moment, in any order
  relative to others.
- Validation by the browser's `required` attribute is not modelled; it is not code
  of the repository.
- `src/main.tsx` and the backend schema and authorisation files are not modelled. They
  are configuration for managed services.
- The root component's profile loading and switching between profile, dashboard and
  questionnaire views is not part of this model. The `src/App.tsx` modelled here has
  no such logic.
- The on-screen checked state of the page's checkboxes and radios is not modelled, nor
  the button label. The checked state of the pain-location boxes is covered by
  `IncludesAgreesWithPieces`.
- PatientForm.QuestionnaireForm.TogglePainLocation: requires `painLocation` to hold
  text. If `handleChange` had stored a flag under that name (the markup never does),
  `split` would throw; that error is not modelled.
- PatientProfile.Normalise: loaded data is a map from field name to text. A `null`
  field is treated as a missing one (both give `''`). Non-text values are not modelled.
- Strings are Dafny strings, which are sequences of Unicode scalar values. JavaScript
  strings are sequences of UTF-16 code units. `split(',')`, `filter`, `join`, `trim` and
  `includes` agree on well-formed text, but lone surrogates cannot be represented.
