# Medical assistant back end — a Dafny model of its decision rules

The system is a Flask and MongoDB back end with a React front end. Patients sign up, describe their symptoms, and receive three things: a severity tier, advice written by a language model, and a list of medicine names. The names are filtered through a fixed whitelist. Patients with serious assessments may ask for an appointment, and doctors accept or decline those requests.

This project models the deterministic rules around that flow and proves what they promise:

- the triage classifier;
- the medicine knowledge base and the whitelist filter;
- the access rules of the chat and appointment endpoints;
- sign-up, login and the request gate;
- the text steps around the language model;
- the suggestion list of the patient form.

| file | module | models |
|---|---|---|
| `common.dfy` | `Common` | `Option`, `Result`; subsequences; first-occurrence de-duplication (`Dedup`), which is what a `seen` set or a JavaScript `Set` keeps |
| `strings.dfy` | `Strings` | the Python/JavaScript string built-ins the core uses: ASCII `lower`, `strip` and `split()` over Python's `str.isspace()` whitespace, `in`, `endswith`, `join`, `int()` |
| `web.dfy` | `Web` | response classes, JSON fields (absent / `null` / given), Python truthiness, `ObjectId` parsing |
| `triage.dfy` | `Triage` | `RED_FLAGS`, `assess_severity` |
| `medicine_data.dfy` | `MedicineData` | the twenty-record `MEDICINE_DATABASE` and `MEDICATION_WHITELIST` |
| `medicines.dfy` | `MedicineBase` | `_normalize_med_name`, `_get_medicine_info`, `_extract_valid_meds`, the medicine endpoints, the `medicine_details` loop of `assess` |
| `accounts.dfy` | `Accounts` | `signup`, `login`, `me`, `list_users` over a `users` store (class `UserStore`) |
| `gate.dfy` | `AuthGate` | `require_auth` and `require_role`, with Flask's `g` as class `RequestContext` |
| `chat_routes.dfy` | `ChatRoutes` | `assess`, `create_appointment`, `update_appointment_status`, `get_assessment`, `update_message`, `delete_message` over the `chats` and `appointments` collections (class `ClinicStore`) |
| `model_loader.dfy` | `ModelLoader` | the first pass of `_collapse_repetition`, `_apply_med_warnings`, the context string of `generate_answer`, and its 3000-character cut |
| `patient_form.dfy` | `PatientForm` | `extractMeds` of the patient form |

## Modelling choices

- **Handlers that write to MongoDB are class methods.** Each handler becomes a method of a class whose fields are the collections. The method's contract says that its reply and the new collections equal a specification function of the old ones. For example, `ClinicStore.CreateAppointment` ensures `(r, Clinic(chats, appointments)) == CreateAppointmentResult(...)`. Lemmas about that function state what the handler promises: outcomes, permissions and preserved invariants.
- **Collections.** The `chats` and `appointments` collections are maps from ids to documents. `users` is a sequence in insertion order, because `find_one` returns the first match.
- **Ids.** An id the database assigns on insert is a parameter. Every method that inserts (`Signup`, `Assess`, `CreateAppointment`, and `UpdateAppointmentStatus` for the doctor's note) requires that it is not in use yet, as `insert_one` always adds a new document.
- **Abstract operations are function parameters.** These are bcrypt (`hashed`, `checkpw`), JWT (`encode`, `decode`) and `generate_answer` (`generate`, or the `advice` and `medsRaw` strings it produced). `decode` returns `None` for any token that fails to decode, including an expired one. No property of these functions is assumed.
- **`ObjectId(s)`** is `ParseObjectId`. It accepts 24 hexadecimal digits in either case and prints them in lower case.
  - When a handler wraps the call in `try`, as every handler of the chat routes does, a rejected id is a 400.
  - Where nothing catches the exception, the result is `ServerError`: `me`, `require_auth`, and the id taken from a token.
- **Python set iteration order.** `_extract_valid_meds` iterates `MEDICATION_WHITELIST`, a Python set whose order is unspecified. The model takes the order as a parameter `order` with `IsWhitelistOrder(order)`: every whitelisted name exactly once.
- **`_normalize_med_name` is not idempotent.** It strips, then lower-cases, then deletes dots. So `". a"` normalises to `" a"`, and normalising again gives `"a"`. `MedicineBase.NormalizeNotIdempotent` proves this. `NormalizeIdempotentIff` characterises when normalising twice is normalising once, and every whitelist key is a fixed point. The function is therefore idempotent only where its first result has no surrounding whitespace, and the model states exactly that.
- **Whitespace-only `Authorization` header.** `require_auth` reads `parts[0]` before it checks the number of parts. A header of whitespace only therefore raises an `IndexError` (500), while `me` answers 401. This is modelled as written (`AuthGate.WhitespaceHeader`).
- **A string where a list is expected.** `assess` passes `conditions` to `generate_answer` as a string. `', '.join(...)` then joins it character by character (`ModelLoader.ConditionsSpelledOut`). The context model allows either a string or a list for the list-valued keys.

## Model

| member | source | states |
|---|---|---|
| Triage.SeverityTiers | routes/chatbot.py:248-264 | critical exactly when a red flag occurs in the lower-cased `symptoms + ' ' + conditions`; otherwise urgent exactly for a fever with a digit-string age below 2, or a duration that parses to at least 7; otherwise non-urgent |
| Triage.AllergiesIgnored | routes/chatbot.py:248 | the allergies never change the tier |
| Triage.RedFlagInSymptomsIsCritical | routes/chatbot.py:249-252 | any red-flag phrase in the symptoms, in any letter case, makes the assessment critical whatever the age and duration |
| Triage.RedFlagInConditionsIsCritical | routes/chatbot.py:249-252 | the same for the conditions |
| Triage.MoreTextNeverLowersSeverity | routes/chatbot.py:249-262 | adding text before the symptoms or after the conditions never lowers the tier |
| Triage.RedFlagAcrossFields | routes/chatbot.py:249 | "chest" in the symptoms and "pain" in the conditions form the red flag "chest pain" across the joining space |
| Triage.NoRedFlagInShortText | routes/chatbot.py:12-16 | no red flag fits in fewer than seven characters |
| Triage.SmallDurations | routes/chatbot.py:258 | `int()` of the digit strings "0", "2", "3", "10" |
| Triage.FeverFound | routes/chatbot.py:249-254 | the symptom "fever" with empty conditions is searched as "fever " and contains "fever" |
| Triage.FeverCases | routes/chatbot.py:254 | for a bare "fever" there is no red flag, ages 1 and "0" pass the infant test, and 30 and the falsy 0 do not |
| Triage.FeverByAge | routes/chatbot.py:254-255 | a fever at age 1 is urgent; at age 30 with two days it is not |
| Triage.FeverAgeZero | routes/chatbot.py:254 | the number 0 is a falsy age and does not make a fever urgent; the string "0" does |
| Triage.CoughByDuration | routes/chatbot.py:257-260 | ten days is urgent, three days is not |
| MedicineData.NamesAreKeys | routes/chatbot.py:19-189 | the list of names is the key list of the database, position by position |
| MedicineData.NamesAreDistinct | routes/chatbot.py:19-189 | the twenty keys are distinct |
| MedicineData.NamesAreCanonical | routes/chatbot.py:192 | every whitelist key is stripped, lower-case and dot-free |
| MedicineBase.NormalizeShape | routes/chatbot.py:194-195 | a normalised name has no upper-case letter and no dot |
| MedicineBase.NormalizeCanonical | routes/chatbot.py:194-195 | a stripped, lower-case, dot-free name is its own normal form |
| MedicineBase.WhitelistIsNormalized | routes/chatbot.py:192-195 | every whitelist key is a fixed point of the normalisation |
| MedicineBase.NormalizeIdempotentIff | routes/chatbot.py:194-195 | normalising twice equals normalising once exactly when the first result has no surrounding whitespace |
| MedicineBase.NormalizeIdempotentWithoutDots | routes/chatbot.py:194-195 | names without dots normalise idempotently |
| MedicineBase.NormalizeNotIdempotent | routes/chatbot.py:194-195 | ". a" normalises to " a", and that normalises to "a" |
| MedicineBase.FindSpec | routes/chatbot.py:224-225 | the dictionary lookup succeeds exactly for a key, and returns a record stored under that key |
| MedicineBase.FindStored | routes/chatbot.py:224-225 | with distinct keys, the lookup returns the record stored under the key |
| MedicineBase.WhitelistIsKeys | routes/chatbot.py:192 | the whitelist holds exactly the database keys |
| MedicineBase.GetMedicineInfo | routes/chatbot.py:221-226 | a record is returned exactly when the normalised name is whitelisted, and it is the record stored under that name |
| MedicineBase.LookupOfName | routes/chatbot.py:221-226 | a name that normalises to a key finds that key's record, whatever its case, whitespace or dots |
| MedicineBase.GetMedicineDetails | routes/chatbot.py:669-685 | 404 exactly for a name whose normal form is not whitelisted; otherwise the normalised name and its stored record |
| MedicineBase.Summaries | routes/chatbot.py:658-665 | one summary per record, in database order |
| MedicineBase.ListMedicines | routes/chatbot.py:655-666 | every record's summary in database order, and `total` is their number |
| MedicineBase.NamesAreWhitelistOrder | routes/chatbot.py:192 | the database order is one iteration order of the whitelist |
| MedicineBase.StrippedNonEmpty | routes/chatbot.py:203 | no kept part is empty |
| MedicineBase.ExtractValidMeds | routes/chatbot.py:197-218 | the method's result is the first occurrence of each candidate, where the candidates come part by part and name by name |
| MedicineBase.CollectCandidates | routes/chatbot.py:201-210 | the candidate loop appends the names each part's token matches, part by part |
| MedicineBase.CandidatesStep | routes/chatbot.py:203-210 | one more part appends exactly that part's matching names |
| MedicineBase.AppendMatches | routes/chatbot.py:208-210 | the inner loop appends the whitelisted names the token matches, in iteration order |
| MedicineBase.Unique | routes/chatbot.py:212-218 | the `seen`/`out` loop keeps the first occurrence of each candidate, in order |
| MedicineBase.MatchingNamesMember | routes/chatbot.py:208-210 | a name is matched by a token exactly when it contains the token or the token contains it |
| MedicineBase.CandidatesMember | routes/chatbot.py:203-210 | a name is a candidate exactly when it is whitelisted and some token matches it |
| MedicineBase.ExtractedAreWhitelisted | routes/chatbot.py:197-218 | only whitelisted names come out, each at most once |
| MedicineBase.TokensMatch | routes/chatbot.py:203-206 | some token matches a name exactly when some part's token matches it |
| MedicineBase.PartsOfEmpty | routes/chatbot.py:199-203 | empty text has no parts, so nothing comes out |
| MedicineBase.ExtractedMembers | routes/chatbot.py:197-218 | a name comes out exactly when it is whitelisted and some part's normalised token is inside it or contains it |
| MedicineBase.CandidatesAppend | routes/chatbot.py:203-210 | the candidates of two runs of parts are those of the first followed by those of the second |
| MedicineBase.EarlierPartsFirst | routes/chatbot.py:203-218 | names first matched by the first `n` parts come out before any name first matched later |
| MedicineBase.EmptyTokenMatchesEverything | routes/chatbot.py:205-210 | a part whose token normalises to the empty string lets every whitelisted name through |
| MedicineBase.DosageTokenIsEmpty | routes/chatbot.py:205-206 | the parts "(500mg)" and "." have empty tokens |
| MedicineBase.CollectDetails | routes/chatbot.py:366-370 | the details map has exactly the names the lookup knows, each with the looked-up record |
| MedicineBase.MedicineDetails | routes/chatbot.py:366-370 | the same for `_get_medicine_info` |
| MedicineBase.DetailsCoverWhitelisted | routes/chatbot.py:366-370 | every validated name has a record, so the details map has exactly the suggested names as keys |
| MedicineBase.SearchIn | routes/chatbot.py:695-705 | the loop with its `break` lists each record with a matching use once, in database order |
| MedicineBase.SearchMedicines | routes/chatbot.py:688-707 | 400 exactly for an empty query; otherwise the matching summaries, their count and the lower-cased query |
| MedicineBase.SearchSoundAndComplete | routes/chatbot.py:696-705 | a summary is a result exactly when it belongs to a record with a use that contains the query |
| MedicineBase.SearchKeepsOrder | routes/chatbot.py:696-705 | the results are a subsequence of all summaries, so they keep database order |
| MedicineBase.SearchNamesDistinct | routes/chatbot.py:696-705 | with distinct keys, no name appears twice among the results |
| MedicineBase.SearchOfDatabaseDistinct | routes/chatbot.py:696-705 | a search of the database never lists a medicine twice |
| Web.ParseObjectId | routes/chatbot.py:416 | the parse succeeds exactly for 24 hexadecimal digits, and yields a valid id equal to the lower-cased text |
| Web.ParsePrintedId | routes/chatbot.py:391-416 | a printed id parses back to itself |
| Accounts.UserStore.Signup | routes/auth.py:10-38 | the reply and the new user list are those of the sign-up specification; no two users share an email or an id |
| Accounts.UserStore.Login | routes/auth.py:40-65 | the reply is that of the login specification; the store is unchanged |
| Accounts.UserStore.Me | routes/auth.py:67-85 | the reply is that of the `me` specification, whose outcomes `MeOutcomes` states; the store is not changed |
| Accounts.MeOutcomes | routes/auth.py:67-85 | 401 exactly when the header is not a two-word bearer header or the token does not decode; 500 exactly when the decoded id is not an `ObjectId`; 404 exactly when no stored user has that id; otherwise the first user with that id, as a view without the password |
| Accounts.SignupKeepsAccountsUnique | routes/auth.py:25-35 | sign-up keeps emails and ids unique |
| Accounts.SignupOutcomes | routes/auth.py:13-38 | 400 exactly for a missing field, a non-Gmail address or an email already taken, with the store unchanged. Otherwise exactly one user is appended: the new id, the stripped name, the normalised email, the hash, and the given role (default "patient", not validated). The reply carries the new id and a token encoding the new id, email and role |
| Accounts.NormaliseEmailIdempotent | routes/auth.py:13 | the email normalisation is idempotent |
| Accounts.LoginOutcomes | routes/auth.py:43-65 | 400 for a missing field or a non-Gmail address; the same 401 for an unknown email and for a wrong password; on success the stored user's id, name and role (default "patient") |
| Accounts.SignupThenLogin | routes/auth.py:10-65 | after a successful sign-up, a login with the same email in any case and with surrounding spaces succeeds for the new user when the password checks |
| Accounts.FindUser | routes/auth.py:52 | the lookup returns the position of a user the key matches, or the length of the store when none does |
| Accounts.FindUserIsFirst | routes/auth.py:52 | no user before the returned position matches the key |
| Accounts.FindUserFound | routes/auth.py:52 | the lookup finds the first user the key matches |
| Accounts.ListedUsersMembers | routes/auth.py:87-97 | the listing holds exactly the views, without passwords, of the users the filter lets through |
| Accounts.ListedUsersHaveRole | routes/auth.py:90-94 | with a non-empty `role` filter, every listed user has exactly that role |
| AuthGate.RequestContext.RequireAuth | utils/auth.py:9-34 | on failure the endpoint is refused with the status of `Authenticate` and `g` is unchanged; on success `g.user`, `g.user_id` and `g.role` come from the stored user, with the role defaulting to "patient" |
| AuthGate.RequestContext.RequireRole | utils/auth.py:37-47 | the verdict of `require_role` for the identity `g` holds |
| AuthGate.GateHeaderCases | utils/auth.py:12-17 | a missing or empty header is 401; a whitespace-only header raises in the gate and is 401 in `me`; any other header is read as `me` reads it |
| AuthGate.WhitespaceHeader | utils/auth.py:15-16 | the header " " is a server error in the gate and a 401 in `me` |
| AuthGate.BearerHeader | utils/auth.py:15-18 | `Bearer <token>`, with the scheme in any letter case, yields the token |
| AuthGate.AuthenticatedUserIsStored | utils/auth.py:19-30 | an authenticated user is a stored user whose id the decoded token names |
| AuthGate.TokenRoleIgnored | utils/auth.py:26-32 | the token's role and email claims never matter: only the decoded `user_id` decides who is authenticated |
| AuthGate.RoleVerdictCases | utils/auth.py:41-45 | the endpoint runs exactly for an identity with the required role; 401 without an identity; a patient at a doctor-only endpoint gets 403 |
| AuthGate.UserWithoutRoleIsPatient | utils/auth.py:32-44 | a stored user without a role acts as a patient and is refused at a doctor-only endpoint |
| ChatRoutes.ClinicStore.Assess | routes/chatbot.py:310-400 | 400 exactly for empty symptoms. Otherwise the tier is `assess_severity` of the form, and the suggested names are the whitelist extraction of the model's list. The details map has exactly those names as keys, each with its record. The reply echoes the model's advice and raw medicine list. The assessment is stored under the new id, and the appointments are untouched |
| ChatRoutes.ClinicStore.CreateAppointment | routes/chatbot.py:404-448 | the reply and the collections are those of the creation specification (a request without `notes` stores `''`); the new id is fresh and the store invariant is kept |
| ChatRoutes.ClinicStore.UpdateAppointmentStatus | routes/chatbot.py:516-548 | the reply and the collections are those of the status-update specification; the store invariant is kept |
| ChatRoutes.ClinicStore.UpdateMessage | routes/chatbot.py:600-633 | the reply and the collections are those of the edit specification |
| ChatRoutes.ClinicStore.DeleteMessage | routes/chatbot.py:636-651 | the reply and the collections are those of the delete specification |
| ChatRoutes.CreateAppointmentOutcomes | routes/chatbot.py:412-448 | 400 without an id or with one `ObjectId` rejects; 404 unless it names an assessment of the caller; 403 for a non-urgent one. Otherwise exactly one pending appointment of the caller is added under the fresh id, with the assessment's severity, the desired date, and the notes (`''` when the request has none), and the others are kept. Nothing changes on an error, and the chats never change |
| ChatRoutes.CreateKeepsInvariant | routes/chatbot.py:424-443 | every appointment keeps a known status and a serious assessment |
| ChatRoutes.UpdateStatusOutcomes | routes/chatbot.py:522-546 | a status other than accepted or declined is 400 and changes nothing. Otherwise status and note are overwritten whatever the old status, a request without a `note` key storing the empty note; the snapshot is kept, and exactly one message to the patient is added exactly when the status is accepted and the note is non-empty |
| ChatRoutes.DecisionIsNotFinal | routes/chatbot.py:524-533 | a declined appointment can later be accepted |
| ChatRoutes.UpdateStatusKeepsInvariant | routes/chatbot.py:524-533 | the status update keeps every appointment's status known |
| ChatRoutes.ReadAssessmentPermission | routes/chatbot.py:564-579 | an assessment is readable exactly by doctors and by its owner |
| ChatRoutes.MayModifyCases | routes/chatbot.py:615-647 | a message may be changed exactly by its owner, or by a doctor who wrote it as a doctor |
| ChatRoutes.PatientMayEditDoctorNote | routes/chatbot.py:535-615 | the patient a doctor's note is addressed to may edit or delete it |
| ChatRoutes.DoctorMayNotEditOthersNote | routes/chatbot.py:615 | another doctor may not change a doctor's note |
| ChatRoutes.ModifyPermission | routes/chatbot.py:600-651 | edit and delete are 403 exactly for a caller who may not change the message, with nothing changed; a permitted delete removes exactly that message |
| ChatRoutes.UpdateMessageChanges | routes/chatbot.py:618-631 | an edit changes only that message's question (when a new one is given) and its answer (only on a re-run, and then to the model's answer for the question, the caller's role and the message's stored context); the other messages and the appointments stay |
| ChatRoutes.AppointmentOutlivesAssessment | routes/chatbot.py:636-651 | the owner may delete an assessment, and the appointments made from it remain |
| ModelLoader.CollapseRepetition | utils/model_loader.py:56-65 | the loop's kept sentences are those of the one-sentence-at-a-time specification |
| ModelLoader.CollapsedIsSubsequence | utils/model_loader.py:58-65 | the kept sentences are a subsequence of the input |
| ModelLoader.CollapsedCapsRuns | utils/model_loader.py:59-62 | no non-empty sentence is kept three times in a row |
| ModelLoader.CollapsedKeepsDistinctNeighbours | utils/model_loader.py:63-65 | input without a non-empty sentence repeated next to itself passes unchanged |
| ModelLoader.ThirdCopyDropped | utils/model_loader.py:59-62 | of three equal sentences two are kept, and the next different one is kept |
| ModelLoader.ApplyMedWarnings | utils/model_loader.py:73-84 | the loop over `_MED_WARNING` yields the specification's text |
| ModelLoader.WarnedOnlyWhenTriggered | utils/model_loader.py:79 | the text is unchanged unless a watched name occurs in the lower-cased question or the joined medications |
| ModelLoader.WarnedEndsWithAnswer | utils/model_loader.py:81-83 | the answer itself is kept, at the end |
| ModelLoader.WarnedContainsTriggered | utils/model_loader.py:79-83 | every triggered caution is in the result |
| ModelLoader.WarnedKeepsWarnedText | utils/model_loader.py:82 | text that already holds every triggered caution is left alone |
| ModelLoader.WarnedIdempotent | utils/model_loader.py:79-83 | applying the cautions twice is applying them once |
| ModelLoader.BuildContext | utils/model_loader.py:115-124 | the `+=` steps build the context string of the specification |
| ModelLoader.ContextFallback | utils/model_loader.py:115-128 | the line is "General medical information request" exactly when no key is present and truthy |
| ModelLoader.ContextOrder | utils/model_loader.py:117-124 | medications open the line and allergies close it |
| ModelLoader.ConditionsSpelledOut | utils/model_loader.py:120 | a string given for a list-valued key is joined character by character |
| ModelLoader.LastSentenceEnd | utils/model_loader.py:156 | the search returns a position of `". "` before the bound, or -1 |
| ModelLoader.LastSentenceEndIsLast | utils/model_loader.py:156 | no `". "` starts between the found position and the bound |
| ModelLoader.TruncateAnswer | utils/model_loader.py:155-158 | text of at most 3000 characters is only stripped; the result is never longer than 3001 characters |
| ModelLoader.CutShape | utils/model_loader.py:156 | a cut answer is a prefix of the first 3000 characters followed by ".", and no `". "` starts after the cut |
| ModelLoader.TruncatedEndsWithDot | utils/model_loader.py:155-158 | a cut answer still ends with a full stop after `strip` |
| PatientForm.Suggest | src/components/PatientForm.js:91-146 | the `Set` after the rule blocks holds each suggestion of the fired rules once, in insertion order |
| PatientForm.ExtractMeds | src/components/PatientForm.js:75-152 | the function returns what the `extractMeds` specification says |
| PatientForm.KnownInMembers | src/components/PatientForm.js:86 | the filter keeps exactly the terms the text contains, in their order |
| PatientForm.AdviceTermsWin | src/components/PatientForm.js:76-87 | when the advice names a known term, the result is exactly the known terms it contains, in `known` order, each once |
| PatientForm.FiredAddsMembers | src/components/PatientForm.js:94-146 | the added suggestions are exactly those of the fired rules |
| PatientForm.SymptomRulesOtherwise | src/components/PatientForm.js:90-151 | otherwise the result comes from the symptom text: each suggestion of a fired rule once, in insertion order, and the defaults when no rule fires |
| PatientForm.AdviceWithoutTermsIgnored | src/components/PatientForm.js:85-90 | the advice matters only when it names a known term |
| PatientForm.SuggestionsNeverEmpty | src/components/PatientForm.js:148-151 | the result is never empty |
| PatientForm.MissingTextIsEmpty | src/components/PatientForm.js:85-90 | missing advice or symptoms read as the empty text |
| PatientForm.WordIsSubstring | src/components/PatientForm.js:94 | a whole-word match is in particular a substring match |
| PatientForm.AnyTermFinds | src/components/PatientForm.js:94-146 | a rule's test passes exactly when one of its terms is there, as a word or as a substring |
| PatientForm.FeverRuleNeedsWholeWord | src/components/PatientForm.js:94-98 | the fever rule fires exactly on a whole-word fever, headache, pain, ache or muscle |
| PatientForm.FeverishIsNotFever | src/components/PatientForm.js:94 | "feverish" contains "fever" but not as a word; "high fever" does |
| PatientForm.FiredRuleKept | src/components/PatientForm.js:94-146 | every suggestion of a fired rule is in the set |
| PatientForm.CoughSuggestions | src/components/PatientForm.js:101-105 | "cough" in the symptoms, with no known term in the advice, brings the three cough suggestions |

## Left out

- Password hashing and token signing (bcrypt, HS256 JSON Web Tokens) are function parameters; no property of them is assumed, so a round trip of `encode` and `decode` is not stated.
- The language model (`_load_base`, tokenizer, `model.generate`) and the prompt wording: its answers are parameters.
- The sentence split of `_collapse_repetition` (a regular expression on `[.!?]` followed by whitespace), the `' '.join`, the regular-expression second pass and the final `strip`: the model starts from the list of sentences and ends with the kept list.
- `_apply_med_warnings`: `meds` is what iterating the context's `medications` yields (a list, or the characters of a string); a `medications` key holding `null`, which raises, and a context that is not a dict are not modelled.
- The context string: values other than strings and lists of strings (numbers such as `age`, `null` inside a list) are not modelled; `age` is passed but never printed.
- Time stamps (`created_at`, `updated_at`), `sort('timestamp')` and the JSON conversion of dates are not modelled.
- The read-side endpoints `list_appointments`, `get_appointment` (patient enrichment, legacy snapshot back-fill), `history` and `patient_history` are not part of this model.
- `ask` and `patient_suggest` insert chat messages and are not modelled. `ask` stores a message with its `context`, which `ClinicStore.UpdateMessage` reads back on a re-run. `patient_suggest` stores a doctor message with `from_role` and `doctor_id`, the fields `MayModify` reads. The model's `chats` map holds such documents but no operation creates them.
- `MongoDB` query semantics beyond exact-field matches, and failures of the database itself, are not modelled; inserts always succeed with the id given as a parameter.
- Letter case is ASCII only: Python's and JavaScript's Unicode `lower` is not modelled. Whitespace is Python's `str.isspace()` set.
- Flask routing, CORS, logging and the React user interface other than `extractMeds` are not part of this model.
- The order among names matched by the same comma part follows `order`, one fixed iteration order of the whitelist set; the model states only what holds for every such order.
- Accounts.UserStore.Login: the login reply's token is `encode` of the claims; that the token later authenticates the same user is not stated, because `decode` is unconstrained.
- ChatRoutes.ClinicStore.UpdateMessage: the re-run answer is `generate(question, role, context)` with the message's stored context; the wording of the answer is not constrained, because `generate` is a parameter.
- JSON numbers are integers: a float such as a `duration` of 7.5 (which `int()` truncates to 7) or an `age` of 1.0 (whose `str` is not a digit string) is not modelled.
- Request bodies are JSON objects whose `email`, `name` and `password` are strings or absent: a non-string value, which makes `.strip()` or `.encode()` raise (a 500), and a `null` body, which makes `data.get` raise in `signup` and `login`, are not modelled.
- Accounts.SignupKeepsAccountsUnique: uniqueness holds for sign-ups handled one at a time; `find_one` followed by `insert_one` is not atomic, so two concurrent sign-ups with the same email can both succeed, and the model does not capture that interleaving.
- Accounts.UserStore.Signup: its `Valid()` (no two users share an email or an id) holds for one request at a time, for the same reason.
- Triage.SeverityTiers, Strings.IsDigits, Strings.ParseInt and ChatRoutes.ClinicStore.Assess recognise only the ASCII digits `0`..`9`. Python's `str.isdigit()` and `int()` also accept other Unicode decimal digits, and `isdigit()` accepts superscripts. So an age or duration written in such digits (for example `"١٠"`) can get a different tier in the model, and a superscript age with a fever, where `int()` raises outside any `try` (a 500), is not modelled.
- The assessment form's `symptoms`, `allergies` and `conditions` are strings or absent. A JSON list or number there, which the source stores as given and `str()`s for the red-flag search, is not modelled. Neither is a non-string `assessment_id`, which `ObjectId` rejects with a 400.
- Three more request values are strings, `null` or absent in the model, though the source stores any JSON value as given. These are `role` at sign-up, which `require_auth` later reads back as `g.role`, and `note` in the status update, which is tested for truthiness and formatted into the patient's message, so a note of 5 writes a message and 0 does not. The third is `question` in `update_message`, which is stored and, on a re-run, passed to `generate_answer`.
