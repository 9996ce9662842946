# T-Flow AI medical triage: the decision core in Dafny

This project models the deterministic part of the T-Flow AI triage
backend:

- `rule_based_triage`: a keyword classifier that lower-cases the symptom
  text and scans four groups in priority order: Critical, Urgent, Moderate,
  Low. The first group with a matching keyword wins. When no keyword
  matches, the result is Moderate.
- The vital-sign flagger of `flag_vitals`. Pulse, systolic and diastolic
  readings outside their normal closed ranges are flagged, and `any_flag`
  is their OR.
- The reply normaliser of `call_groq`. It turns the language model's raw
  completion into a label.
- `triage_patient`. It picks the model's label or the rule-based one, falls
  back to the rules when the model call raises, and stores the assessment.
  When the store fails it still returns the label.
- The request validation of the FastAPI layer: `TriageRequest` and
  `VitalsRequest` with their validators.
- The `limit` check of the two recent-records endpoints.
- The counting done by `GET /api/stats`.

Files:

- `wrappers.dfy`: the `Option` and `Result` types.
- `pystr.dfy`: the Python string operations the code uses, with their
  algebra. These are `lower`, `strip`, `split`, `capitalize` and the
  substring test.
- `store.dfy`: the persistence layer, a `Table` class.
  - It holds its rows in creation order.
  - `Insert` may fail.
  - `Recent` lists rows newest first.
- `triage_core.dfy`: the classifier, the flagger, the normaliser and the
  two orchestrating methods.
- `api.dfy`: validation, the recent-records endpoints, the statistics loop,
  and the two POST endpoints.
- `triage_cases.dfy`: the concrete outcomes from the repository's tests,
  derived from the model.

The collaborators the code reaches through module-level clients are
parameters:

- The completion service's answer is a `Completion`: either
  `ServiceFailure`, or `Reply(content)` with the raw text.
- The store is a `Table` whose `failing` field decides whether `insert`
  and `select` raise.

Where the code is weaker than its documentation, the model follows the
code:

- The stored `use_ai` is the requested flag, even when the call fell back
  to the rules (backend/triage_core.py:274).
- A reply with no level line yields its last non-blank line, lower-cased
  and capitalised. That label need not be one of the four levels
  (`ReplyWithPunctuationLeaks`). The final `result.capitalize()` fallback
  is never reached, because a non-empty stripped reply always has a
  non-blank line (`NormaliseReplyNoLevel`). backend/test_api.py:50 nevertheless
  expects one of the four on the AI path.
- The 5..2000 length bound on `symptoms` applies to the text as sent,
  before `validate_symptoms` strips it. An accepted description can
  therefore be shorter than five characters (`PaddedShortSymptomsAccepted`).

## Model

The "states" column gives what each member's contract says.

| member | source | states |
|---|---|---|
| TriageCore.FirstMatch | backend/triage_core.py:235-237 | The index of the first group with a keyword in the text. Every earlier group has none, and `None` means no group matches. |
| TriageCore.RuleBasedTriage | backend/triage_core.py:216-239 | Critical iff the lower-cased text mentions a Critical keyword. Urgent iff an Urgent keyword and no Critical one. Low iff a Low keyword and none of the three higher groups. Moderate in every other case, including no keyword at all. |
| TriageCore.RuleBasedTriageHighestWins | backend/triage_core.py:228-237 | No group ranked above the returned level has a keyword in the text. |
| TriageCore.RuleBasedTriageIgnoresCase | backend/triage_core.py:226 | Classifying the lower-cased text gives the same level as classifying the original. |
| TriageCore.LevelNameIsLevel | backend/triage_core.py:229-239 | Every label the classifier returns is "Critical", "Urgent", "Moderate" or "Low". |
| TriageCore.EvaluateVitals | backend/triage_core.py:309-312 | Each flag is set exactly when its reading lies outside a closed range: pulse 60..100, systolic 90..160, diastolic 60..100. `any_flag` is their OR. |
| TriageCore.VitalsNormalIff | backend/triage_core.py:309-312 | No flag is raised iff all three readings are within their normal ranges. |
| TriageCore.LastWhere | backend/triage_core.py:199-201 | The index of the last line passing the test, with no later line passing it. `None` means no line passes. |
| TriageCore.NormaliseReply | backend/triage_core.py:190-210 | The reply parsing fails, with the empty-reply error, iff the stripped reply is empty. A label it produces is never empty. |
| TriageCore.CallGroq | backend/triage_core.py:180-213 | A failing completion service makes the call fail. |
| TriageCore.CapitalizeLevelWord | backend/triage_core.py:201-202 | Capitalising a valid lower-case level word gives one of the four level names, and lower-casing that name gives the word back. |
| TriageCore.NormaliseReplyLastLevel | backend/triage_core.py:196-202 | When line j strips and lower-cases to a level word and no later line does, the result is line j cleaned and capitalised, which is a level name. |
| TriageCore.NormaliseReplyNoLevel | backend/triage_core.py:204-210 | Without any level line, the result is the last non-blank line, cleaned and capitalised. Such a line always exists, so the final `result.capitalize()` fallback is never reached. |
| TriageCore.LevelLineIsWord | backend/triage_core.py:200-202 | A line that cleans to a level word yields one of the four level names. |
| TriageCore.DecideLevel | backend/triage_core.py:257-266 | The label is one of the four level names, unless it is the answer of a successful model call. |
| TriageCore.RulePathWithoutAi | backend/triage_core.py:265-266 | With `use_ai` false, the label is the rule-based one whatever the service would answer. |
| TriageCore.FallbackOnAiFailure | backend/triage_core.py:259-264 | With `use_ai` true and a failing model call, the label is the rule-based one, and it is a level name. |
| TriageCore.DecidedLabelIsLevel | backend/triage_core.py:257-266 | The label is a level name unless the service returned a non-blank reply in which no line names a level. |
| TriageCore.TriagePatient | backend/triage_core.py:242-292 | The label is decided before storing. A missing `patient_info` is stored as `{}`. The stored row carries the requested `use_ai`. On success, the appended record has the next id, the result carries its id and the record, and the record is the newest in the table. On a store failure the rows are unchanged, and the result keeps the label with no id, no data and the error "Failed to store in database". |
| TriageCore.FlagVitals | backend/triage_core.py:295-351 | The flags equal `EvaluateVitals` whether the insert succeeds or fails. On success the stored row carries the readings, flags and patient info. On failure the rows are unchanged, and there is no id and no data but the store error is set. |
| Store.NewestFirst | backend/triage_core.py:354-370 | The first `limit` records from the newest backwards. Its length is `min(limit, count)`. |
| Store.NewestFirstAfterAppend | backend/triage_core.py:354-370 | After an append, any listing of at least one record starts with the new record, followed by the previous listing shortened by one. |
| Store.Table.Insert | backend/triage_core.py:269-275 | Insert either fails and leaves the rows unchanged, or appends a record with the next id and returns it. Ids remain the row positions. |
| Store.Table.Recent | backend/triage_core.py:354-387 | A failing store yields an empty list. Otherwise it yields the `min(limit, count)` newest records, newest first, and never more than `limit`. |
| Api.ValidateSymptoms | backend/main.py:43-55 | Accepted iff the raw length is in 5..2000, the stripped text is non-empty, and the lower-cased text has no PII indicator. An accepted text yields the stripped text. Too short and too long are reported before the other checks, then a blank text, then sensitive information. |
| Api.ContainsAfterStrip | backend/main.py:53-55 | Anything in the lower-cased stripped text is also in the lower-cased raw text. |
| Api.AcceptedSymptomsAreClean | backend/main.py:47-55 | Accepted symptoms are non-empty, already stripped, free of PII indicators, and at most 2000 characters long. |
| Api.RevalidateAccepted | backend/main.py:43-55 | Validating an accepted description again gives it back unchanged, provided it still has at least five characters. |
| Api.BlankSymptomsRejected | backend/main.py:49-50 | Whitespace-only text is rejected at any length. |
| Api.ShortSymptomsRejected | backend/test_api.py:75-82 | "Hi" is rejected as too short. |
| Api.PaddedShortSymptomsAccepted | backend/main.py:43-55 | "    a" is accepted and yields "a". "a" on its own is rejected. |
| Api.VitalsErrors | backend/main.py:65-74 | Each error is one of four: a range error for pulse 30..250, for systolic 60..300, for diastolic 30..200, or the blood-pressure error. None appears twice. A range error appears iff its field is outside its bounds. The blood-pressure error appears iff both pressures are within bounds and diastolic >= systolic. The list is empty iff every value is within bounds and diastolic < systolic. |
| Api.ValidateVitals | backend/main.py:65-74 | A request is accepted iff it has no validation error, that is iff pulse is in 30..250, systolic in 60..300, diastolic in 30..200 and diastolic < systolic. An accepted request yields its readings. A rejected one carries exactly its non-empty error list. |
| Api.PulseTooHighRejected | backend/test_api.py:122-130 | A pulse of 300 with 120/80 is rejected with the pulse range error only. |
| Api.DiastolicAboveSystolicRejected | backend/test_api.py:112-120 | 80/80/90 is rejected with the blood-pressure error only. |
| Api.SystolicOutOfRangeSkipsComparison | backend/main.py:70-74 | When systolic is itself rejected, the diastolic comparison does not run. |
| Api.AcceptedVitalsMayBeFlagged | backend/main.py:65-68 | 250/300/200 passes validation and raises every flag. |
| Api.GetRecent | backend/main.py:174-197 | A `limit` outside 1..100 gives 400 with "Limit must be between 1 and 100". Otherwise the response holds the table's newest records and their count, which is at most `limit`. The same body serves `get_recent_vitals` at backend/main.py:206-229. |
| Api.LimitRejectionIgnoresStore | backend/main.py:183-187 | The rejection is the same for any store, because it comes before any fetch. |
| Api.Occurrences | backend/main.py:252-255 | The number of records counted under a key is at most the number of records. |
| Api.KeysOfIff | backend/main.py:252-255 | A key is in the breakdown iff at least one record is counted under it. |
| Api.CountFlagged | backend/main.py:257 | The number of flagged records is at most the number of records. |
| Api.TotalRemove | backend/main.py:252-255 | The sum of a breakdown is any one key's count plus the sum of the others. |
| Api.TotalUpdate | backend/main.py:255 | After setting one key's count to v, the sum is v plus the sum of the other keys' counts. |
| Api.TallyStep | backend/main.py:255 | `triage_levels[level] = triage_levels.get(level, 0) + 1` keeps the dictionary an exact tally of the records seen so far. |
| Api.CountLevels | backend/main.py:252-255 | The loop builds a dictionary whose keys are exactly the keys records are counted under. Each count is that key's number of records, and the counts sum to the number of records. |
| Api.CountFlaggedLoop | backend/main.py:257 | The summed generator counts the records whose `any_flag` is true. A missing flag counts as false. |
| Api.ComputeStats | backend/main.py:252-266 | `total_assessments` and `total_checks` are the record counts. The breakdown is an exact per-key tally that sums to `total_assessments`. `flagged_cases` is the number of true flags and is at most `total_checks`. |
| Api.LevelKey | backend/main.py:254 | A record without `triage_level` is counted under "Unknown", and any other record under its own level. |
| Api.MissingLevelCountedAsUnknown | backend/main.py:254 | A record without `triage_level` puts "Unknown" into the breakdown with a positive count. |
| Api.GetTriageStats | backend/main.py:238-266 | Statistics over the 100 newest records of each table. Both totals are at most 100. The breakdown tallies the triage records and sums to their number. `flagged_cases` counts flagged vitals records and is at most `total_checks`. |
| Api.CreateTriage | backend/main.py:110-136 | A request that fails validation gets status 422 and leaves the store unchanged. An accepted one runs `triage_patient` on the stripped symptoms. The store error appears iff the store fails, and on success the table becomes the old rows plus one record with the next id, the stripped symptoms, the decided level, the patient info (empty when absent) and the AI flag; that id is returned with no error. |
| Api.CheckVitals | backend/main.py:140-170 | A request that fails validation gets 422 with its errors and leaves the store unchanged. An accepted one returns `EvaluateVitals` of the readings. The store error appears iff the store fails, and on success the table becomes the old rows plus one record with the next id, the readings, the four flags returned and the patient info (empty when absent); that id is returned with no error. |
| TriageCases.SeizureAndVomitingIsCritical | test.py:17-21 | "Patient experiencing seizure and vomiting" is classified Critical. |
| TriageCases.HeadacheAndTirednessIsModerate | test.py:35-39 | "Patient has headache and tiredness" is classified Moderate, not Low. |
| TriageCases.NoCriticalKeyword | backend/triage_core.py:229 | A text lacking the letters z, l and o contains no Critical keyword. |
| TriageCases.NoUrgentKeyword | backend/triage_core.py:230 | A text lacking the letters o, b and l contains no Urgent keyword. |
| TriageCases.LowPulseFlagsOnlyPulse | test.py:53-56 | 55/120/80 raises the pulse flag and `any_flag`, and no other flag. |
| TriageCases.NormalVitalsRaiseNoFlag | backend/test_api.py:84-97 | 85/120/80 raises no flag. |
| TriageCases.HighVitalsRaiseEveryFlag | backend/test_api.py:99-110 | 120/180/110 raises every flag, `any_flag` included. |
| TriageCases.ReplyCriticalIsCritical | backend/triage_core.py:199-202 | The reply "Critical" on the AI path gives the label "Critical". |
| TriageCases.ReplyReasoningThenLevel | backend/triage_core.py:196-202 | For the reply "Possibly urgent\nLow\n", the last level line wins and the label is "Low". |
| TriageCases.ReplyWithPunctuationLeaks | backend/triage_core.py:204-207 | The reply "Critical." gives the label "Critical.", which is not a level name. |

## Left out

- Case mapping in `lower` and `capitalize` covers ASCII letters only. Non-ASCII characters are left unchanged. `strip` uses Python's full whitespace set.
- The request to the completion service is not modelled: model name, temperature, message layout and the prompt text. Only its outcome, a failure or a reply string, is an input.
- The Supabase client and its queries are not modelled. The store is a sequence of rows in creation order, and ids are row positions. The `order('created_at', desc=True)` ordering is assumed to match creation order.
- `created_at` and `datetime.now()` timestamps, and all `print` logging.
- FastAPI plumbing is not modelled: app and CORS setup, exception handlers, 500 responses, uvicorn start-up, the root and health endpoints, and the `confidence` field. A 500 response arises only from exceptions that the modelled operations never raise.
- The model does not convert `record_id` to a string in the response. It stays the numeric id.
- `flag_percentage` is float division with `round`, so it is left out.
- A stored `triage_level` of JSON `null` is not modelled. A fetched record either carries a string level or lacks the key.
- A missing vitals key in `flag_vitals` would raise a `KeyError`. The model takes three required integers instead.
- The combined symptoms-and-vitals request and `/api/assessments/recent` appear only in the top-level test scripts. The `TriageRequest` at backend/main.py:42-45 has no vitals field, so they are left out.
- Api.GetRecent: the query parameter `limit` is taken as an integer. FastAPI's own 422 for a non-integer `limit` is not modelled.
- Default arguments are not modelled: `use_ai` defaults to true (backend/main.py:45, backend/triage_core.py:242), and `limit` and `limit_count` default to 10 (backend/main.py:175, 207; backend/triage_core.py:354, 372). The model makes every one of them a required parameter.
