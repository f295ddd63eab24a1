# Fraud-detection form: a Dafny model of its input and request logic

The page collects the 30 numeric fields of a card transaction: the anonymised
features `V1`..`V28`, `Amount` and `Time`. It gets them from a manual form or
from an uploaded JSON file, posts them to a remote scoring service, and shows
either a fraud verdict or an error, with a retry button. This project models
the three parts of `app/page.tsx` that have behaviour worth stating:

- **The normaliser** (`normalizeJsonData`), in module `Normalizer`. It maps an
  untyped key/value object to the canonical 30-field `Transaction`, or to the
  error message of the first field it cannot find. Each field is looked up
  under its upper-case key first (`V7`, `Amount`, `Time`) and its lower-case
  key second (`v7`, `amount`, `time`). A key counts as present when its value
  is not `undefined`. The value found is coerced with `Number()`.
- **The request lifecycle** (`sendApiRequest`, `handleRetry`, `resetAll`, the
  file handlers and the form's submit), in module `Lifecycle`. The state is
  `Session(loading, result, error, lastSubmitted)`. Each handler is a pure
  function that returns the new state and the effect it starts: a request
  carrying a payload, a file read, or nothing. The asynchronous end of a
  request is a separate event carrying an abstract `Outcome`. `Run` replays any
  sequence of events through the page's handlers (`Page`).
- **The input predicates**, in module `Input`. These are the per-field rule of
  the manual form (not blank after `trim()`, and not NaN under `Number()`), the
  form's conversion to an upper-case keyed object, and the rule for accepting a
  file: its MIME type is `application/json` or its name ends with `.json`.

Supporting modules: `Wrappers` (Option, Result), `Strings` (decimal rendering of
the indices in key names and messages, `startsWith`, `endsWith`, `includes`,
`trim` with the ECMAScript whitespace set) and `JsValues` (JavaScript values
and `Number()`).

JavaScript's string-to-number conversion is floating-point parsing. The model
does not interpret it: it is the parameter `parse` (`Parsers.number`).
`Number()` on every other kind of value is written out. It is the identity on
numbers, gives 1/0 for booleans, 0 for `null` and NaN for `undefined`, and
converts an array or object through the string its default `toString` gives. `JSON.parse` is the
parameter `Parsers.json`.

Some behaviours of the page's code are easy to miss, and the model keeps them:

- `resetAll` does not clear `lastSubmittedData`. Reset hides the retry button
  only because it clears the error. The next non-empty error shown, even
  "Please upload a JSON file", offers a retry of the last record sent. When
  nothing has been sent since the reset, that is the record sent before it
  (`ResetKeepsRetryableRecord`).
- Only the form's submit button is disabled while loading. A file upload or a
  retry during a request starts a second request
  (`UploadWhileLoadingSendsAgain`).
- A rejected file and a failed file read set the error without clearing the
  result, so a verdict and an error can be on display together
  (`RejectedFileLeavesVerdict`). A file whose text is empty is reported as
  "Failed to read file", not as a JSON error.
- `sendApiRequest` raises `loading` and clears `result` and `error` before it
  normalises. If normalisation then fails, it lowers `loading` again, shows
  the normaliser's message and sends nothing. A verdict that was on display
  is gone by then (`Submit`).
- A success response whose JSON body is `null` is stored with `setResult(null)`.
  The page then shows no verdict. An error set while the request was in flight,
  such as a rejected file, stays on display, because a success does not touch
  the error.

## Model

| member | source | states |
|---|---|---|
| Normalizer.Normalize | app/page.tsx:90-156 | Succeeds exactly when all 30 fields are found. On success, every one of the 30 fields is `Number()` of the value its lookup found, so none of the placeholder zeros survive. On failure, the message names the first field (in the order V1..V28, Amount, Time) found under neither key. |
| Normalizer.NormalizePrefersUppercase | app/page.tsx:129-150 | A normalised field comes from the upper-case key whenever that key is present, even when the lower-case key is present too. It comes from the lower-case key only when the upper-case one is undefined. |
| Normalizer.FirstMissingUnique | app/page.tsx:125-153 | Inputs whose lookups agree have the same first missing field. |
| Normalizer.ReadFeatures | app/page.tsx:125-136 | The feature loop from index i onward succeeds exactly when features i..28 are all found, and then yields their 29-i coerced values in order. Otherwise it fails with the message of the first missing feature. |
| Normalizer.ReadField | app/page.tsx:129-135 | One field: the coerced value of its lookup when found, otherwise that field's fixed "Missing field" message. |
| Normalizer.MissingMessageIdentifiesField | app/page.tsx:125-153 | Different fields produce different "Missing field: x or X" messages, so the error identifies the missing field. |
| Normalizer.KeysDistinct | app/page.tsx:125-127 | The 60 keys looked up (V1..V28, v1..v28, Amount, amount, Time, time) are pairwise different. |
| Normalizer.NormalizeDependsOnlyOnLookups | app/page.tsx:91-155 | Two inputs whose 30 upper-then-lower lookups agree normalise to the same result, success or failure. |
| Normalizer.NormalizeIgnoresOtherKeys | app/page.tsx:125-153 | Keys other than the 60 looked-up names have no effect on the result. |
| Normalizer.UppercaseShadowsLowercase | app/page.tsx:129-132 | When `Vk` (or Amount/Time) is present, changing the lower-case key changes nothing: the lower-case key is consulted only when the upper-case one is undefined. |
| Normalizer.CaseFallbackSymmetric | app/page.tsx:129-132 | Holding any value, undefined included, under the upper-case key alone or under the lower-case key alone gives the same result. |
| Normalizer.MissingFieldFails | app/page.tsx:125-153 | A field missing under both keys makes normalisation fail, naming that field or an earlier one. |
| Normalizer.AmountAndTimeCheckedLast | app/page.tsx:138-153 | Amount is reported missing only when all 28 features were found. Time is reported missing only when Amount was found too. |
| Normalizer.Encode | app/page.tsx:217-228 | The record written as a JavaScript object: exactly the 30 keys of one case, each holding the record's number for that field. |
| Normalizer.NormalizeEncodeRoundTrip | app/page.tsx:90-156 | A record written out under upper-case keys, or under lower-case keys, normalises back to the same record. |
| Normalizer.NormalizeIdempotent | app/page.tsx:167-168 | Normalising an already-normalised record returns that record. This is what lets retry resend the stored payload. |
| Strings.DecimalRoundTrip | app/page.tsx:126-127 | The decimal text of an index, as built into the key names, reads back as the same index. Distinct indices therefore give distinct keys. |
| Strings.Contains | app/page.tsx:203 | `message.includes("fetch")` is true exactly when "fetch" occurs in the message at some position. |
| Strings.Trim | app/page.tsx:20 | `trim()` gives "" exactly for strings made only of JavaScript whitespace. Otherwise the result begins and ends with a non-whitespace character. |
| Strings.TrimIsFramedSlice | app/page.tsx:20 | `trim()` removes only whitespace and only from the ends: its result is a slice `s[i..j]` of the input, with only whitespace before `i` and after `j`. |
| Strings.TrimStart | app/page.tsx:20 | The result is a suffix of the input, and everything removed is whitespace. |
| Strings.TrimEnd | app/page.tsx:20 | The result is a prefix of the input, and everything removed is whitespace. |
| Strings.EndsWithIsConcatenation | app/page.tsx:291 | `name.endsWith(".json")` holds exactly for names of the form prefix + ".json". |
| JsValues.Coerce | app/page.tsx:130 | `Number()`: a number is returned unchanged, undefined gives NaN, null gives 0, true and false give 1 and 0, and a string, array or object is read through the engine's string parser. |
| JsValues.CoerceUsesParserOnlyForText | app/page.tsx:130 | Only strings, arrays and objects depend on the string parser. Two parsers give the same number for any other value, and for a string exactly when they agree on its text. |
| JsValues.CoerceIdempotent | app/page.tsx:130 | `Number()` is the identity on numbers, so coercing an already-coerced value changes nothing. |
| Input.BlankFieldInvalid | app/page.tsx:20 | A whitespace-only field fails the per-field rule, whatever `Number()` makes of it. A field that passes holds at least one non-whitespace character. |
| Input.EmptyFormInvalid | app/page.tsx:80-86 | The form's initial all-empty values cannot be submitted. |
| Input.FromForm | app/page.tsx:220-228 | Field k of the converted record is `Number()` of the k-th form text. |
| Input.FormToRaw | app/page.tsx:217-228 | `onSubmit` builds an object whose upper-case keys V1..V28, Amount and Time hold `Number()` of the matching lower-case form field. |
| Input.FormSubmissionNormalizes | app/page.tsx:214-230 | The object the form builds normalises to the record of the form's own values. A valid form yields no NaN field. |
| Input.SampleSubmission | app/page.tsx:329-361 | Submitting the sample data gives a complete record with V1 from "-1.3598", V28 from "0.0085", Amount from "100.00" and Time from "45000". |
| Input.AcceptsFileCharacterised | app/page.tsx:291 | A file is accepted exactly when its type is `application/json` or its name is some stem followed by ".json". |
| Input.FileAcceptanceExamples | app/page.tsx:291 | Any name ending in ".json" is accepted whatever its type. `data.txt` with type text/plain is rejected. The extension check is case-sensitive, so `DATA.JSON` with no type is rejected. |
| Lifecycle.Submit | app/page.tsx:159-173 | A request is issued exactly when the input normalises. It then carries the normalised record, which is also remembered, with loading on and result and error cleared. Otherwise nothing is sent, the normaliser's message is the error, loading is off and the remembered record is unchanged. |
| Lifecycle.FailureMessage | app/page.tsx:191-207 | An abort shows the timeout message. A TypeError whose message contains "fetch" shows the network message, and any other TypeError or Error shows its own message. A non-Error shows the generic message. An HTTP failure's message is exactly "API error (status): " followed by the response's body text, or by "Unknown error" when the text could not be read. |
| Lifecycle.Complete | app/page.tsx:191-210 | After any outcome loading is off and the remembered record is untouched. A success stores the body (a JSON null body clears it) and leaves the error alone. A failure stores its message and leaves the result alone. |
| Lifecycle.Retry | app/page.tsx:312-316 | With no remembered record, retry does nothing. Otherwise it sends exactly the remembered record and keeps it remembered. |
| Lifecycle.Reset | app/page.tsx:319-326 | Result and error are cleared. The remembered record and the loading flag stay as they were. |
| Lifecycle.SubmitForm | app/page.tsx:214-230 | While loading, or with any invalid field, submitting does nothing. Otherwise it sends the record of the form's values. |
| Lifecycle.ChooseFile | app/page.tsx:284-309 | A file is handed to the reader exactly when it is accepted. A rejected file sets "Please upload a JSON file" and nothing else. No file changes nothing. |
| Lifecycle.FileLoaded | app/page.tsx:241-257 | Empty text gives "Failed to read file" and text that is not JSON gives the format message, each with loading off. A parsed document goes through `sendApiRequest`. A request is sent exactly when it normalises, carrying its normalised record with loading on and nothing displayed. Otherwise the normaliser's message is shown, loading is off, the result is cleared and the remembered record is kept. |
| Lifecycle.FileReadFailed | app/page.tsx:259-262 | A read error shows "Error reading file" with loading off, keeping the result and the remembered record. |
| Lifecycle.Next | app/page.tsx:159-326 | Whatever the event, a request that is sent becomes the remembered record, and it goes out with loading on and nothing else displayed. An event that sends nothing leaves the remembered record alone. A file read starts only for an accepted chosen file. |
| Lifecycle.PageKeepsSlot | app/page.tsx:159-326 | Every handler of the page keeps the single remembered-record slot. A payload it sends becomes the remembered record, and a handler that sends nothing leaves the record alone. |
| Lifecycle.RunRemembersLastSent | app/page.tsx:74-168 | For any handlers that keep the slot, after any run of events the remembered record is the last payload sent, or the starting one if nothing was sent. |
| Lifecycle.PageRunRemembersLastSent | app/page.tsx:159-326 | The same holds for the page's own runs: `lastSubmittedData` is always the last record sent. |
| Lifecycle.NextKeepsNoResultWhileLoading | app/page.tsx:159-210 | No handler can put a verdict on display while loading is on. |
| Lifecycle.RunKeepsNoResultWhileLoading | app/page.tsx:159-326 | From a state showing no verdict while loading, no run of the page's events ever shows one while loading. |
| Lifecycle.RunsFromPageLoad | app/page.tsx:69-74 | From the state on page load, every run of events keeps "no verdict while loading" and remembers exactly the last record sent, or nothing when none was sent. |
| Lifecycle.SubmitThenComplete | app/page.tsx:159-210 | A request that was sent and has ended leaves loading off and the record remembered. A non-null success stores only the body as the result, and a failure stores only its error, with an abort mapped to the timeout message and a fetch TypeError to the network message. |
| Lifecycle.RetryAfterFailureResendsSameRecord | app/page.tsx:312-316 | After a failed request, retry resends exactly the record that failed. |
| Lifecycle.ResetKeepsRetryableRecord | app/page.tsx:319-326 | Reset hides the retry button but keeps the record. Any event after it that shows a non-empty error offers a retry, and when that event sent nothing the retry is of the record sent before the reset. A rejected file chosen right after the reset is such an event. |
| Lifecycle.RejectedFileLeavesVerdict | app/page.tsx:291-295 | Rejecting a file keeps a verdict already on display and adds the error beside it. |
| Lifecycle.UploadWhileLoadingSendsAgain | app/page.tsx:241-248 | While loading, submitting any form, valid or not, changes nothing and sends nothing. A file read that ends during the request still starts a second request. |

## Left out

- `fetch`, `AbortController` and the 15-second `setTimeout` (app/page.tsx:175-189) are network I/O and a timer. A request's end is the abstract `Outcome` event, with `Aborted` standing for the timeout.
- `FileReader` and `JSON.parse` are asynchronous I/O and a foreign parser. They appear as the events `FileRead(text)` and `FileReadError` and the parser parameter `Parsers.json`.
- A JSON document whose top level is not an object is not modelled. Top-level `null` makes the normaliser throw a TypeError whose text is engine-specific. Other scalars and arrays behave like an empty object, which is the `Document` a parser parameter would return for them.
- JsValues.Coerce: string-to-number parsing (`Number(str)`, `isNaN`) is the parameter `parse`, not the ECMAScript grammar, because it is floating-point parsing. Numbers are `Num` (NaN, the infinities, or an exact finite value) with no IEEE rounding; the model does no arithmetic on them.
- A value whose conversion to a primitive throws is not modelled. Examples are an object whose own `toString` and `valueOf` are not functions (`{"toString": 0}`) and an array holding such an object. For such a value `Number()` at app/page.tsx:130 throws a TypeError, and `sendApiRequest` (app/page.tsx:169-172) shows its engine-specific message and sends nothing. The model has no such `Value`, so it says nothing about these inputs.
- The verdict's fields (`is_fraud`, `fraud_probability`) are not represented. A response object is a `Structured` value carrying only its default string form, so two different verdicts are the same `Value`. No property here depends on which verdict is shown.
- `JSON.stringify` of the request body and `console.log` are serialisation and logging. NaN and ±Infinity fields all become `null` on the wire, which the model does not show. The text "Infinity" passes the form's per-field rule, so such a field can be sent.
- The catch blocks of `onSubmit` (app/page.tsx:231-233) and of `handleFileUpload` (app/page.tsx:265-268) are unreachable in practice, because `sendApiRequest` and the reader callbacks catch everything. So is the "Invalid data format" fallback (app/page.tsx:170), because the normaliser throws only `Error`s.
- The form's field contents, `form.reset`, clearing the file input, the drag-active flag, the active tab and all rendering (including the `toFixed(2)` risk score) are presentation state. Only the retry button's visibility rule is modelled (`RetryOffered`): the error box renders only for a non-empty message, and the button inside it only when a record is remembered.
- The handlers run one at a time in any order the events arrive. Interleaving inside a handler does not arise in a single-threaded page, and which event may follow which is not constrained.
