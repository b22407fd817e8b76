# Upload and query client of the multi-source retrieval system

This project models the browser client of a retrieval-augmented question answering
system. The client has three parts:

- **The transport layer** (`api.js`). It picks the backend address. It turns every
  backend response into returned data or a raised error (`handleResponse`). It builds the
  multipart form that uploads a source document.
- **The upload widget** (`UploadWidget.js`). The user picks or drops a file, and the widget
  checks its extension against an allow-list of five document types. An upload either
  completes at once or creates an ingestion job. The widget then polls that job's status
  on a single timer until the job completes or fails.
- **The query console** (`QueryConsolePage.js`). The user types a question and optional JSON
  filters. The page validates them, sends one query request and displays the answer and
  its citations, with defaults for missing fields.

Modules:

- `Wrappers`: `Option` and `Result`.
- `JsValue`: JSON values with JavaScript truthiness, optional property access, `||`,
  `String()` conversion and object spread.
- `JsText`: the string operations the client uses (`trim`, ASCII `toLowerCase`,
  `split('.').pop()`, `includes`, `join`).
- `Api`: the transport layer, on values.
- `Upload`: the widget as a class whose fields are its React state, its one pending timer
  and the requests it has made.
- `QueryConsole`: the page as a class, plus pure functions for what it displays.

React's render cycle is modelled explicitly. After every event, `Render` re-runs the
polling effect when `status.jobId` or `status.state` changed. The effect's cleanup clears
the pending timer, and the effect body schedules a poll in 1000 ms when a job id is set
and the state is `queued` or `processing`. A poll that leaves the state unchanged keeps
the 1500 ms timer it set itself.

## Model

| member | source | states |
|---|---|---|
| JsText.Trim | frontend_react_js/src/pages/QueryConsolePage.js:19 | `trim()` yields the slice of the input between a blank prefix and a blank suffix; it neither starts nor ends with whitespace, and it is empty exactly when the input is all whitespace |
| JsText.TrimIdempotent | frontend_react_js/src/pages/QueryConsolePage.js:97 | trimming a trimmed string changes nothing |
| JsText.LeadingSpace | frontend_react_js/src/pages/QueryConsolePage.js:19 | counts the whitespace prefix: all of it is whitespace and the next character is not |
| JsText.TrailingSpace | frontend_react_js/src/pages/QueryConsolePage.js:19 | counts the whitespace suffix: all of it is whitespace and the character before it is not |
| JsText.BlankJoin | frontend_react_js/src/pages/QueryConsolePage.js:19 | a blank prefix followed by a blank suffix form a blank string |
| JsText.ToLowerAscii | frontend_react_js/src/components/UploadWidget.js:30 | lower-casing keeps the length, maps every character through the ASCII lower-case mapping and leaves no upper-case letter |
| JsText.SegmentStart | frontend_react_js/src/components/UploadWidget.js:30 | `split('.').pop()` starts just after a dot (or at the beginning), and no dot follows that start |
| JsText.SegmentStartAfterDot | frontend_react_js/src/components/UploadWidget.js:30 | for a name `stem.tail` with a dot-free tail, the last segment starts right after the last dot, whatever the stem holds |
| JsText.SegmentStartNoDot | frontend_react_js/src/components/UploadWidget.js:30 | a name without a dot is its own last segment |
| JsText.LastSegment | frontend_react_js/src/components/UploadWidget.js:30 | `split('.').pop()` is a dot-free suffix of the name that follows a dot, or is the whole name |
| JsText.JoinWith | frontend_react_js/src/components/UploadWidget.js:32 | joining no parts gives `""` and joining one part gives that part unchanged; otherwise the result starts with the first part and is at least as long as all parts but the first contribute in separators |
| JsText.JoinWithCons | frontend_react_js/src/components/UploadWidget.js:32 | a first part joined onto a non-empty rest is followed by the separator and the join of the rest |
| JsText.JoinWithAppend | frontend_react_js/src/components/UploadWidget.js:32 | joining one more part appends the separator and that part |
| JsText.Includes | frontend_react_js/src/api.js:10 | `includes` holds exactly when the needle occurs at some position of the text |
| JsText.IncludesStep | frontend_react_js/src/api.js:10 | an occurrence is at the first position or in the rest of the text |
| JsValue.Truthy | frontend_react_js/src/api.js:17 | a value is falsy exactly when it is `null`, `false`, `0` or the empty string |
| JsValue.Field | frontend_react_js/src/api.js:17 | `v?.key` is defined exactly when `v` is an object that has the key, and it is then that property's value |
| JsValue.ToJsString | frontend_react_js/src/api.js:18 | reference definition of `String(v)`: strings unchanged, numbers as their decimal text, `null`, `true` and `false` as words, objects as `[object Object]`; an empty array gives `""`, and a one-item array gives the text of its item, or `""` for a `null` item |
| JsValue.Spread | frontend_react_js/src/components/UploadWidget.js:77 | spreading copies an object's properties exactly; an array's items and a string's characters under their decimal indices, with no key other than an index below the length; and nothing from `null`, booleans or numbers |
| JsValue.Or | frontend_react_js/src/api.js:17 | `a \|\| b` is `a` when `a` is truthy and `b` otherwise |
| JsValue.NatToDecimal | frontend_react_js/src/api.js:18 | the decimal text of a number is non-empty, made of digits, has no leading zero other than the text `0` itself |
| JsValue.NatToDecimalValue | frontend_react_js/src/api.js:18 | the decimal text of a number reads back as that number |
| JsValue.IndexKeyIsDecimal | frontend_react_js/src/components/UploadWidget.js:77 | a key made of digits, without a leading zero, whose value is below the bound is exactly the decimal text of an index below the bound, so the keys spreading produces are the decimal indices and nothing else |
| JsValue.IndexFieldsKeys | frontend_react_js/src/components/UploadWidget.js:77 | the keys of a spread array are exactly the decimal texts of its indices |
| JsValue.SpreadKeys | frontend_react_js/src/components/UploadWidget.js:77 | spreading an array or a string yields exactly the decimal indices below its length as keys |
| JsValue.NatToDecimalInjective | frontend_react_js/src/components/UploadWidget.js:77 | different numbers have different decimal texts, so array and string indices spread to distinct keys |
| JsValue.IntToDecimal | frontend_react_js/src/api.js:18 | `String(n)` starts with a minus sign exactly for negative numbers; after that sign come only digits, without a leading zero, that read back as the absolute value |
| JsValue.IndexFields | frontend_react_js/src/components/UploadWidget.js:77 | spreading an array puts each item under its decimal index, and every key present is the decimal text of an index below the length |
| JsValue.Chars | frontend_react_js/src/components/UploadWidget.js:77 | spreading a string puts each character under its decimal index |
| JsValue.TruthyNonArrayHasText | frontend_react_js/src/api.js:17-18 | a truthy message other than an array never becomes an empty error message |
| Api.ApiBase | frontend_react_js/src/api.js:1-5 | the backend address is the configured URL when that is non-empty and `http://localhost:3001` otherwise; it is never empty |
| Api.IsJsonResponse | frontend_react_js/src/api.js:8-10 | a body is read as JSON only when a content-type header is present and contains `application/json` |
| Api.BodyData | frontend_react_js/src/api.js:8-15 | a JSON content type yields the parsed body, or `{}` when parsing fails; any other content type yields `{ message: text }`, with `""` when reading fails |
| Api.MessageValue | frontend_react_js/src/api.js:17 | the failure message is the first truthy one of `data.message`, `data.error`, the status text and "Request failed", and it is always truthy |
| Api.HandleResponse | frontend_react_js/src/api.js:7-24 | success exactly when `res.ok`, returning the body data unchanged; a failure carries the status, the same data and the prioritised message converted by `String()` |
| Api.MissingContentTypeIsText | frontend_react_js/src/api.js:8-14 | without a content-type header the body is read as text |
| Api.EmptyTextFailureMessage | frontend_react_js/src/api.js:13-17 | a failed text response with an empty or unreadable body reports the status text, or "Request failed" when that is empty |
| Api.TextFailureMessage | frontend_react_js/src/api.js:14-21 | a failed text response with a non-empty body raises exactly that text as its message |
| Api.Settle | frontend_react_js/src/api.js:16-23 | a caller sees the returned data of a success and the message of a failure |
| Api.MessageOr | frontend_react_js/src/components/UploadWidget.js:63 | `e.message \|\| fallback` is the message unless it is empty |
| Api.UploadForm | frontend_react_js/src/api.js:31-35 | the upload form holds the `file` field first, plus a `metadata` field exactly when the metadata option is truthy |
| Upload.Extension | frontend_react_js/src/components/UploadWidget.js:30 | the checked extension is a dot followed by dot-free text with no upper-case letters |
| Upload.ExtensionAfterLastDot | frontend_react_js/src/components/UploadWidget.js:30 | for `stem.tail` with a dot-free tail, the extension is `.` plus the lower-cased tail |
| Upload.ExtensionWithoutDot | frontend_react_js/src/components/UploadWidget.js:30 | a name without a dot is judged as a whole, lower-cased, after a dot |
| Upload.AllowedTextValue | frontend_react_js/src/components/UploadWidget.js:4-10 | the allow-list reads `.pdf, .docx, .txt, .csv, .xlsx` |
| Upload.PickFile | frontend_react_js/src/components/UploadWidget.js:28-37 | an absent file is ignored; a file is chosen exactly when its extension is on the allow-list; any other file is rejected with a message for its extension |
| Upload.RejectionMessage | frontend_react_js/src/components/UploadWidget.js:32 | the rejection names the extension, followed by the full allow-list |
| Upload.NotesTxtExtension | frontend_react_js/src/components/UploadWidget.js:30 | the extension checked for `notes.txt` is `.txt` |
| Upload.NotesTxtAccepted | frontend_react_js/src/components/UploadWidget.js:28-36 | `notes.txt` is chosen |
| Upload.FirstFile | frontend_react_js/src/components/UploadWidget.js:42 | `files?.[0]` is absent exactly for an empty list and otherwise is the first file |
| Upload.UploadingNotPolled | frontend_react_js/src/components/UploadWidget.js:50 | the uploading status has state `uploading` and no job id, so it never starts polling |
| Upload.QueuedStatus | frontend_react_js/src/components/UploadWidget.js:56 | the queued status carries the job id and state `queued`, and wants polling exactly when the job id is truthy |
| Upload.CompletedStatus | frontend_react_js/src/components/UploadWidget.js:58 | the immediate-completion status has state `completed`, no job id (so no polling), and the response's message or "Upload completed" |
| Upload.Merge | frontend_react_js/src/components/UploadWidget.js:77 | the merged status has the keys of both; the response's values win, and keys it lacks keep their previous values |
| Upload.Scheduled | frontend_react_js/src/components/UploadWidget.js:90-92 | the effect schedules a poll exactly when a truthy job id is set and the state is `queued` or `processing`; that poll fires after 1000 ms for that job |
| Upload.PollWanted | frontend_react_js/src/components/UploadWidget.js:90 | a wanted poll implies a status with a job id and a state that is `queued` or `processing` |
| Upload.AfterRender | frontend_react_js/src/components/UploadWidget.js:70-95 | with unchanged dependencies the timer is kept; with changed ones a 1000 ms poll for the shown job is pending exactly when polling is wanted |
| Upload.PollWantedByDeps | frontend_react_js/src/components/UploadWidget.js:90-95 | whether a poll is wanted depends only on the effect's two dependencies |
| Upload.UploadWidget.constructor | frontend_react_js/src/components/UploadWidget.js:21-24 | the widget starts with no file, not busy, no error, no status and no timer |
| Upload.UploadWidget.Render | frontend_react_js/src/components/UploadWidget.js:70-95 | after an event, the timer is rescheduled when the job id or the state changed, and kept otherwise |
| Upload.UploadWidget.PickFileEvent | frontend_react_js/src/components/UploadWidget.js:28-37 | picking changes only the file and the error, as `PickFile` decides |
| Upload.UploadWidget.Apply | frontend_react_js/src/components/UploadWidget.js:31-36 | a rejection sets its message as the error; a choice sets the file and clears the error; nothing else changes |
| Upload.UploadWidget.Drop | frontend_react_js/src/components/UploadWidget.js:39-44 | a drop while busy changes nothing; otherwise the first dropped file is picked |
| Upload.UploadWidget.BeginUpload | frontend_react_js/src/components/UploadWidget.js:46-52 | the upload starts exactly when a file is chosen and the widget is not busy; it sets busy, clears the error, shows the uploading status and posts a form holding only the file |
| Upload.UploadWidget.CompleteUpload | frontend_react_js/src/components/UploadWidget.js:52-67 | a truthy `jobId` queues that job and arms a 1000 ms poll; otherwise the upload completes, the callback receives the response and the file is cleared; an error is shown with "Upload failed" as fallback and the status is cleared; the widget is never busy afterwards. On a torn-down widget the state is kept, but a response without a truthy `jobId` still reaches the callback |
| Upload.UploadWidget.TimerFires | frontend_react_js/src/components/UploadWidget.js:72-89 | a pending poll requests its job's status. A response is merged into the status: `completed` stops polling, calls back and clears the file; `failed` shows the message or "Ingestion failed"; any other state polls again after 1500 ms. A `null` response or an error stops polling with an error |
| Upload.UploadWidget.ReceiveStatus | frontend_react_js/src/components/UploadWidget.js:77-85 | the three branches on the reported state after the merge |
| Upload.UploadWidget.Reset | frontend_react_js/src/components/UploadWidget.js:174-180 | while busy nothing changes; otherwise the file, the error, the status and the timer are cleared |
| Upload.UploadWidget.Teardown | frontend_react_js/src/components/UploadWidget.js:93 | teardown clears the pending timer, so no pending poll fires afterwards, and changes nothing else |
| Upload.QueuedWidget | frontend_react_js/src/components/UploadWidget.js:46-56 | uploading `notes.txt` and being answered with a job id leaves the job queued, with a 1000 ms poll pending for it |
| Upload.ProcessingPoll | frontend_react_js/src/components/UploadWidget.js:77-84 | a `processing` report is merged and the next poll comes after 1000 ms when the state changed, or after 1500 ms when it did not |
| Upload.CompletedPoll | frontend_react_js/src/components/UploadWidget.js:77-80 | a `completed` report is merged, polling stops and the callback receives it |
| Upload.PollUntilCompleted | frontend_react_js/src/components/UploadWidget.js:72-92 | a job that reports processing twice and then completed is polled exactly three times; the final status keeps the job id and the last progress, and the callback receives the final response once |
| Upload.MergedProgress | frontend_react_js/src/components/UploadWidget.js:77 | the three merged reports over the queued status leave state `completed`, message `done`, the job id and progress 55 |
| Upload.TeardownDuringUpload | frontend_react_js/src/components/UploadWidget.js:52-66 | a widget torn down during its upload keeps showing the uploading status, yet still hands the immediate completion to the callback |
| Upload.TeardownBeforePoll | frontend_react_js/src/components/UploadWidget.js:93 | a widget torn down before its first poll requests no status |
| QueryConsole.SubmitEnabled | frontend_react_js/src/pages/QueryConsolePage.js:97 | Run Query is enabled exactly when the query holds a non-whitespace character and no query is running |
| QueryConsole.FiltersBlank | frontend_react_js/src/pages/QueryConsolePage.js:19 | filters are blank, and so are never parsed, exactly when every character is whitespace |
| QueryConsole.QueryConsolePage.constructor | frontend_react_js/src/pages/QueryConsolePage.js:7-11 | the page starts empty and idle |
| QueryConsole.QueryConsolePage.EditQuery | frontend_react_js/src/pages/QueryConsolePage.js:63 | typing sets the query |
| QueryConsole.QueryConsolePage.EditFilters | frontend_react_js/src/pages/QueryConsolePage.js:82 | typing sets the filters |
| QueryConsole.QueryConsolePage.Submit | frontend_react_js/src/pages/QueryConsolePage.js:13-29 | a disabled submit does nothing. Otherwise the error and result are cleared. Non-blank filters that fail to parse give "Filters must be valid JSON" and no request. Otherwise exactly one request carries the query and the parsed filters, or none when the filters are blank |
| QueryConsole.QueryConsolePage.CompleteSubmit | frontend_react_js/src/pages/QueryConsolePage.js:28-36 | a response becomes the result; an error is shown with "Query failed" as fallback; the page is not busy afterwards |
| QueryConsole.QueryConsolePage.Reset | frontend_react_js/src/pages/QueryConsolePage.js:110-118 | while busy nothing changes; otherwise the query, the filters, the result and the error are cleared |
| QueryConsole.ShowCitation | frontend_react_js/src/pages/QueryConsolePage.js:180-208 | a citation shows its source or "Unknown Source", and its link and snippet exactly when they are truthy |
| QueryConsole.ShowCitations | frontend_react_js/src/pages/QueryConsolePage.js:178-213 | a non-empty citations array is listed one entry per citation, in order; anything else shows "No citations returned" |
| QueryConsole.ShowResult | frontend_react_js/src/pages/QueryConsolePage.js:150-178 | the panel appears exactly for a truthy result; it shows the answer, or "No answer returned" when that is falsy, above the citations |
| QueryConsole.OneCitationShown | frontend_react_js/src/pages/QueryConsolePage.js:150-213 | the answer "Paris" with one citation displays that answer and that citation verbatim |

## Left out

- `formatBytes` and every piece of JSX layout and styling: the model covers only which values are shown, not how.
- `fetch`, the endpoint paths and `encodeURIComponent`: requests are recorded as the payload or job id they carry, and responses are inputs.
- `getIngestStatus` and `queryRAG` are not modelled as calls: `Upload.UploadWidget.TimerFires`, `Upload.UploadWidget.CompleteUpload` and `QueryConsole.QueryConsolePage.CompleteSubmit` accept any `Outcome`, which covers `Settle(HandleResponse(res))` for every response and every network error; their URLs are not modelled.
- JsValue.ToJsString: an object with its own `toString` property that is not a function (such as a `detail` of `{"toString": 1}`), or an array holding such an object, makes `String()` throw a `TypeError`; the model gives `[object Object]` (or the joined text) instead.
- Api.HandleResponse: for the same values, `String(msg)` in frontend_react_js/src/api.js:18 throws a `TypeError` that carries no `status` or `data`, and the caller shows the `TypeError`'s own message; the model returns a failure with the status, the data and the `[object Object]` text.
- `JSON.parse` is a parameter of `Submit`, and `JSON.stringify` is left abstract: the metadata form field carries the JSON value itself.
- JSON numbers are integers; floating-point numbers and their `String()` forms are not modelled.
- Objects are maps, so property order is not modelled: the order of an error message's keys and of the merged status is not captured.
- `toLowerCase` is modelled for ASCII letters only; Unicode case mapping is not modelled.
- The reading of a process environment: `ApiBase` takes the variable's value (or its absence) as a parameter.
- A poll's request and its response are one atomic step (`TimerFires`), so nothing can happen while a status request is in flight. In the program, a teardown, a Reset or a new upload can happen during that wait. The effect's cleanup then clears a timer that has already fired. When the request returns a non-terminal state, the poll sets a new 1500 ms timer that no cleanup clears. An unmounted widget therefore keeps polling, and it calls `onUploadComplete` when the job completes. After a Reset, the old job's status is merged back. The model does not capture this leak; its guarantee that no poll fires after teardown covers only a pending timer.
- An upload is split into `BeginUpload` and `CompleteUpload`, so events between them are modelled; a second upload while busy cannot start because the button is disabled.
- React compares effect dependencies with `Object.is`; the model compares them by value, which differs only for object or array job ids.
- An `onUploadComplete` callback that throws is not modelled: the callback only records what it receives.
- A `null` entry in the citations array makes the real page throw while rendering; `ShowCitation` gives it the defaults instead.
- State updates after unmount are ignored by the model, as React ignores them. The callback is not a state update: an upload that settles on an unmounted widget still calls it (see `CompleteUpload`).
- The text of the error raised when a poll response is `null` follows the V8 engine; other engines word it differently.
- Upload.UploadWidget.TimerFires: a `failed` report's message is stored as its `String()` text. The program stores the raw value, so a message that is not a string differs: `true` renders as an empty alert, `["a","b"]` renders as `ab`, and an object makes rendering throw.
- Upload.UploadWidget.ReceiveStatus: the same `String()` conversion of a non-string `failed` message, for the same reason.
- JsValue.Chars: strings are spread by Unicode scalar value; JavaScript spreads them by UTF-16 code unit, so characters outside the Basic Multilingual Plane get different index keys.
- `App.js` and `SourcesPage.js` are not part of this model.
