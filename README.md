# Call routing backend: a verified model

This project models the core of a small voice-call routing backend. The backend answers the
telephony provider's webhooks:

- it prompts a caller for a three-digit extension;
- it looks the extension up in a directory;
- it bridges the call to the directory entry's number with recording enabled;
- it logs the call, then records the recording URL and the final status as later webhooks
  arrive.

It also reports the provider's recordings, paginated and joined with the call log, and counts
them in four day windows. A CRUD surface manages the extension directory.

The model is written in Dafny, one module per part of the program:

- `Http` (`http.dfy`): optional form fields and their JavaScript truthiness, and the three
  states of a JSON body field: absent, `null`, or a string.
- `Store` (`store.dfy`): the first-match lookup that both `findOne` calls perform.
- `CallModel` (`call_model.dfy`, after `models/call.js`): the `Call` row with its not-null and
  nullable columns. Also the two statements run against the table: validated insertion
  (`Create`) and update-where-`callSid` (`UpdateWhere`).
- `ExtensionModel` (`extension_model.dfy`, after `models/extension.js`): the directory entry.
- `CallController` (`call_controller.dfy`): the voice responses as an abstract list of verbs
  (`Say`, `Gather`, `Dial`). The class `CallLog` holds the `Call` table as a sequence of rows
  and has one method per webhook. Each method changes the table in place and states the
  whole new table.
- `RecordingReports` (`recording_reports.dfy`): `getAllRecordings` and `getAudioStats` as pure
  functions. The provider's listing endpoint is a function parameter, and the call table an
  input. Lemmas cover page
  arithmetic, the media URL rewrite, the "Unknown" join defaults and the nesting of the
  count windows.
- `ExtensionController` (`extension_controller.dfy`): the class `ExtensionTable` holds the
  directory as a map from key to row. It has one method per CRUD handler.
- `Scenarios` (`scenarios.dfy`): a client that relies on the contracts alone. It creates
  extension 101, routes a call through it, and completes the call with both callbacks.

Environment inputs become parameters:

- the public server URL (`serverUrl`);
- the clock (`now`, an integer timestamp);
- the start-of-day boundaries of the statistics (`DayStarts`);
- the provider's listing endpoint (a function from listing parameters to
  `Option<seq<Recording>>`, where `None` means the provider call failed), and for the
  statistics its single answer;
- a failing store (`storeFails` for the call handlers; `fault`, carrying the error message,
  for the directory handlers).

Notes on the code's behaviour:

- The dial instruction subscribes no status callback URL: the `statusCallback` line is
  commented out. Only `statusCallbackEvent: ["completed"]` remains. `CallStatusUpdate` is
  therefore an independent operation.
- A recording or status callback for an unknown `callSid` is a success that changes nothing.
- `callSid` is not unique, and an update touches every row that carries it.
- When `handleExtension` cannot create the call row, it answers 500 and sends no dial
  instruction. The row cannot be created when `From` or `CallSid` is missing, since those
  columns are not-null, or when the store fails.

## Model

| member | source | states |
|---|---|---|
| `CallModel.Create` | models/call.js:4-29 | Insertion is validated: it succeeds exactly when `from`, `to`, `callSid` and `status` are present. The row then holds exactly the given attributes, with both timestamps set to the insertion time. |
| `CallModel.StoredRowRoundTrip` | models/call.js:4-29 | Every stored row satisfies the not-null constraints, and `Create` rebuilds it from its own attributes. The nullable `extension` and `recordingUrl` may be absent. |
| `CallModel.UpdateWhere` | controllers/callController.js:88 | Update-where-`callSid` keeps the table's length and order. Every row with that `callSid` gets the patch, whether one row or several carry it, and every other row is unchanged. |
| `CallModel.UnmatchedUpdateIsNoOp` | controllers/callController.js:120-123 | An update whose `callSid` matches no row leaves the table unchanged. |
| `CallController.IncomingCall` | controllers/callController.js:13-24 | The welcome prompt is followed by a gather of exactly 3 digits, posted to `/api/calls/handle-extension`. |
| `CallController.RetryPrompt` | controllers/callController.js:37-45 | An unknown extension gets "Invalid extension. Please try again." and then the very same gather as the incoming-call prompt. It gets no dial. |
| `CallController.ConnectReply` | controllers/callController.js:47-57 | A known extension is announced, then dialled to the entry's number with `record-from-answer` and the action `/api/calls/recording`, subscribing the `completed` status event over POST. No gather is sent. |
| `Store.FindFirst` | controllers/callController.js:34 | The directory lookup (`findOne` by `extension`) returns the position of the first entry satisfying the condition, or `None` exactly when no entry does. The call join at line 172 (`findOne` by `callSid`) is the same lookup. |
| `CallController.RecordingPatch` | controllers/callController.js:88 | A recording callback sets the status to "completed" and the recording URL to the one received. |
| `CallController.StatusPatch` | controllers/callController.js:121 | A status callback sets the status to `CallStatus` when it is present and non-empty, else "completed", and leaves the recording URL alone. |
| `CallController.RecordingThenStatus` | controllers/callController.js:86-90 | A recording callback and then a status callback for one `callSid` leave each of its rows with the recording URL and the reported status, or "completed" when none was reported. No other column or row changes. |
| `CallController.StatusThenRecording` | controllers/callController.js:117-126 | In the other order, each row of that `callSid` ends "completed" with the recording URL, whatever status came first. No other column or row changes. |
| `CallController.CallLog.HandleExtension` | controllers/callController.js:29-73 | Missing or empty digits give 400 and leave the table unchanged, whatever the directory holds. An unknown extension gets the retry prompt and leaves the table unchanged. A known one gets the dial reply and exactly one appended row: `from`, the entry's `number` as `to`, the digits, `callSid`, status `ongoing`, no recording URL. A failed create gives 500 and changes nothing. |
| `CallController.CallLog.SaveRecording` | controllers/callController.js:79-95 | A missing or empty `CallSid` or `RecordingUrl` gives 400 and changes nothing. Otherwise every row of that `callSid` becomes `completed` with the URL, and the reply is the empty voice response even when no row matches. |
| `CallController.CallLog.CallStatusUpdate` | controllers/callController.js:113-131 | A missing or empty `CallSid` gives 400. Otherwise every row of that `callSid` takes `CallStatus`, or "completed" when it is absent or empty, and the reply is `{success: true}`. |
| `CallController.CallLog.GetCallLogs` | controllers/callController.js:100-108 | The reply carries the whole table, each call once in ascending key order, and the table is not changed. A store error gives 500. |
| `RecordingReports.Filters` | controllers/callController.js:143-158 | `limit` defaults to 10 and `page` to 0. A single day sets both bounds, to that day and the next. An explicit `dateAfter` or `dateBefore` overrides the bound it names. |
| `RecordingReports.TotalPages` | controllers/callController.js:187-188 | `ceil(total / limit)`: the page count `n` satisfies `total <= n*limit < total + limit`. A zero limit gives `null`. |
| `RecordingReports.TotalPagesUnique` | controllers/callController.js:188 | Any count meeting that bound is the computed one, so the value is exactly the ceiling. |
| `RecordingReports.NextPage` | controllers/callController.js:191 | `nextPage` is non-null exactly when the page came back with `limit` items, and is then `page + 1`. |
| `RecordingReports.NextPageHeuristic` | controllers/callController.js:190-191 | When the page is the matching slice of all matches, `nextPage` is non-null exactly when the page is full. A null `nextPage` means no later page exists, and a non-null one is at most `totalPages`. |
| `RecordingReports.FullLastPageOvershoots` | controllers/callController.js:190-191 | When the matches exactly fill the requested page, `nextPage` still names the following page, which equals `totalPages`. This is the heuristic's known imprecision. |
| `RecordingReports.IndexOf` | controllers/callController.js:179 | The first position where the pattern occurs, or `None` exactly when it occurs nowhere. |
| `RecordingReports.ReplaceFirst` | controllers/callController.js:179 | `replace` with a string pattern: without an occurrence the text is unchanged; otherwise only the first occurrence is replaced, with the text before and after it kept. |
| `RecordingReports.MediaUrl` | controllers/callController.js:179 | The media URL starts with `https://api.twilio.com`, and is one character shorter than host plus path exactly when the path contains ".json". |
| `RecordingReports.MediaUrlRewrite` | controllers/callController.js:179 | For every path containing ".json": the media URL is the host, the path up to its first ".json", then ".mp3", then the rest of the path. |
| `RecordingReports.MediaUrlOfJsonResource` | controllers/callController.js:179 | A resource path whose only ".json" is its suffix becomes `https://api.twilio.com` + the path with a ".mp3" suffix. |
| `RecordingReports.MediaUrlWithoutJson` | controllers/callController.js:179 | A path without ".json" is only prefixed with the provider host. |
| `RecordingReports.Enrich` | controllers/callController.js:171-184 | The provider's fields are copied as they are, and the URL is the media URL. `from`, `to` and `createdAt` come from the first call with that `callSid`. Each is "Unknown" when no call has it. |
| `RecordingReports.EnrichAll` | controllers/callController.js:170-185 | The enriched list has the page's length and order, one joined record per recording. |
| `RecordingReports.GetAllRecordings` | controllers/callController.js:137-206 | The provider is asked for the filters without a limit and for the filters with it; either call failing gives 500. Otherwise `totalPages` is the page count of the unlimited answer's length, `nextPage` is `page + 1` exactly when the paged answer holds `limit` items, and the recordings are the paged answer enriched in order. |
| `RecordingReports.RecordingsOfConsistentProvider` | controllers/callController.js:160-191 | Assume the provider returns the same matches to both calls and applies `page` as a zero-based page index at `limit` items a page. Then `totalPages` is the page count of those matches, the recordings are the enriched slice the provider returns, a non-null `nextPage` is at most `totalPages`, and a null one means no page follows. |
| `RecordingReports.TwentyFiveRecordings` | controllers/callController.js:187-191 | For a provider that returns the same 25 matches to both calls and honours `page` as a zero-based page index at `limit` items a page: with the default limit there are 3 pages, and page 2 holds 5 recordings and has no next page. |
| `RecordingReports.Fetched` | controllers/callController.js:214 | Statistics see at most the provider's first 1000 recordings. |
| `RecordingReports.CountSince` | controllers/callController.js:223 | A count since a start is at most the listing's length, 0 when every recording is older, and the whole length when none is. |
| `RecordingReports.CountBetween` | controllers/callController.js:224-226 | A count in `[lo, hi)` is at most the listing's length, 0 for an empty window, and the whole length when every recording falls inside. |
| `RecordingReports.CountSinceCounts` | controllers/callController.js:223 | The count since `start` is the number of positions in the listing whose recording was created at or after `start`. |
| `RecordingReports.CountBetweenCounts` | controllers/callController.js:224-226 | The count in `[lo, hi)` is the number of positions in the listing whose recording was created at or after `lo` and before `hi`. |
| `RecordingReports.CountSinceSplits` | controllers/callController.js:223-226 | The window `[yesterday, today)` and the window since `today` are disjoint, and together they make up the window since `yesterday`. |
| `RecordingReports.CountSinceAntitone` | controllers/callController.js:227-228 | A window with a later start counts no more recordings. |
| `RecordingReports.GetAudioStats` | controllers/callController.js:211-243 | A failed listing gives 500. Otherwise, over the first 1000 recordings, `today` counts those since the start of today, `yesterday` those in `[start of yesterday, start of today)`, and the other two those since 7 and 30 days back; each count is at most 1000. |
| `RecordingReports.StatsWindowsNest` | controllers/callController.js:216-228 | For chronological day starts: `today <= last7 <= last30` and `today + yesterday <= last7`. |
| `ExtensionController.ListBelow` | controllers/extensionController.js:6 | The listing holds each stored row below the bound exactly once, in ascending key order. |
| `ExtensionController.ListingAfterInsert` | controllers/extensionController.js:30 | A row inserted under a key above all others is listed last, after the old listing unchanged. |
| `ExtensionController.MissingOnCreate` | controllers/extensionController.js:30 | A create is rejected exactly when `number` or `extension` is absent or `null`, and the error names those columns. |
| `ExtensionController.Merge` | controllers/extensionController.js:45 | An update keeps the key; each column given a value takes it, and each column left out or rejected keeps its old value. |
| `ExtensionController.MergeIdempotent` | controllers/extensionController.js:45 | Repeating an update changes nothing further, and an update with both columns left out keeps the row. |
| `ExtensionController.NulledOnUpdate` | controllers/extensionController.js:45 | An update is rejected exactly when a column is set to `null`. An absent column is not rejected. |
| `ExtensionController.ExtensionTable.All` | controllers/extensionController.js:6 | `findAll` holds every stored row exactly once, in key order. |
| `ExtensionController.ExtensionTable.GetAllExtensions` | controllers/extensionController.js:4-11 | The reply lists the whole table in key order and changes nothing. A store error gives 500. |
| `ExtensionController.ExtensionTable.GetExtensionById` | controllers/extensionController.js:14-23 | The reply is the row under the key, or 404 "Extension not found", and the table is not changed. A store error gives 500. |
| `ExtensionController.ExtensionTable.CreateExtension` | controllers/extensionController.js:26-35 | With both columns given, exactly one row is added under a fresh key and returned with 201, and it is listed last. A validation or store error gives 400 and changes nothing. |
| `ExtensionController.ExtensionTable.UpdateExtension` | controllers/extensionController.js:38-50 | An absent key gives 404 and changes nothing. Otherwise only that row changes: given columns take the new values and absent columns keep theirs. A store or `null` error gives 400 and changes nothing. |
| `ExtensionController.ExtensionTable.DeleteExtension` | controllers/extensionController.js:53-63 | An absent key gives 404 and changes nothing. Otherwise exactly that row is removed and the others are unchanged. A store error gives 500. |

## Left out

- Voice-markup (TwiML) serialisation and the content type of replies: responses are
  abstract verbs and reply values.
- The provider's recording listing: it is a function parameter, and `GetAllRecordings`
  assumes nothing about how it applies `page`, `limit` or the date bounds. Only
  `RecordingsOfConsistentProvider` and `TwentyFiveRecordings` assume something of it: that
  it returns the same matches to both calls, and that it applies `page` as a zero-based page
  index at `limit` items a page. The code passes `page` to the provider but does not itself show that the provider
  honours it.
- `parseInt` of `page` and `pageSize`: they arrive as naturals, `None` when absent or empty.
  `NaN` from unparsable text is not modelled.
- Timezone and calendar arithmetic (`moment`, `Date`, `toISOString`). Dates are integer day
  numbers, and the day after `d` is `d + 1`. Statistics take the four start-of-day
  boundaries as a parameter. An unparsable `date` makes `toISOString` throw, which would be
  a 500; this is not modelled.
- The row order of queries without `ORDER BY`. Both `findOne` calls, the directory lookup
  and the call join, are taken to return the first matching row in table order. Both
  `findAll` calls, `Call.findAll()` and `Extension.findAll()`, are taken to return rows in
  ascending key order, as a scan of a SQLite rowid table returns them. The key order in
  `GetCallLogs`, `All` and `GetAllExtensions`, and "listed last" in `ListingAfterInsert` and
  `CreateExtension`, rest on that assumption.
- The concurrency of the per-recording joins, which is a `Promise.all`: it is modelled as an
  order-preserving sequential map. Store failures during the join are not modelled.
- `GetAllRecordings`: a zero `pageSize` yields `totalPages` `null`, which is what the JSON
  encoder makes of `Infinity` and `NaN`. The provider's behaviour for that limit is not
  modelled.
- The `createdAt`/`updatedAt` timestamps of directory entries, and non-string JSON values in
  directory requests.
- The exact text of validation messages: a failed validation is reported as the list of
  offending columns.
- Logging, authentication middleware, token issuing and password hashing, server bootstrap,
  route wiring, and database connection setup.
