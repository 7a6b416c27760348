# Report extraction job: verified model of the report poller

As intended, the job exchanges a refresh token for an access token and requests
a sales-and-traffic report. It then polls the report's processing status until
the report is ready, downloads the report document, and uploads it to object
storage: the raw bytes always, and the parsed JSON when the document is
GZIP-compressed. As written, `lambda_handler` never gets that far: it stops at
`time.wait(3600)` (reports.py:134) before the first status query (see
"## Findings"). The `__main__` block (reports.py:153-161) polls and downloads but
only prints the result. The model's `Handler.Handle` is the intended handler and
`Handler.HandleAsWritten` the one as written.
The only part with real control flow is the polling loop of
`ReportExtractor.get_report_document`. This project models it and proves what
it does on every stream of status answers.

- `optional.dfy` (`Optional`): absent JSON fields and Python truthiness of a string.
- `poller.dfy` (`Poller`): status answers, outcomes and the trace of queries and
  sleeps. `Assess` is the per-answer decision. `PollFrom` and `Poll` are the loop,
  written as a recursive function.
- `poller_spec.dfy` (`PollerSpec`): a reference description of every run, built on
  the first attempt whose answer ends the loop. It holds the proof that the loop
  matches that description, and the properties derived from it.
- `poller_loop.dfy` (`PollerLoop`): the same loop written as a counted `while`
  loop, proved equal to `Poll`.
- `storage_keys.dfy` (`StorageKeys`): the keys `raw-reports/{id}.gz` and
  `parsed-reports/{id}.json`, and the function that recovers the id from a key.
- `storage.dfy` (`Storage`): the bucket as a map, with uploads as puts that overwrite.
- `handler.dfy` (`Handler`): `lambda_handler` from the token exchange to the reply.
  The order of the steps and the GZIP condition on the parsed upload are modelled.
- `scenarios.dfy` (`Scenarios`): example runs of the poller on concrete answer streams.

The upstream status endpoint is a total function `answers: nat -> Response`.
`answers(i)` is the reply to the (i+1)-th status query. A reply is a body with an
optional `processingStatus` and an optional `reportDocumentId`, or an HTTP error.
A run's trace records one `Query(attempt)` per status request and one
`Sleep(seconds)` per call to `time.sleep`.

Points of the code the model keeps as they are:

- `if not doc_id` (reports.py:83) rejects an absent document id and also the
  empty string `""`.
- `get_report_id` returns `resp.json().get('reportId')` unchecked
  (reports.py:56), so the report id is an opaque answer of that call.
- `time.sleep(wait_seconds)` (reports.py:92) raises ValueError for a negative
  duration and OverflowError beyond CPython's 64-bit nanosecond range, above
  9,223,372,036 seconds. It does so at the first non-terminal answer. The model
  gives this its own outcome, `SleepRejected`, and records no sleep.
- `store_raw_file` runs before `parse_gzip_to_json` (reports.py:139-142). When
  decompressing or parsing a GZIP document raises, the run fails with the raw
  object already stored.

## Model

| member | source | states |
|---|---|---|
| Poller.Assess | reports.py:80-92 | an answer ends the loop with success exactly when its status is DONE and its document id is non-empty (and that id is the result); DONE with a falsy id is the missing-document failure; CANCELLED/FATAL fail with that status; an HTTP error fails with its code; every other status, absent or unrecognised, means keep waiting |
| Poller.PollFrom | reports.py:75-97 | from attempt `a` on, at most `max_retries - a + 1` queries are made; a timeout carries `max_retries` and `max_retries * wait_seconds`; a success ends on a query whose answer was DONE with that non-empty document id |
| Poller.Poll | reports.py:58-97 | the number of status queries never exceeds `max_retries`; with `max_retries <= 0` nothing is queried and the result is the timeout; success only through a DONE answer carrying the returned id |
| PollerSpec.PollMatchesReference | reports.py:75-97 | on every answer stream the loop equals the reference run: stop right after the first answer that halts the loop, following one query-then-sleep round per earlier answer; with no such answer, time out after `max_retries` rounds |
| PollerSpec.PollHaltsAt | reports.py:75-92 | when attempt index `k` is the first to halt, the trace is `k` query-then-sleep rounds and then the query of attempt `k + 1`, and the outcome is the one that answer produces |
| PollerSpec.PollTimesOut | reports.py:75-97 | if no answer within the budget halts, the result is a timeout after exactly `max_retries` queries and `max_retries` sleeps; the last attempt is followed by a sleep too; the reported total `max_retries * wait_seconds` equals the seconds actually slept |
| PollerSpec.PollTraceShape | reports.py:75-92 | every trace alternates Query(1), Sleep(wait), Query(2), Sleep(wait), …; a run did not time out exactly when its trace is non-empty and ends with a query, and that last answer is one that halts the loop |
| PollerSpec.DoneWithoutDocumentStops | reports.py:81-84 | DONE with a missing or empty id fails with MissingDocument right after that query: no sleep and no further query |
| PollerSpec.TerminalFailureStops | reports.py:87-88 | CANCELLED or FATAL fails with a failure carrying that status right after that query: no sleep and no further query |
| PollerSpec.HttpErrorNotRetried | reports.py:76-77 | an HTTP error on a status query aborts the loop at once with that error and is never retried |
| PollerSpec.RejectedSleepStops | reports.py:90-92 | when `time.sleep` would refuse `wait_seconds` (negative, or above 9,223,372,036), the run ends after the first query, with `SleepRejected` if that answer was non-terminal, and nothing is slept |
| PollerSpec.DoneWithDocumentSucceeds | reports.py:81-85 | DONE with a non-empty id returns that id right after that query |
| PollerSpec.ReadyOnlyAfterDone | reports.py:80-92 | a successful run's last query (number `k + 1`) got DONE with the returned non-empty id, within the budget, and every earlier answer was a keep-waiting one |
| PollerLoop.PollLoop | reports.py:75-97 | the counted loop that returns from inside its body produces the same outcome and trace as the recursive poller, and never queries more than `max_retries` times |
| StorageKeys.Key | reports.py:115 | the report id can be recovered from the key it is stored under |
| StorageKeys.RawKey | reports.py:115 | the id recovered from the raw-report key `raw-reports/{report_id}.gz` is `report_id` |
| StorageKeys.ParsedKey | reports.py:124 | the id recovered from the parsed-report key `parsed-reports/{report_id}.json` is `report_id` |
| StorageKeys.KeyRoundTrip | reports.py:115 | recovering the id from a key inverts key construction in both directions |
| StorageKeys.RawKeyRoundTrip | reports.py:115 | `key == "raw-reports/" + id + ".gz"` exactly when the id recovered from `key` is `id` |
| StorageKeys.ParsedKeyRoundTrip | reports.py:124 | `key == "parsed-reports/" + id + ".json"` exactly when the id recovered from `key` is `id` |
| StorageKeys.KeysSeparateReports | reports.py:114-125 | distinct report ids get distinct raw keys and distinct parsed keys, and no raw key equals any parsed key |
| Storage.Apply | reports.py:114-125 | after a sequence of uploads the bucket holds the old keys plus the uploaded ones; keys not uploaded keep their objects; the last upload's object is under its key |
| Storage.ApplyLastWins | reports.py:114-125 | an upload that no later upload in the sequence overwrites leaves its object under its key, whatever the bucket held before and whatever other keys were uploaded |
| Storage.ApplyIsOverlay | reports.py:114-125 | uploading a sequence overlays the old bucket with what the uploads alone produce |
| Storage.ApplyIdempotent | reports.py:114-125 | repeating the same uploads leaves the bucket as after the first time (overwrite, not duplication) |
| Handler.Handle | reports.py:128-151 | a failed step ends the run with that step's own failure and nothing later happens: a token error gives TokenFailed with its code, a report-request error SubmissionFailed, a poll that is not ready PollFailed with the poll's outcome, a download error FetchFailed, a GZIP parse failure DecodeFailed; once the report id is obtained, the status queries made are those of the default poll; uploads happen only when token, report request, polling and download all succeed; the raw upload comes first, under `raw-reports/{report_id}.gz`, with the downloaded bytes; a second (parsed) upload happens exactly when compression is "GZIP" and parsing succeeds; the reply is success exactly when the uploads needed were made, and it carries the report id and the polled document id; a parse failure leaves the raw upload in place |
| Handler.HandleAsWritten | reports.py:128-134 | the handler as written never succeeds, never polls and never uploads; once the token and report id are obtained it fails on the missing `time.wait` |
| Handler.SuccessfulRunStores | reports.py:138-143 | after a successful run the raw object is under its key; with GZIP the parsed text is under the parsed key; otherwise nothing but the raw key changed |
| Handler.WaitCallBreaksEveryRun | reports.py:128-143 | every run that reaches the uploads under the intended handler fails on `time.wait` under the handler as written, with no poll and no upload, while the intended handler polls and uploads |
| Handler.WaitCallExample | reports.py:134 | on one run where every upstream call succeeds, the handler as written fails with no uploads while the corrected one uploads the raw report and replies with the report and document ids |
| Scenarios.ReadyOnThirdAttempt | reports.py:75-92 | IN_PROGRESS, IN_PROGRESS, DONE with an id, three attempts and no delay: that id after exactly three queries |
| Scenarios.DoneWithoutIdFailsAtOnce | reports.py:81-84 | DONE with no id on the first answer: MissingDocument after one query |
| Scenarios.CancelledFailsAtOnce | reports.py:87-88 | CANCELLED on the first answer: failure with that status after one query |
| Scenarios.AlwaysInProgressTimesOut | reports.py:75-97 | always IN_PROGRESS, two attempts and no delay: timeout after two queries, each followed by a sleep |
| Scenarios.DefaultBudgetTimesOut | reports.py:62-97 | with the defaults (10 attempts, 30 seconds), an upstream that never finishes times out with 10 queries and a reported 300 seconds equal to the time slept |

## Left out

- HTTP calls: the token exchange, report creation, document metadata and download (reports.py:19-56, 99-112). Each is a `Call`, meaning an opaque answer or an HTTP error. Metadata and download are folded into one `Call<Download>`.
- A status reply whose body is not JSON, or not an object, raises at `resp.json()` or `data.get`. It ends the loop at once just as an HTTP error does, and the model represents it by the `HttpError` marker.
- JSON values other than strings in `processingStatus` or `reportDocumentId` are not modelled. A field is a string or absent.
- A `None` report id formatted into a key (`raw-reports/None.gz`) is not modelled, because the report id is an opaque string.
- Gzip decompression, JSON parsing and serialisation (reports.py:118-125) are library calls. They are one abstract function from the downloaded bytes to the uploaded text, or `None` when it raises.
- S3 uploads (reports.py:116, 125) are foreign SDK calls. They are modelled only as `Put`s of a key and an object. The bucket name parameter is not modelled.
- Real time: `time.sleep` becomes a `Sleep` event in the trace. The accepted range of `time.sleep` is CPython's, as one constant; other interpreters and platforms may differ.
- `requests.get` at reports.py:76 has no timeout, so one status query can block forever. The model gives every query an answer.
- An upload that raises (reports.py:116, 125) is not modelled. `Handler.Handle` treats every `Put` as succeeding, so its success reply assumes both uploads went through.
- The progress `print` (reports.py:91) and the `__main__` block (reports.py:153-161) are logging and entry-point wiring.
- Credential loading and client setup (reports.py:1-17) are configuration I/O.

## Findings

| source | as written | input that shows it | evidently intended | confidence | as-written member | corrected member |
|---|---|---|---|---|---|---|
| reports.py:134 | `time.wait(3600)`: Python's `time` module has no `wait`, so the call raises AttributeError | any run whose token exchange and report request succeed, e.g. one whose first status answer is DONE with id "D1" | a pause before polling (as `time.sleep(3600)`), or no call: the `__main__` block at reports.py:157-158 polls directly; the model has no clock, so the corrected handler goes straight to polling | high; not executed | Handler.HandleAsWritten (with Handler.WaitCallBreaksEveryRun and Handler.WaitCallExample) | Handler.Handle |
