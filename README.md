# Query execution core of a local BigQuery IDE, in Dafny

This project models the server side of a small browser IDE for BigQuery
(`server/server.js`). It covers three pieces and proves properties about each:

- **Error location.** When a dry run fails, the engine's error message is
  searched for its first `[line:column]` marker, and the position is read
  from it. Without a marker the position is 0, 0. This is
  `getLineAndColumnNumberFromErrorMessage`, and in the model it is the module `ErrorLocator`.
- **Dry-run response.** `queryDryRun` turns the engine's reply to an
  estimate-only job into the `{statistics, error}` object. In the model this is `DryRun`.
- **Reshaping.** `create_data` turns the result rows, one record per row,
  into one array of values per column, the columns being those of the first
  row. In the model this is `Reshape`.
- **The active-job slot.** The global `activeJobId` records the job that
  `getQueryOutputWtDryRun` started. `/cancel_job/` cancels that job and
  clears the slot. `/run_query/` runs a query and reshapes its rows. In the model
  these are the class `Jobs.QueryService`.

The engine (BigQuery) is not modelled. Each call to it becomes an input,
namely the reply the engine gives:
- `EstimateReply` for the dry run;
- `SubmitReply` for job creation;
- `FetchReply` for the wait on results;
- `CancelReply` for `job.cancel()`.

A ghost log, `QueryService.calls`, records every engine call in order. The
object invariant `Valid()` says two things:
- the log is `Ordered`: a real job is created only right after an accepted
  dry run of the identical query text, and results are fetched and
  cancellations sent only for jobs the engine created;
- the slot holds only the id of a created job.

`getQueryOutputWtDryRun` is modelled in two steps, `Submit` (lines 81-92)
and `Collect` (lines 94-98). The await on results is one of the points where another
request can run. `Execute` is the two steps run back to back.
`CancelDuringRun` and `OverlappingRunsLoseSecondJob` show what happens when
requests do interleave at that point.

Behaviour of the code that the model keeps:
- A later row that has a field the first row lacks makes `.push` throw
  (lines 114 and 116): `result[key]` is undefined there. `CreateData`
  returns `Failure(UndefinedColumn(key))` for the first such field in
  row-major order. A later row that lacks one of the first row's fields
  throws nothing. That column just gets shorter (`ExampleMissingField`,
  `ColumnLength`).
- A new run overwrites the slot even when it holds another job (line 92),
  and a finishing run clears it whatever it holds (line 96).
  `OverlappingRunsLoseSecondJob` shows the second job becoming impossible
  to cancel.
- A rejection of `createQueryJob` or `getQueryResults` has no handler in
  `getQueryOutputWtDryRun`, so the slot is not cleared. `Collect`/`Execute`
  model exactly that.
- `/cancel_job/` reads the slot (lines 146-147), waits on `job.cancel()`
  (line 148) and only then clears the slot (line 150). It is modelled in two
  steps, `StartCancel` and `FinishCancel`. `CancelErasesNewJob` shows a run
  that creates its job during that wait: the clearing erases the new id, the
  answer is "Job cancelled" for the old job, and the new job can no longer
  be cancelled.
- The client asks for `/query_dry_run/`, but `server/server.js` has no such
  route. Dry runs happen only inside `/run_query/`.

## Model

| member | source | states |
|---|---|---|
| ErrorLocator.DigitRunEnd | server/server.js:13 | A greedy `\d+` starting at `p` ends at the first non-digit, so everything it covers is a digit and the character after it is not. |
| ErrorLocator.DigitRunEndUnique | server/server.js:13 | A digit run followed by a non-digit can end in only one place, so greedy `\d+` has a single way to match. |
| ErrorLocator.MarkerAtMeansMatch | server/server.js:13 | The executable marker test at index `i` holds exactly when the regular expression `\[(\d+):(\d+)\]` matches at `i` with the colon and bracket where the test finds them. |
| ErrorLocator.MatchIsMarker | server/server.js:13 | Any match of the regular expression at `i` is the one the marker test finds: the colon and the closing bracket are determined by `i`. |
| ErrorLocator.FindMarker | server/server.js:13 | The search returns the leftmost index where a marker starts, with no marker before it, or none when the message has no marker. |
| ErrorLocator.LeadingZeroIgnored | server/server.js:16-17 | A leading zero does not change the decimal value of a digit run, as with `parseInt("007")`. |
| ErrorLocator.LocateLeftmostMatch | server/server.js:13-19 | If the leftmost match has groups `d1` and `d2`, the result is `{line: value(d1), column: value(d2)}`. |
| ErrorLocator.DecimalValue | server/server.js:16-17 | The value `parseInt` reads from a captured digit run, digit by digit in base 10. A run of `n` digits reads as less than `10^n`. |
| ErrorLocator.Locate | server/server.js:11-24 | The locator itself: the position read from the first marker, and exactly `{line: 0, column: 0}` whenever the regular expression matches nowhere in the message. |
| ErrorLocator.LocateCharacterised | server/server.js:11-24 | The locator is total. Every message either has a marker and yields the value of its leftmost one, or has none and yields 0, 0. |
| ErrorLocator.ExampleTrailingMarker | server/server.js:12 | A message ending in `at [65:7]` gives line 65, column 7. |
| ErrorLocator.ExampleFirstMarkerWins | server/server.js:13-17 | In `[07:1][3:4]` the first marker wins and the leading zero is ignored: 7, 1. |
| ErrorLocator.ExampleNoMarker | server/server.js:20-23 | A malformed marker `[12:]`, or the empty message, gives 0, 0. |
| DryRun.QueryDryRun | server/server.js:36-61 | `hasError` is set exactly when the engine threw. On failure, `message` is the engine's message verbatim, `location` is the locator applied to it, and `totalBytesProcessed` is "". On success, `message` is "", there is no location, and the statistic is the formatted byte count. |
| DryRun.FailureLocatesMessage | server/server.js:48-58 | A failed dry run's location is the position of the message's leftmost marker, or 0, 0 when the message has none. |
| Reshape.Unwrap | server/server.js:113-117 | The value pushed for a cell: the `value` field of an object that has one, and any other cell unchanged. |
| Reshape.ForeignKeyInCharacterised | server/server.js:112-116 | Within a row, the search finds a field that has no column exactly when the row has one, and what it finds is a field of the row with no column. |
| Reshape.FirstForeignKeyCharacterised | server/server.js:111-116 | Across all rows, the search finds nothing exactly when every field of every row has a column. What it finds is a field of some row with no column. |
| Reshape.ForeignKeyInPrefix | server/server.js:112-116 | A field without a column found in a prefix of a row is the first one of the whole row. |
| Reshape.FirstForeignKeyPrefix | server/server.js:111-116 | A field without a column found in a prefix of the rows is the first one of all the rows. |
| Reshape.CellsOfRow | server/server.js:112-117 | A row pushes exactly one value, its unwrapped field value, onto each column it has a field for, and nothing onto the others. |
| Reshape.ColumnLength | server/server.js:111-119 | A column has at most one entry per row. It has exactly one per row iff every row has that field. |
| Reshape.ColumnAligned | server/server.js:111-119 | If every row has the field, entry `i` of its column is the unwrapped value of row `i`'s field, in row order. |
| Reshape.HomogeneousRowsAlign | server/server.js:104-119 | Rows whose field names are exactly the first row's, in any order, reshape without error. Every column is as long as the rows and holds, at index `i`, the unwrapped value from row `i`. |
| Reshape.EmptyColumns | server/server.js:105-109 | There is one empty column per field of the first row, in the first row's field order. |
| Reshape.PushRow | server/server.js:112-118 | One row's pushes either throw on the row's first field that has no column, or append exactly that row's unwrapped values to each column. |
| Reshape.CreateData | server/server.js:101-122 | No rows give no columns. Otherwise the call throws on the first field, in row-major order, that the first row lacks. Without such a field, the column names are the first row's names in order, and each column holds what the rows push onto it, in row order. |
| Reshape.ColumnOfTwoRows | server/server.js:111-119 | With two rows, a column holds the first row's pushes followed by the second's. |
| Reshape.CellsOfAB | server/server.js:112-117 | A row with fields `a` and `b` pushes its two unwrapped values onto their columns. |
| Reshape.ExampleTwoRows | server/server.js:101-122 | `[{a:1,b:2},{a:{value:3},b:4}]` gives `{a:[1,3], b:[2,4]}`, so a wrapped value and a bare one converge. |
| Reshape.ExampleMissingField | server/server.js:111-119 | `[{a:1,b:2},{a:3}]` gives `{a:[1,3], b:[2]}`, so the columns fall out of line. |
| Reshape.ExampleExtraField | server/server.js:113-116 | `[{a:1},{a:2,c:3}]` throws on `c`. |
| Jobs.HasActiveJob | server/server.js:146 | The truthiness test on the slot: `null` and the empty id are falsy, and every non-empty id is truthy. |
| Jobs.OrderedExtend | server/server.js:81-94 | Appending an allowed engine call keeps the log ordered and adds exactly the job it creates, if any, to the created jobs. |
| Jobs.SubmissionFollowsDryRun | server/server.js:81-90 | In an ordered log, every job creation comes immediately after an accepted dry run of the identical query text. |
| Jobs.RunKeepsOrder | server/server.js:81-96 | The calls of one run keep the log ordered and forget no created job. |
| Jobs.RejectedRunCreatesNothing | server/server.js:84-87 | A run whose dry run fails makes no job-creation call and leaves the slot as it was. |
| Jobs.QueryService.constructor | server/server.js:9 | The server starts with an empty slot and no engine calls. |
| Jobs.QueryService.Submit | server/server.js:81-92 | The dry run comes first. If it fails, the method returns at once with the slot and everything else unchanged. Otherwise it creates the job. When creation resolves, the slot holds the new id; when it rejects, the error escapes and the slot is unchanged. |
| Jobs.QueryService.Collect | server/server.js:94-98 | The only engine call is the result fetch for this run's job. When rows arrive, the slot is cleared whatever it holds. When the fetch rejects, the slot is unchanged. |
| Jobs.QueryService.Execute | server/server.js:66-99 | Run alone from start to finish, the run makes the calls `RunCalls` lists. It leaves the slot as `SlotAfterRun` gives it: cleared after results, unchanged after a failed dry run or a rejected job creation, and holding the new job's id after the wait for results rejects. A failed dry run returns only the dry-run response. |
| Jobs.QueryService.RunQuery | server/server.js:124-140 | A failed dry run is answered with empty rows and the dry-run response. A sent answer after a good dry run holds exactly the reshaped rows. A reshaping that throws leaves the request unanswered. |
| Jobs.QueryService.StartCancel | server/server.js:145-148 | The slot is only read. With a job in it, cancellation is requested for exactly that id. With no job, no engine call is made. |
| Jobs.QueryService.FinishCancel | server/server.js:148-154 | After the wait, an acknowledged cancellation clears the slot, whatever it holds by then, and answers "Job cancelled". A rejected one leaves the slot as it is and sends nothing. With no job, the answer is "No active job to cancel". |
| Jobs.QueryService.Cancel | server/server.js:142-155 | With nothing interleaved at its wait: with a job in the slot, cancellation is requested for exactly that id. If the engine acknowledges it, the slot is cleared and the message is "Job cancelled". With no job, nothing changes and the message is "No active job to cancel". |
| Jobs.CancelAfterCompletedRun | server/server.js:146-154 | A cancel after a completed run is a no-op with the message "No active job to cancel". |
| Jobs.CancelTwice | server/server.js:146-154 | After an acknowledged cancel, a second cancel is a no-op: it answers "No active job to cancel", makes no engine call, and the slot ends empty if it held a job and unchanged otherwise. |
| Jobs.CancelDuringRun | server/server.js:90-96 | A cancel that arrives while a run waits cancels that run's job and clears the slot. The run's failed wait then leaves the slot empty. |
| Jobs.OverlappingRunsLoseSecondJob | server/server.js:90-96 | Two overlapping runs share the slot. When the first run finishes, the slot is cleared while the second job is still running, so the second job cannot be cancelled. |
| Jobs.CancelErasesNewJob | server/server.js:146-151 | A run whose job is created while a cancel waits on the engine: the cancel answers "Job cancelled" and clears the slot holding the new id. The new job was created but never cancelled, and a later cancel finds no job. |

## Left out

- The conversion of the byte statistic to gigabytes is left out: `parseFloat`, division by 10^9 and `toFixed(3)`, then the " GB" suffix. It is floating point. `DryRun.QueryDryRun` takes it as the parameter `formatGigabytes`.
- ErrorLocator.DecimalValue: the value is an unbounded natural. `parseInt` yields a double, so digit runs above 2^53 lose precision in the source but not in the model.
- The BigQuery client is not modelled: creating the client, `createQueryJob`, `getQueryResults`, `bigquery.job`, `job.cancel`. Its replies are inputs to the methods.
- A message that is not a string is not modelled. `error.message` could be undefined, and then `.match` throws.
- JSON serialisation between `getQueryOutputWtDryRun`, the handler and `create_data` is not modelled. Rows are passed as values. A row is kept as its fields in `Object.keys` order, with distinct names.
- Field names that collide with `Object.prototype` properties (`__proto__`, `toString`) are not modelled. There the source's `result` object behaves differently.
- Jobs.QueryService.RunQuery: a dry-run rejection answers `rows: []`, a JSON array. The model gives the empty columnar result instead. The text of the escaped error is descriptive only.
- An error that escapes a handler (`NoReply`) is assumed to leave the server running with no reply sent and the slot as it was. The source fixes neither the Express nor the Node version. Under Express 5 a rejected handler is answered with status 500. Under Express 4 on Node 15 or later the unhandled rejection ends the process, and the slot with it. Neither outcome is modelled.
- Express routing, headers, CORS, `listen` and console logging are not modelled.
- Asynchrony is not modelled as interleavings in general. A run is split only at the wait for results (line 94), and `/cancel_job/` only at the wait on `job.cancel()` (line 148). The run's dry run and job creation (lines 81-90) are one step, although other requests can also run during those awaits. Only the interleavings the scenario methods spell out are shown.
- The client (`client/src/index.js`) and the build configuration (`client/webpack.config.js`) are user interface and build code. They are not part of this model.
