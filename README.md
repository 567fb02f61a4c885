# ZebraPrinterCLI print-job core, in Dafny

This project models the two cores of ZebraPrinterCLI, a small service that prints
field-filled card templates on Zebra card printers.

The first core is the print-job lifecycle controller, `PrinterTemplateService`.
It connects to the printer and runs up to three attempts. Each attempt
initialises the printer and checks that it is ready. It then replaces the stored
template, validates the caller's field data against the template's fields,
submits the job and polls the job's status. After a failed attempt the
connection is torn down.

The second core is the `/print` endpoint of `Program.cs`. It picks the printer,
preferring USB. It then turns the controller's outcome into an HTTP result, in
one of these ways:
- the job's details from the final status snapshot;
- a timeout answer;
- the details that a regular-expression classifier pulls out of an exception's
  message.

## How the model is built

The Zebra SDK, the discovered printer and the system clock are one scripted
object, `Sdk.Device`.

Each attempt is answered from `script(n)`, where `n` counts the
`GetConnection` calls made so far. That script says what every SDK call
returns or throws. Status reads come from a per-attempt sequence of
observations, each a reply plus the time the read took.

The clock `now` is a monotone natural number. It moves only with `Task.Delay`
and with the latency of status reads.

Every call the device receives goes into a ghost log, and the contracts talk
about that log.

Each imperative method of the service has a pure counterpart that gives its
exact trace: the reply, the calls in order, the clock, and the number of
connections and status reads.

| method | pure counterpart | module |
|---|---|---|
| `PollJobStatusAsync` | `Poll` / `PollFrom` | `Polling` |
| one attempt | `Attempt` → `Connected` → `OnPrinter` → `Upload` → `Submit` | `Attempts` |
| the retry loop | `RetryFrom` / `PrintTemplateRun` | `Attempts` |

The methods in `TemplateService` are proved equal to these functions. The
source's promises are then proved about the functions as lemmas.

The regular expressions `status:(\w+)`, `position:(\w+)`, `alarm:(\d+)` and
`error:(\d+)` are explicit scans, in module `Patterns`:
- the match is the leftmost index where the literal is followed by at least one
  class character;
- group 1 is the maximal run of class characters after it.

The endpoint's dictionaries are `map<string, Value>`.

### Behaviour of the code the model keeps

- **Alarm or error code in a snapshot.** It ends polling normally. The attempt
  therefore succeeds and is not retried. The 422 answer is built from that
  snapshot.
- **A status containing `error` or `cancelled`** also ends polling normally,
  without a retry.
- **Success path.** It never calls `CloseConnection`. Only failed attempts are
  torn down.
- **Order of validation.** Field validation runs after the stored template has
  been deleted and the new one saved and read back. It does not run before any
  device change.
- **Card-feed timeout.** It cancels only when the print status also contains
  `in_progress`.
- **Polling ceiling.** It is checked only at the top of each tick, before the
  status read.
- **The `ErrorInfo.Value > 0` branch** that calls `Cancel` (lines 195–200 of
  `PrinterTemplateService.cs`) can never run. The code test before it has
  already returned. It is an `assert false` in the model.
- **Messages in the snapshot answer.** The message comes from the snapshot's
  `AlarmInfo.Description`. The alarm table is used only by the message
  classifier.
- **`catch (TimeoutException)` in the endpoint.** It is unreachable for the
  service, because `PrintTemplateAsync` wraps every failure in a plain
  `Exception`. `Endpoint.PrintServiceNeverTimesOut` proves this.

## Model

Row names refer to these source files:
- `ZebraPrinterCLI/ZebraPrinterCLI/Services/PrinterTemplateService.cs`, for the
  service;
- `ZebraPrinterCLI/ZebraPrinterCLI/Program.cs`, for the endpoint.

| member | source | states |
|---|---|---|
| Attempts.FirstMissingField | ZebraPrinterCLI/ZebraPrinterCLI/Services/PrinterTemplateService.cs:138-144 | None exactly when every declared field is a key with a non-null, non-empty value; otherwise the index of the first such field in declared order, every earlier field being provided |
| TemplateService.PrinterTemplateService.ValidateFieldData | ZebraPrinterCLI/ZebraPrinterCLI/Services/PrinterTemplateService.cs:133-145 | the `foreach` returns normally iff every field is provided, else throws the `ArgumentException` naming the first missing field; equals `Validation` |
| Attempts.NotReadyFails | ZebraPrinterCLI/ZebraPrinterCLI/Services/PrinterTemplateService.cs:75-79 | a status other than `ready`/`idle` fails the attempt with the not-ready `InvalidOperationException` right after the status query, both handles set, the template untouched |
| Attempts.MissingFieldFails | ZebraPrinterCLI/ZebraPrinterCLI/Services/PrinterTemplateService.cs:86-100 | a missing field fails the attempt with its `ArgumentException` after delete, save and field read, with no job generated or printed |
| Attempts.AttemptSubmitsIff | ZebraPrinterCLI/ZebraPrinterCLI/Services/PrinterTemplateService.cs:49-104 | `PrintTemplate` is called in an attempt iff connection, open and init succeed, the printer is ready, the delete succeeds or finds no file, save, field read and validation succeed and the job is generated |
| Attempts.AttemptPrints | ZebraPrinterCLI/ZebraPrinterCLI/Services/PrinterTemplateService.cs:103-110 | an attempt prints iff it submitted a job whose poll returned; it then returns that job id and the poll's final snapshot |
| Attempts.AttemptCalls | ZebraPrinterCLI/ZebraPrinterCLI/Services/PrinterTemplateService.cs:49-107 | an attempt calls `GetConnection` once, first, and never tears down, reconnects or sleeps the retry delay itself |
| Attempts.AttemptHandles | ZebraPrinterCLI/ZebraPrinterCLI/Services/PrinterTemplateService.cs:52-72 | a failed attempt holds the connection iff `GetConnection` returned, the printer iff `GetInstance` returned, and both are that attempt's own |
| Attempts.TeardownShape | ZebraPrinterCLI/ZebraPrinterCLI/Services/PrinterTemplateService.cs:217-236 | teardown only destroys and closes, exactly the non-null handles it is given, each once, destroy before close |
| TemplateService.PrinterTemplateService.CloseConnection | ZebraPrinterCLI/ZebraPrinterCLI/Services/PrinterTemplateService.cs:217-236 | appends exactly the teardown calls, whatever `Destroy` and `Close` reply (their exceptions are swallowed) |
| Attempts.PrintTemplateAttempts | ZebraPrinterCLI/ZebraPrinterCLI/Services/PrinterTemplateService.cs:38-127 | 1 to 3 attempts, each with one connection, a delay before each but the first, every attempt but the last failed, the result the first printed attempt's `(jobId, status)` or, after three failures, the wrapping exception "Error printing template after 3 attempts: …", always a plain `Exception` |
| Attempts.PrintTemplateTeardown | ZebraPrinterCLI/ZebraPrinterCLI/Services/PrinterTemplateService.cs:112-120 | each failed attempt's connection is closed once and its printer destroyed once when they were obtained; a printed attempt's handles are never torn down |
| TemplateService.PrinterTemplateService.PrintTemplateAsync | ZebraPrinterCLI/ZebraPrinterCLI/Services/PrinterTemplateService.cs:38-131 | the `for` loop's reply, calls, clock, connections and status reads are exactly those of `PrintTemplateRun`; the throw after the loop is unreachable |
| TemplateService.PrinterTemplateService.TryAttempt | ZebraPrinterCLI/ZebraPrinterCLI/Services/PrinterTemplateService.cs:40-126 | one loop iteration: the delay from the second attempt on, the attempt, and the teardown of a failure, as `AttemptStep` |
| TemplateService.PrinterTemplateService.RunAttempt | ZebraPrinterCLI/ZebraPrinterCLI/Services/PrinterTemplateService.cs:49-60 | the attempt run as `Attempt` describes on the next connection's script |
| TemplateService.PrinterTemplateService.OpenAndInitialize | ZebraPrinterCLI/ZebraPrinterCLI/Services/PrinterTemplateService.cs:53-72 | open and `GetInstance` with their wrapped faults, then the rest, as `Connected` |
| TemplateService.PrinterTemplateService.PrepareTemplate | ZebraPrinterCLI/ZebraPrinterCLI/Services/PrinterTemplateService.cs:75-93 | ready check and template delete (a missing file tolerated), then the rest, as `OnPrinter` |
| TemplateService.PrinterTemplateService.UploadTemplate | ZebraPrinterCLI/ZebraPrinterCLI/Services/PrinterTemplateService.cs:95-100 | save, field read and validation, then the rest, as `Upload` |
| TemplateService.PrinterTemplateService.SubmitJob | ZebraPrinterCLI/ZebraPrinterCLI/Services/PrinterTemplateService.cs:103-110 | generate, print and poll, as `Submit` |
| TemplateService.PrinterTemplateService.PollJobStatusAsync | ZebraPrinterCLI/ZebraPrinterCLI/Services/PrinterTemplateService.cs:147-215 | the `while (true)` loop's reply, calls, clock and status-read count are exactly those of `Poll` |
| Polling.PollStopsAtFirstVerdict | ZebraPrinterCLI/ZebraPrinterCLI/Services/PrinterTemplateService.cs:181-194 | polling ends on the first read with an alarm or error code or a `done_ok`/`error`/`cancelled` status, returning that snapshot without a cancel; a returned snapshot is the last read |
| Polling.PollCalls | ZebraPrinterCLI/ZebraPrinterCLI/Services/PrinterTemplateService.cs:156-212 | the poller only reads status, sleeps 1000 ms and cancels, and a cancel is its last call, so there is at most one |
| Polling.TimerStep | ZebraPrinterCLI/ZebraPrinterCLI/Services/PrinterTemplateService.cs:166-171 | the feed timer restarts on a read whose predecessor was not feeding, so `start` is the first read of the current feeding episode |
| Polling.EpisodeStart | ZebraPrinterCLI/ZebraPrinterCLI/Services/PrinterTemplateService.cs:166-171 | the episode's first read: every later read but the last is feeding, the one before it is not |
| Polling.CancelOnlyWhenStuck | ZebraPrinterCLI/ZebraPrinterCLI/Services/PrinterTemplateService.cs:201-208 | a cancel happens only on a read with no code, an unsettled `in_progress` status and a feeding card more than 30000 ms after its episode's first read, and it ends the poll |
| Polling.StuckReadCancels | ZebraPrinterCLI/ZebraPrinterCLI/Services/PrinterTemplateService.cs:166-208 | the converse for a whole poll: a poll whose reads end with the card stuck (no code, unsettled `in_progress`, feeding more than 30000 ms into the episode) ends with the cancel |
| Polling.CancelIffStuck | ZebraPrinterCLI/ZebraPrinterCLI/Services/PrinterTemplateService.cs:166-208 | a whole poll cancels the job if and only if its history of reads ends stuck, and the cancel is then its last call |
| Polling.PollThrows | ZebraPrinterCLI/ZebraPrinterCLI/Services/PrinterTemplateService.cs:159-164 | a poll throws only with the polling `TimeoutException` at a tick top past the 60000 ms ceiling (no read on that tick, no cancel at all), or with the fault of a failed read or cancel |
| Polling.PollReadBound | ZebraPrinterCLI/ZebraPrinterCLI/Services/PrinterTemplateService.cs:156-212 | polling terminates: at most one read per 1000 ms left before the ceiling, plus one |
| Polling.PollReadsAtMost61 | ZebraPrinterCLI/ZebraPrinterCLI/Services/PrinterTemplateService.cs:156-212 | a poll reads the status at most 61 times |
| Polling.StuckCardIsCancelled | ZebraPrinterCLI/ZebraPrinterCLI/Services/PrinterTemplateService.cs:201-208 | a card stuck feeding with the job in progress: 31 reads a second apart, then the cancel on the 32nd read 31 s in |
| Polling.IdlePollTimesOut | ZebraPrinterCLI/ZebraPrinterCLI/Services/PrinterTemplateService.cs:159-162 | a job that never settles and never sticks: 61 reads, no cancel, then the polling `TimeoutException` 61 s in |
| Endpoint.GetPrinterErrorMessage | ZebraPrinterCLI/ZebraPrinterCLI/Program.cs:246-259 | codes 4001–4007 give their table message, every other code "Printer error: Alarm code " followed by the code in decimal |
| Endpoint.TableIsNotFallback | ZebraPrinterCLI/ZebraPrinterCLI/Program.cs:250-257 | no table message has the form of the unknown-code message |
| Endpoint.GetPrinterErrorMessageInjective | ZebraPrinterCLI/ZebraPrinterCLI/Program.cs:246-259 | different codes give different messages |
| Text.IntToStringDistinct | ZebraPrinterCLI/ZebraPrinterCLI/Program.cs:257 | different integers are rendered differently |
| Endpoint.SelectPrinter | ZebraPrinterCLI/ZebraPrinterCLI/Program.cs:118 | the first USB printer if any, else the first network printer, nothing iff both lists are empty |
| Endpoint.PrinterType | ZebraPrinterCLI/ZebraPrinterCLI/Program.cs:147 | `"USB"` iff the printer is a USB printer, else `"Network"` |
| Endpoint.JobResponse | ZebraPrinterCLI/ZebraPrinterCLI/Program.cs:141-175 | 422 iff the snapshot has an alarm or error code; always exactly the five job keys with their values, plus `AlarmCode`/`Message` from `AlarmInfo` only for an alarm and `ErrorCode`/`ErrorMessage` from `ErrorInfo` only for an error; 200 has exactly the five |
| Endpoint.TimeoutResponse | ZebraPrinterCLI/ZebraPrinterCLI/Program.cs:177-185 | 422 with exactly `Error = "Timeout"` and `Message` the exception's message |
| Endpoint.ParseCode | ZebraPrinterCLI/ZebraPrinterCLI/Program.cs:209 | `int.Parse` of a digit run: its value when it fits an `Int32`, else the `OverflowException` |
| Patterns.Match | ZebraPrinterCLI/ZebraPrinterCLI/Program.cs:193-196 | group 1 of a match is a non-empty run of class characters |
| Patterns.MatchSucceeds | ZebraPrinterCLI/ZebraPrinterCLI/Program.cs:193-196 | `Success` iff the literal followed by a class character occurs somewhere |
| Patterns.MatchIsLeftmost | ZebraPrinterCLI/ZebraPrinterCLI/Program.cs:199-206 | group 1 is the maximal class run after the leftmost occurrence |
| Patterns.MatchOfLiteralThenRun | ZebraPrinterCLI/ZebraPrinterCLI/Program.cs:193-196 | on the literal followed by a class run, group 1 is that run |
| Patterns.ParseInt32OfNatToString | ZebraPrinterCLI/ZebraPrinterCLI/Program.cs:209 | parsing the decimal rendering of a non-negative `Int32` gives it back |
| Endpoint.Collect | ZebraPrinterCLI/ZebraPrinterCLI/Program.cs:188-225 | the dictionary always ends with `ExceptionMessage` equal to the message |
| Endpoint.ClassifyMessage | ZebraPrinterCLI/ZebraPrinterCLI/Program.cs:186-227 | the same for the classifier applied to a message |
| Endpoint.CollectOverflow | ZebraPrinterCLI/ZebraPrinterCLI/Program.cs:207-216 | the block throws iff a matched alarm or error code does not fit an `Int32`, with that `OverflowException` |
| Endpoint.CollectKeys | ZebraPrinterCLI/ZebraPrinterCLI/Program.cs:188-225 | only the six keys of the block are ever written |
| Endpoint.CollectTokens | ZebraPrinterCLI/ZebraPrinterCLI/Program.cs:199-206 | `Status` and `Position` are present iff their patterns matched, with group 1 |
| Endpoint.CollectCodes | ZebraPrinterCLI/ZebraPrinterCLI/Program.cs:207-216 | `AlarmCode` iff `alarm:(\d+)` matched, holding the parsed code, with `Message` its table message; `ErrorCode` iff `error:(\d+)` matched, holding its code |
| Endpoint.AlarmMessageIsNotGeneric | ZebraPrinterCLI/ZebraPrinterCLI/Program.cs:219-222 | the generic message is no alarm code's message |
| Endpoint.CollectFallback | ZebraPrinterCLI/ZebraPrinterCLI/Program.cs:219-222 | `Message` is present iff an alarm matched or nothing matched, and it is the generic message iff none of the four patterns matched |
| Endpoint.ClassifyFindsPatterns | ZebraPrinterCLI/ZebraPrinterCLI/Program.cs:193-216 | on a message, each of the four keys is present iff its pattern occurs in it, the tokens being group 1 of the leftmost match |
| Endpoint.ClassifyAlarmMessage | ZebraPrinterCLI/ZebraPrinterCLI/Program.cs:193-225 | "alarm:" followed by a code gives exactly `AlarmCode`, its table `Message` and `ExceptionMessage`, or the overflow for a code above `Int32.MaxValue` |
| Endpoint.PrintResponseKinds | ZebraPrinterCLI/ZebraPrinterCLI/Program.cs:136-237 | 200 iff the job returned with no code; a `TimeoutException` gets the timeout answer; any other exception a 422 carrying its message, or the overflow problem |
| Endpoint.ErrorKeyOnlyForTimeout | ZebraPrinterCLI/ZebraPrinterCLI/Program.cs:177-185 | only a `TimeoutException` gets an answer with the `Error` key |
| Endpoint.PrintServiceNeverTimesOut | ZebraPrinterCLI/ZebraPrinterCLI/Program.cs:177-185 | no answer to a run of the service carries the `Error` key: the timeout catch is dead |
| Endpoint.HandlePrint | ZebraPrinterCLI/ZebraPrinterCLI/Program.cs:111-237 | discovery failure gives a problem with its message, no printer gives the "No printers found" problem, no template file gives 404, otherwise one run of the service on the chosen printer, the answer for its outcome and the device's new log, clock, connection count and read count |

## Left out

- **ASP.NET hosting and HTTP plumbing.** This covers CORS, OpenAPI, URLs,
  logging, console output and `JsonSerializer`. Results are modelled as values.
- **Printer discovery and its background threads** (`PrinterDiscoveryService`,
  `NetworkDiscoveryHandler`). Their result is the input `Discovery`, two lists.
  A failure of discovery is a `Reply`.
- **The template file.** Its existence and its text are the input
  `templateFile` of `HandlePrint`; the path and file I/O are not modelled.
- **`PrinterConfig`.** It is not read by the service, whose constants are
  hard-coded.
- **Zebra SDK internals.** These are `GetConnection`, `Open`,
  `ZebraCardPrinterFactory`, `ZebraCardTemplate` and `GetJobStatus`. Each call
  returns or throws as the device's script says. `ZebraCardTemplate` is not an
  object of the model: its calls go to the card printer handle. A discovered
  printer's `ToString()` is its `name`. The device stands for the printer the
  endpoint chose.
- **The `ArgumentNullException` checks** of the service. No argument of the
  model can be null. A null value inside the field dictionary is modelled, as
  `None`.
- **`Environment.TickCount` wrap-around and `Math.Abs`.** The clock is a
  monotone natural number.
- **`\w` and `\d`** are their ASCII classes. Unicode letters and digits are not
  modelled.
- **`int.Parse`** is modelled on digit runs only, with its `Int32` overflow.
  Leading signs and whitespace cannot occur after `\d+`.
- **`async`/`await`** are sequential steps. A `Task.Delay` is a `Delay` call in
  the log that moves the clock.
- **Timing of delays and SDK calls.** A `Delay(ms)` moves the clock by exactly
  `ms`, and only status reads take time of their own; every other SDK call is
  instantaneous. A `Task.Delay(1000)` that overruns past the 60000 ms polling
  ceiling cannot be represented, so the model may read once more where the
  real poller would already have thrown. The read bounds hold either way.
- **`TemplateService.PrinterTemplateService.PrintTemplateAsync`: the `connection`
  and `zebraCardPrinter` variables.** The loop does not keep them. Each attempt
  returns the handles it obtained in its `AttemptEnd`, and the teardown gets
  those. The source resets both to null after every teardown, so nothing that
  can be observed differs.
