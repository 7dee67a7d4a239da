# jarvis-watcher, modelled in Dafny

jarvis-watcher is a Node.js watchdog daemon (`index.js`). It watches over a local
OpenClaw agent gateway and its workspace, and wakes the agent through a webhook
(`POST /hooks/wake`) when something needs attention:

- the gateway stops answering health checks, or answers again;
- a watched workspace file changes;
- free memory falls below 30 %, or disk usage rises above 90 %;
- the heartbeat recorded in `heartbeat-state.json` is older than 45 minutes.

Each wake event type has a cooldown of five minutes. The daemon also serves a
JSON status snapshot on port 18790.

This project models the daemon's decision and state-update engine:

- The global `STATE` is the class `Daemon.Watcher`.
- Each handler of the source is a method of that class. The handlers are: the wake
  sender, the gateway response and error callbacks, the file-watch callback and its
  debounce timer, the two resource-probe callbacks, the heartbeat check, the status
  route and the shutdown sweep.
- Time is a `now` parameter.
- Every I/O outcome is an input of the step that handles it: an HTTP status, a
  transport error, a probe's output, what reading the heartbeat file gave, or a timer
  callback running at some time.
- A method that may wake the agent returns the requests it makes, as a sequence of at
  most one `WakeRequest`, instead of sending them.

Each method's `ensures` ties the new state and the requests to a pure function in one
of the monitor modules. The properties are proved about those functions:

| module | file | what it holds |
|---|---|---|
| `Config` | config.dfy | the constants of `CONFIG` and the seven wake event types |
| `Text` | text.dfy | the JavaScript string built-ins the parsers use: `String(n)`, `split('\n')`, `split(/\s+/)`, `replace('%', '')` and `parseInt` |
| `Notifier` | notifier.dfy | the cooldown ledger, with the attempt and the response as separate steps |
| `Gateway` | gateway.dfy | the up/down state machine and its invariant |
| `Debounce` | debounce.dfy | the per-path timer map, and `path.basename` |
| `Resources` | resources.dfy | the memory and disk output parsers, the thresholds and the record updates |
| `Heartbeat` | heartbeat.dfy | the staleness state machine |
| `StatusServer` | status_server.dfy | the status response and the interval labels |
| `Daemon` | daemon.dfy | the `Watcher` class |

Points where the model follows the code closely:

- **Non-200 gateway answers.** The response callback (index.js:120) acts only on
  status 200 and has no other branch. Any other status therefore changes nothing
  (`Gateway.OnResponse`).
- **Timeouts.** The health request passes a 5-second `timeout` option (index.js:119)
  but installs no `timeout` handler. A slow gateway counts as failed only if an `error`
  event eventually arrives.
- **Two sends within the cooldown.** The ledger entry is written only in the response
  callback, on status 200 (index.js:100-104). So two attempts made before either
  response both go out (`Notifier.InFlightAttemptsBothPass`). So does any attempt
  after a failed one (`Notifier.FailedDeliveryKeepsGateOpen`).
- **Short disk-report lines.** Field 4 of line 1 of the disk report is read without
  checking that it exists (index.js:203-204). When that line has fewer than five
  whitespace-separated fields, `replace` is called on `undefined`. The callback then
  throws, and nothing catches the exception (`Resources.DiskShortLineThrows`). The
  parser returns this outcome as `UsageFieldMissing` and the disk step as `DiskCrash`.
  `Daemon.Watcher.OnDiskProbe` reports it as `crashed`.

## Model

| member | source | states |
|---|---|---|
| Config.EventNamesDistinct | index.js:123-334 | the wire names of the event types are pairwise distinct, so the ledger keyed by event type is the ledger keyed by name |
| Text.NatToString | index.js:146 | rendering a count gives a non-empty digit string with no leading zero except for 0 |
| Text.DigitsValueOfNatToString | index.js:146 | the digits of a rendered count read back as that count |
| Text.SplitOn | index.js:201 | the parts contain no separator and join back to the input; there is one part exactly when the separator is absent; part 0 is everything before the first separator |
| Text.SecondLine | index.js:201-203 | in a text whose first line is followed by a newline, line 1 is the text between the first and second newline |
| Text.SplitFields | index.js:203 | the fields contain no white space, interior fields are non-empty, and field 0 is the text before the first white space |
| Text.SpaceRuns | index.js:203 | the separators `split(/\s+/)` consumes are non-empty runs of white space |
| Text.SplitFieldsJoinBack | index.js:203 | there is one separator run between each pair of fields, and the fields joined back with those runs give the input |
| Text.SplitFieldsOfJoinRuns | index.js:203 | fields that hold no white space, with non-empty interior fields, joined by runs of white space of any length, split back into exactly those fields |
| Text.RemoveFirst | index.js:204 | removing a character leaves a string without it untouched, and otherwise removes exactly one character |
| Text.RemovesFirstOccurrence | index.js:204 | only the first occurrence goes: what precedes it and everything after it stay |
| Text.ParseIntJsReadsLeadingNumber | index.js:204 | parseInt reads a leading decimal number and ignores a following non-digit suffix, unless that suffix makes "0x" |
| Text.ParseIntJsOfNatToString | index.js:187 | parseInt of a digit string without leading zeros is its number |
| Text.ParseIntJs | index.js:187-204 | after leading white space and an optional sign, the result is NaN exactly when no decimal digit follows, or when "0x"/"0X" is followed by no hexadecimal digit; a negative result needs a leading '-', and a leading '-' never gives a positive result |
| Text.ParseIntJsReadsLeadingInt | index.js:204 | parseInt reads back any rendered integer, negative ones included, ahead of a suffix that does not continue it |
| Text.ParseIntJsNaN | index.js:204 | an empty string or one starting with a character that is neither a digit, a sign nor white space gives NaN |
| Notifier.Attempt | index.js:78-84 | no request while now minus the last delivery (missing entry = 0) is below 300000 ms, otherwise exactly one, carrying the event, text, mode "now", the bearer token and the attempt time |
| Notifier.Record | index.js:100-111 | only a 200 response sets the event's ledger entry, and sets it to the attempt time; any other answer or a transport error leaves the ledger unchanged; other event types are never touched |
| Notifier.DeliveryStartsCooldown | index.js:78-104 | after a delivered request, the same event type is skipped exactly until the cooldown has elapsed from the attempt time |
| Notifier.FailedDeliveryKeepsGateOpen | index.js:100-111 | after a non-200 or failed request, any later attempt of the same type is made |
| Notifier.InFlightAttemptsBothPass | index.js:78-104 | two attempts of one type within the cooldown, both made before any response, both send |
| Notifier.LateResponseRewindsLedger | index.js:100-104 | when the responses of two in-flight requests arrive out of order, the ledger ends at the earlier attempt's time |
| Gateway.OnResponse | index.js:119-132 | a 200 resets the count and failures to 0, marks the record healthy, clears the down flag, and raises recovery exactly when the gateway was down; any other status changes nothing; the invariant (down iff count >= 3, record mirrors count, unhealthy iff count > 0) is kept |
| Gateway.OnError | index.js:135-148 | a transport error raises the count by exactly 1 and sets the record unhealthy with the new count; a down alert with the count is raised exactly when the threshold is reached while not down, which from a valid state is exactly when the count becomes 3; the invariant is kept |
| Gateway.RunKeepsInvariant | index.js:119-148 | every state reached by any sequence of checks from a valid state is valid |
| Gateway.OutageAlertsOnce | index.js:135-148 | over any run of checks without a 200, the count grows by the number of errors and at most one down alert is raised, carrying 3, exactly when the run takes a gateway that was not down to the threshold |
| Gateway.DownMessageReadsBack | index.js:146 | the down alert starts with its fixed wording, followed by the failure count, which parseInt reads back |
| Gateway.DownMessageOfThree | index.js:146 | the alert after three failures reads "OpenClaw gateway is unresponsive after 3 failed checks" |
| Gateway.ThreeFailuresThenRecovery | index.js:118-151 | three errors then a 200 from the start raise exactly a down alert with count 3 and a recovery alert, and leave the record healthy with 0 failures; the down message names 3 |
| Debounce.Arm | index.js:159-168 | a change event leaves the path with one fresh live timer due 5000 ms later; other paths keep their timers |
| Debounce.Fire | index.js:165-168 | a timer's callback acts exactly when the timer is still the path's current, uncleared timer and its due time has come. It then sends the event captured for the path and cannot act again. An early, superseded or cleared timer changes nothing |
| Debounce.BurstLeavesOneTimer | index.js:159-168 | after any burst of change events on a path, its only timer is the last event's, due 5000 ms after the last event; other paths are untouched |
| Debounce.BurstNotifiesOnce | index.js:159-168 | of a burst's timers, the superseded ones do nothing whenever they run; the last one notifies exactly when run at least 5000 ms after the last event, and once it has notified it never notifies again |
| Debounce.CancelAll | index.js:294 | shutdown clears every stored timer and removes none |
| Debounce.CancelledTimersStaySilent | index.js:294 | after shutdown's sweep no timer notifies |
| Debounce.TrimTrailingSlashes | index.js:157 | trailing separators are dropped and nothing else |
| Debounce.Basename | index.js:171 | the basename is the last separator-free segment of the path after trailing separators are dropped |
| Debounce.ChangedMessage | index.js:167 | the change alert is the fixed opening wording, the file name, then the fixed closing wording, and the name reads back from between them |
| Resources.MemoryMatchAtIsPattern | index.js:185 | a match at i is exactly the marker at i followed by some non-empty run of digits closed by '%' |
| Resources.MemoryDigits | index.js:187 | the captured group of a match is a non-empty digit string |
| Resources.FirstMemoryMatch | index.js:185 | the result is a match position and no earlier position matches; None means no position matches |
| Resources.ParseMemory | index.js:185-187 | None exactly when the pattern matches nowhere; otherwise the number captured by the leftmost match |
| Resources.MemoryReadsFirstReport | index.js:185-187 | a report line "System-wide memory free percentage: N%" is read as N, whatever follows, whenever the text before it holds no match of its own |
| Resources.NoMatchInsidePre | index.js:185 | text that holds no match gains none inside it when a report line follows it, since the marker cannot overlap itself |
| Resources.ParseDisk | index.js:201-204 | there is no usage line exactly when the output has no newline |
| Resources.DiskReadsUsageColumn | index.js:201-204 | a report whose line 1 has at least five fields, the fifth being "N%", reads as usage N, however wide the runs of white space between its columns |
| Resources.DiskShortLineThrows | index.js:203-204 | a line 1 with fewer than five fields, however padded, leaves field 4 missing, and the source throws |
| Resources.LowMemoryBoundary | index.js:190 | 30 % free is not low and 29 % is; any reading below a low reading is low too |
| Resources.HighDiskBoundary | index.js:207 | 90 % used is not high and 91 % is; NaN never is; any reading above a high reading is high too |
| Resources.LowMemoryMessageReadsBack | index.js:192 | the low-memory alert starts with its fixed wording, followed by the free percentage, which parseInt reads back |
| Resources.HighDiskMessageReadsBack | index.js:209 | the high-disk alert starts with its fixed wording, followed by the used percentage, which parseInt reads back |
| Resources.StartCheck | index.js:215-219 | a check stamps the record checked at now and keeps the previous readings |
| Resources.AfterMemoryProbe | index.js:183-196 | a parsed reading is stored whether or not it is low and asks for low-memory exactly when it is below 30; a failed probe or an output without a match changes nothing |
| Resources.AfterDiskProbe | index.js:199-213 | a parsed usage (NaN included) is stored and asks for high-disk-usage exactly when it is a number above 90; a failed probe or an output without line 1 changes nothing; a missing field 4 is a crash |
| Heartbeat.StaleFlag | index.js:233 | only a checked record can read as stale, and there it reads as its stale field; an error record or no record reads as not stale |
| Heartbeat.StaleMessageReadsBack | index.js:235 | the stale alert starts with its fixed wording, followed by the age in minutes, which parseInt reads back |
| Heartbeat.RoundMinutes | index.js:230-247 | the rounded age is within half a minute of the age in milliseconds, halves rounding up |
| Heartbeat.Check | index.js:223-258 | no file: nothing changes; a read or parse error: an error record with the time and message and no alert; a parsed heartbeat (falsy = 0): a checked record with the time, the heartbeat, the rounded age and stale = age above 45 minutes, and an alert exactly when stale and the flag read false before |
| Heartbeat.AlertAgeAtLeastThreshold | index.js:232-247 | an alert always comes with a checked record whose rounded age is at least 45 minutes |
| Heartbeat.ThresholdAgeIsFresh | index.js:232-240 | an age of exactly 45 minutes clears the flag and raises nothing, even right after a stale spell |
| Heartbeat.StaleAlertRaisedOnce | index.js:232-248 | while a heartbeat stays stale, later checks raise nothing; going fresh clears the flag silently |
| Heartbeat.ErrorRecordReraisesStaleAlert | index.js:250-256 | a read error in a stale spell leaves a record without a stale flag, so the next stale check alerts again |
| Heartbeat.FiftyMinutesOld | index.js:229-248 | a heartbeat 50 minutes old, checked first time, raises one alert and records stale with age 50 |
| StatusServer.SecondsLabel | index.js:272 | a label ends in "s", and it contains a decimal point exactly when the interval is not a whole number of seconds |
| StatusServer.SecondsLabelReadsBack | index.js:272 | parseInt of a label gives the interval's whole seconds |
| StatusServer.IntervalLabels | index.js:271-273 | one label per configured interval, each keeping its setting's name |
| StatusServer.IntervalLabelsReadBack | index.js:271-273 | each label keeps its setting's name, and parseInt of it gives that setting's whole seconds |
| StatusServer.WholeSecondsLabel | index.js:272 | an interval of whole seconds is written as its digits and "s", and reads back as the interval |
| StatusServer.ConfiguredIntervalLabels | index.js:271-273 | the intervals render as gatewayPing "60s", resourceCheck "300s", heartbeatCheck "600s" |
| Daemon.Watcher.constructor | index.js:36-48 | the initial state: gateway unknown with no failures and not down, empty ledger, timers and watched files, resources and heartbeat unknown; the invariant holds |
| Daemon.Watcher.SendWake | index.js:77-84 | the requests made are those of the cooldown decision on the current ledger; no state changes |
| Daemon.Watcher.OnWakeResponse | index.js:100-111 | the ledger becomes the response step's ledger and nothing else changes |
| Daemon.Watcher.OnGatewayResponse | index.js:119-132 | the gateway fields become the response step's state; a recovery wake is attempted exactly when it raises an alert; the invariant is kept |
| Daemon.Watcher.OnGatewayError | index.js:135-148 | the gateway fields become the error step's state; a down wake naming the count is attempted exactly when it raises an alert; the invariant is kept |
| Daemon.Watcher.WatchFile | index.js:154-176 | an established watch installs the path's callback and appends its basename to the watched files; a failed one changes nothing |
| Daemon.Watcher.OnFileChange | index.js:156-168 | a change on a watched path arms a fresh timer for it with its event type; other paths' timers stay; an unwatched path has no callback |
| Daemon.Watcher.OnDebounceTimer | index.js:165-168 | the timers become the fire step's timers; a wake naming the file's basename is attempted exactly when the timer was live and due |
| Daemon.Watcher.Shutdown | index.js:294 | the loop leaves every stored timer cleared and none removed |
| Daemon.Watcher.BeginResourceCheck | index.js:215-219 | the resources record is stamped as by StartCheck |
| Daemon.Watcher.OnMemoryProbe | index.js:183-196 | the record becomes the memory step's record; a low-memory wake with the reading is attempted exactly when the reading is low |
| Daemon.Watcher.OnDiskProbe | index.js:199-213 | crashed exactly when field 4 is missing, with nothing changed; otherwise the record becomes the disk step's and a high-disk wake is attempted exactly when the usage is high |
| Daemon.Watcher.CheckHeartbeat | index.js:223-258 | the heartbeat record becomes the check's record; a stale-heartbeat wake with the rounded age is attempted exactly when the check alerts |
| Daemon.Watcher.HandleStatusRequest | index.js:262-280 | 200 exactly for GET on "/", with the running status, the uptime, the monitors, the thresholds and the interval labels; every other request gets 404 "Not Found"; nothing changes |

## Left out

- HTTP client and server sockets, `fs.watch`, `exec` subprocesses, and `setInterval`/`setTimeout` scheduling. These are I/O. Their outcomes and their firing are explicit method inputs.
- The wiring in `main` (index.js:304-356) is not modelled. It loads the token, creates directories, watches the two files when they exist, starts the intervals and installs the signal handlers. The token is a constructor parameter, and whether a watch could be established is a `WatchFile` parameter.
- The `Content-Length` header is not modelled. Neither are JSON serialisation of the payload and the status body, or JSON parsing of the heartbeat file. These are library calls. The heartbeat check takes the parsed `lastHeartbeat` or the error message.
- A truthy `lastHeartbeat` that is not a number (a string, say) is not modelled. Arithmetic on it would give NaN.
- Logging, `process.uptime` (taken as a parameter), `process.exit`, `mkdirSync` and the server's `close` are not modelled. They are I/O.
- Floating point is not modelled. Ages are integer milliseconds, so "older than 45 minutes" is an age above 2700000 ms. `Math.round` is half-up rounding on whole milliseconds.
- Text.NatToString: it does not model JavaScript's exponent notation for numbers of 1e21 and above. It also does not model precision loss above 2^53.
- Text.ParseIntJs: it reads unbounded digit runs exactly, where JavaScript loses precision for very long ones.
- The status snapshot omits the constant `monitors.files.status` ("watching").
- Daemon.Watcher.WatchFile: watching the same path twice keeps one callback for it, where the source would install two. `main` watches two distinct paths.
- The concurrency of overlapping checks is not modelled. Each callback is one atomic step, as it is on Node's single thread. The interleavings between steps are the caller's sequence of method calls.
