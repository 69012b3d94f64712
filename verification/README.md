# front-monitor-sdk: the reporter queue and the stack-restoration service in Dafny

This project models the two pieces of sequential logic of the front-end monitoring SDK and
its backend:

- **The client reporter** (`Reporter` in `src/utils/report.js`). It holds a queue of
  telemetry events. It flushes the queue as one batch when the queue reaches 10 events, or
  when the 5-second interval timer fires. A failed send puts the batch back at the head of
  the queue and schedules a retry. Module `ReportSpec` states the reporter's steps as
  functions over a `State` value and proves what they guarantee. Class `Report.Reporter`
  performs the same steps in place, and each method's postcondition ties its new state to
  the matching `ReportSpec` function. Ghost fields `enqueued` and `delivered` record the
  history, and the class invariant `Valid()` says that no event is lost.
- **The backend handlers** (`backend/index.js`). Module `Backend` has the source-map upload
  route and the error-restoration route as pure functions. Each takes a request and the
  server's filesystem and returns a response. The stack parser, the source-map reader,
  prettier and `path.join` are abstract functions passed in as `Libraries`. The server's
  disk is a `FileSystem` value: the set of existing paths and the contents of the readable
  ones. `Backend.ReadFile` (`fs.readFile`) fails on an existing path that cannot be read.
- **The behaviour monitor** (`src/monitor/behavior.js`). Module `Behavior` has the element
  selector and the click-text truncation as string functions. Class
  `Behavior.BehaviorMonitor` holds the one-shot page-view flag and the page-stay start
  time, and sends its events to a `Reporter`.

Time (`Date.now()`) is a parameter `now`. The outcome of `fetch` is a boolean `ok`: false
when `fetch` throws or when `response.ok` is false, that is, when the status is outside
200–299. Timer firings and send completions are explicit steps, not wall-clock time.

The model follows the code in three places where the code does not match its own comments
and the system's design:

- `reportBatch` takes no parameter (src/utils/report.js:25), so the `retries + 1` that a
  retry timer passes to it (line 53) is discarded. Every failure calls `retryReport()` with
  its default 0 (line 42). So every retry waits 1000 ms, and the cap at line 48 is never
  reached from a failure. Every failure arms a new 1000 ms timer with argument 1, as
  `ReportSpec.CompleteFailure` and `ReportSpec.RetriesNeverBackOff` show. A failed batch
  goes back into the queue, and `ReportSpec.NoEventLost` shows that no event is ever
  dropped.
- When `retryReport` does reach the cap (only by a direct call with `retries >= 3`), it only
  logs. The batch has already been put back in the queue at line 41, so nothing is dropped.
- The stack is parsed (backend/index.js:90) before the source map's existence is checked
  (line 93). A stack the parser rejects therefore gives 500 even for an unknown version.
  In the same way, `||` at lines 130-133 turns a resolved line or column of 0 into its
  placeholder.

## Model

| member | source | states |
|---|---|---|
| `ReportSpec.AddToQueueAppends` | src/utils/report.js:16-22 | addToQueue puts the event at the tail of everything the reporter holds. Once the queue reaches 10, the whole queue plus the event becomes a new in-flight batch and the queue is empty. Below 10 nothing is sent. The queue is always below 10 afterwards. |
| `ReportSpec.ReportBatchSnapshots` | src/utils/report.js:25-28 | On an empty queue, reportBatch changes nothing and starts no send. Otherwise the new batch is exactly the queue in order and the queue becomes empty. Events enqueued after the snapshot therefore land in the next batch. |
| `ReportSpec.CompleteSuccess` | src/utils/report.js:30-37 | A send that settles with an ok response removes only its own batch. The queue and the timers are left untouched, and that batch's events are the only ones no longer held. |
| `ReportSpec.CompleteFailure` | src/utils/report.js:38-43 | A failed send makes the queue `batch ++ queue`, so the older batch comes first. It arms exactly one retry timer, 1000 ms with argument 1, and the multiset of held events is unchanged. |
| `ReportSpec.RetryDelay` | src/utils/report.js:47-54 | retryReport gives up exactly when retries >= 3. Otherwise it waits at least the 1000 ms base. |
| `ReportSpec.BackoffSchedule` | src/utils/report.js:54 | The backoff delays for retries 0, 1 and 2 are 1000, 2000 and 4000 ms, and there is none for 3. |
| `ReportSpec.RetryReportSchedules` | src/utils/report.js:47-55 | retryReport(r) with r >= 3 schedules nothing. Otherwise it arms one timer of 1000 * 2^r ms whose callback passes r + 1. The queue and the sends are never touched. |
| `ReportSpec.NoEventLost` | src/utils/report.js:16-44 | Over any run of enqueues, ticks, retry firings and settled sends, held events plus delivered events equal held-at-start events plus enqueued events, as multisets. |
| `ReportSpec.RetriesNeverBackOff` | src/utils/report.js:25-55 | In every run, every armed retry timer has delay 1000 and argument 1. No backoff beyond the first step happens, and the cap is never reached. |
| `ReportSpec.BelowThresholdWaits` | src/utils/report.js:16-22 | While the queue stays below 10, enqueued events wait in order and nothing is sent. |
| `ReportSpec.ThresholdScenario` | src/utils/report.js:16-28 | After nine enqueues the tick sends all nine as one batch. A tenth enqueue before the tick sends all ten at once, and the next tick then sends nothing. |
| `Report.Reporter.constructor` | src/utils/report.js:3-13 | The queue, the sends and the timers start empty. appVersion defaults to "1.0.0" when it is absent or empty. One interval timer is started. |
| `Report.Reporter.AddToQueue` | src/utils/report.js:16-22 | The in-place queue update equals `ReportSpec.AddToQueue` and keeps the no-loss invariant. The event is added to the enqueued history. |
| `Report.Reporter.ReportBatch` | src/utils/report.js:25-28 | The in-place snapshot-and-clear equals `ReportSpec.ReportBatch` and keeps the no-loss invariant. |
| `Report.Reporter.CompleteSend` | src/utils/report.js:30-43 | Settling send i equals `ReportSpec.CompleteSend`. The batch joins the delivered history exactly when ok, and no event is lost. |
| `Report.Reporter.RetryReport` | src/utils/report.js:47-55 | Equals `ReportSpec.RetryReport`: at the cap only a log happens, otherwise one timer is armed. |
| `Report.Reporter.FireRetryTimer` | src/utils/report.js:52-54 | A retry timer fires: it is disarmed and reportBatch runs, ignoring the timer's argument. |
| `Report.Reporter.StartReportTimer` | src/utils/report.js:58-62 | Adds one interval timer and changes nothing else. |
| `Report.Reporter.IntervalTick` | src/utils/report.js:59-61 | An interval tick is a reportBatch. |
| `Backend.ArtifactNameRoundTrip` | backend/index.js:58 | The version can be read back from the artifact name `monitor-sdk-<version>.js.map`. |
| `Backend.ArtifactOfVersion` | backend/index.js:92 | A name that follows the naming rule is the artifact name of the version read from it. |
| `Backend.ArtifactNameInjective` | backend/index.js:58-92 | Upload and lookup use one naming rule. Two versions share an artifact name only when they are equal, so lookup is exact-match. |
| `Backend.UploadSourcemap` | backend/index.js:54-77 | A missing or empty version, or a missing file, gives 400 with code -1; otherwise the response is 200 with code 0. Any uploaded file is stored under the name derived from the version ("undefined" when absent), and no other path changes. |
| `Backend.SourceContent` | backend/index.js:110-123 | sourceContent is the not-found placeholder unless the resolved source is non-empty and its joined path exists. In that case it is exactly prettier's result on the file's content when the file can be read, and an error when it cannot. |
| `Backend.RestoreFrame` | backend/index.js:104-136 | functionName, fileName, lineNumber and columnNumber are copied unchanged. A missing or empty source or name becomes its placeholder, and so does a missing or zero line or column. A resolved source or name is passed through as is, and a resolved non-zero line or column comes back as that number. |
| `Backend.RestoreFrames` | backend/index.js:103-137 | Either every frame is restored, one result per frame in the same order, or the whole map fails. |
| `Backend.RestoreError` | backend/index.js:80-146 | The status is one of 200, 400, 404 and 500. The code is 0 exactly on 200. data is present exactly on 200, and an error message exactly on 500. 200 happens exactly when both inputs are present, the stack parses, the version's map exists and can be read and opened, and every frame is restored. 500 happens exactly when both inputs are present and either the stack fails to parse, or the map exists but cannot be read or opened, or a frame fails. |
| `Backend.MissingInputIsBadRequest` | backend/index.js:83-87 | A missing or empty stack or appVersion gives 400 with code -1 and no data. The response does not depend on the filesystem or the libraries, so nothing is parsed or looked up. |
| `Backend.NotFoundExactly` | backend/index.js:89-96 | 404 happens exactly when both inputs are present, the stack parses and no artifact exists for the version. Its message names the version and it has no data. |
| `Backend.UploadedVersionIsFound` | backend/index.js:56-96 | After an upload with version v, a restore with appVersion v is never 404. With a parseable stack and a readable map, the status is 200 exactly when every frame is restored through the uploaded map, with those frames as data, and 500 otherwise. |
| `Backend.ResolvableAndUnresolvableFrames` | backend/index.js:103-137 | A stack with a resolvable frame and a frame the map cannot resolve gives two restored frames in order. The first carries the resolved source, line, column and name. The second carries the placeholders. Neither fails. |
| `Backend.RestoreSucceedsFrameByFrame` | backend/index.js:98-141 | A 200 response has one restored frame per parsed frame, in order. Each frame is resolved through the source map read from the version's artifact. |
| `Behavior.Lower` | src/monitor/behavior.js:82 | Lower-casing keeps the length, maps each character, and leaves no ASCII capital. |
| `Behavior.Split` | src/monitor/behavior.js:84 | split yields at least one part, and no part contains the separator. |
| `Behavior.JoinSplitReplaces` | src/monitor/behavior.js:84 | `split(' ').join('.')` replaces every space by a dot and changes nothing else. |
| `Behavior.GetElementSelector` | src/monitor/behavior.js:77-88 | A non-empty id gives exactly `#id`. Otherwise the selector starts with the lower-cased tag. With a non-empty string className it is `tag.` followed by the class string with spaces turned into dots, with no space after the tag. With no usable className it is exactly the tag. |
| `Behavior.ClickText` | src/monitor/behavior.js:69 | The click text is present exactly when innerText is. It is a prefix of innerText of length min(100, length of innerText). |
| `Behavior.BehaviorMonitor.constructor` | src/monitor/behavior.js:3-6 | Keeps the reporter. The page view is not yet tracked. |
| `Behavior.BehaviorMonitor.TrackPageView` | src/monitor/behavior.js:20-30 | Enqueues one pageView record on the reporter. The record joins the reporter's enqueued history. The delivered history and the interval timers are unchanged. |
| `Behavior.BehaviorMonitor.MonitorPageView` | src/monitor/behavior.js:9-14 | The first call enqueues the initial page view, adds it to the reporter's enqueued history, and sets the flag. Every later call leaves the reporter unchanged. |
| `Behavior.BehaviorMonitor.HandleClick` | src/monitor/behavior.js:61-73 | Enqueues one click record with the element's selector and its truncated text, and adds it to the reporter's enqueued history. Nothing is delivered and no timer is added. |
| `Behavior.BehaviorMonitor.MonitorPageStay` | src/monitor/behavior.js:91-92 | The start time becomes now. |
| `Behavior.BehaviorMonitor.OnVisibilityChange` | src/monitor/behavior.js:95-107 | On hidden, a pageStay event with duration now - startTime is enqueued and startTime is unchanged. On hidden, the event also joins the reporter's enqueued history. On visible, startTime becomes now and nothing is enqueued. |
| `Behavior.BehaviorMonitor.TrackEvent` | src/monitor/behavior.js:130-139 | Enqueues one customEvent record and adds it to the reporter's enqueued history. Nothing is delivered and no timer is added. |

## Left out

- The reporter sends each batch with a single `fetch` and nothing else. There is no fallback transport, no local persistence of unsent events and no status-specific handling, so the model reduces a send to the boolean `ok`. The `navigator.sendBeacon` call of the page-unload listener is left out separately below.
- The request itself (URL, method, headers, JSON body): the batch is the payload. Only whether the send succeeded matters to the queue.
- Real timing: `setInterval` and `setTimeout` are modelled as the steps `IntervalTick` and `FireRetryTimer`. A timer's delay is recorded but not enforced. Firing order is any order the environment picks.
- Console logging on success, failure and retry exhaustion.
- The interleaving of `await` points is captured only by the order of steps: sends settle by index, in any order. Two sends of the same reporter may be in flight at once.
- `Backend.RestoreFrames`: when several frames fail, the model returns the first failure in frame order. `Promise.all` rejects with whichever fails first in time.
- `consumer.destroy()` runs only on the success path (backend/index.js:139). There is no resource model, so this is not represented.
- The `/api/report` route (backend/index.js:35-51), Koa, CORS, body parsing, router registration and `app.listen`: HTTP plumbing and a file write under a random name.
- The internals of the stack parser, the source-map reader, prettier and `path.join`. They are parameters of `Libraries`. `Backend.ArtifactNameInjective` holds for artifact names; after `path.join` normalisation, distinct names could still map to one path.
- The 1-based/0-based column hand-off to the source-map reader (backend/index.js:107): the parsed column is passed through as is.
- The upload's disk storage is assumed to see the same `version` field as the handler, which holds when the field comes before the file in the multipart body. Disk write failures and the handler's 500 branch are not modelled; nothing in the handler's try block can throw in the model.
- Request fields are strings or absent. Truthiness of numbers or objects sent as `stack` or `appVersion` is not modelled.
- `Behavior.Lower`: folds only ASCII A-Z, where `toLowerCase` folds all of Unicode. Characters are Dafny characters, not UTF-16 code units.
- `Behavior.ClickText`: counts Dafny characters. `substring(0, 100)` counts UTF-16 code units, so in the code the 100-unit cut can split a surrogate pair and keep fewer than 100 characters.
- `Behavior.BehaviorMonitor.TrackEvent`: the default `eventData = {}` (src/monitor/behavior.js:130) is not modelled. The data is an opaque string that the caller always supplies.
- `Behavior.BehaviorMonitor.MonitorPageStay`: in the code, `startTime` is a local variable of each `monitorPageStay` call, captured by that call's own listeners. A second call adds a second pair of listeners with their own clock. The model keeps one `startTime` field for one installation, and a second call overwrites it.
- Route-change tracking (history patching, `popstate`), the `beforeunload` beacon, `addEventListener` wiring and the `window.MonitorSDK` global (src/monitor/behavior.js:32-57, 110-124, 130): browser I/O.
- The other producers (src/monitor/error.js, performance.js, framework.js, src/utils/request.js) and the composition in src/index.js. Their records reach the queue as `External` events.
