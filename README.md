# factory_vision core, modelled in Dafny

This project models the decision logic of the factory_vision system: an industrial vision service that finds objects in camera frames, logs alerts and fans them out to viewers. Around that logic sit camera capture, a YOLO detector, SQLite, WebSockets and threads. Those appear here only as inputs, or as oracles that report whether a call succeeded or raised.

The model covers seven source files:

- **Broadcast hub** (`src/app/main.py`, module `Hub`). `ConnectionManager` is a class over a `seq` of connection ids, with `Connect`, `Disconnect` and `Broadcast`.
  - `Broadcast` walks the *live* list the way CPython's `reversed` list iterator does. A failing send removes the first occurrence of that connection while the walk is under way.
  - The main theorem: when the ids are distinct, every registered connection is tried exactly once, last registered first. The list that remains is the original with the failed connections filtered out, in order.
  - With duplicates this fails, and a concrete run shows it (`Hub.DuplicateIsRevisited`).
- **HTTP predict endpoint, status document and lifespan rule** (`src/app/main.py`, modules `Records` and `Api`): the log row, the `detection_alert` message, the response, and the "RTSP Active"/"Passive" mode.
- **RTSP monitor** (`src/core/stream_service.py`, module `Monitor`).
  - `RTSPMonitor` is a class with `running`, `Start` and `Stop`.
  - `MonitorLoop` is the `while self.running` loop. Each pass reconnects, skips, or runs the detector.
  - Time is integer ticks, 1000 per second. Every read, detector call, file write and commit outcome arrives as an input.
  - Lemmas prove four things about whole runs: the sampling gate spaces detector runs, nothing happens after a stop, quiet frames never alarm, and after any number of failed reads the first good frame is checked.
- **Corner ordering and contour selection** (`src/realtime_scanner.py`, `src/auto_scan.py`, modules `Geometry`, `RealtimeScanner` and `AutoScan`).
  - NumPy's first-index `argmin`/`argmax`.
  - `order_points`, and the inline copy that fills an `array` entry by entry.
  - The shoelace `contourArea` on integer vertices.
  - Python's stable `sorted(..., key=contourArea, reverse=True)`, built by insertion with a proof of sortedness and permutation.
  - The top-five / first-quadrilateral selection loop.
- **Overload camera** (`src/camera_test.py`, module `CameraTest`): the counting loop with its `continue`, the status line, the overload rule, the strict 5-second cooldown and the alarm payload.
- **Batch client** (`src/client/batch_test.py`, module `BatchTest`).
  - The `os.path.splitext(...)[1].lower()` filter, following POSIX `splitext` exactly.
  - The per-file classification into result, confidence, duration and status.
  - One report row per file, and `success_count`.
- **Mini-program page** (`wxapp/pages/index/index.js`, modules `Json` and `MiniProgram`).
  - `IndexPage` is a class with the page's `data` fields. Each socket callback is a method.
  - The alert rule, using JavaScript truthiness and `||`.
  - The history mapping: `substring`, and URL concatenation on a truthy `image_url`.

The helper modules are:

- `Outcomes`: Option and Result. `Raised` stands for an exception.
- `Clock`: ticks per second, shared by the lifespan rule (the monitor's two-second interval) and the overload camera's cooldown.
- `Seqs`: list operations of Python.
- `Text`: decimal rendering, Python prefix slicing, JavaScript `substring`, ASCII `lower`.
- `Json`: parsed JSON with Python and JavaScript truthiness.

### Behaviour of the code worth noting

- The alarm (`src/core/stream_service.py:60-63`) and the predict endpoint (`src/app/main.py:168`) use `results[0]`, the detector's first hit. Nothing picks the most confident one. The batch client's comment says it takes the most confident detection (`src/client/batch_test.py:48`), but its code takes `detections[0]`.
- `broadcast` walks the live list while removing from it. It is not a walk over a snapshot.
  - In a sequential run this only matters when the list holds duplicates (`Hub.DuplicateIsRevisited`).
  - Other coroutines can also remove entries while a send is awaited: `websocket_endpoint`'s `disconnect`, or a second broadcast. The live walk can then skip a subscriber that stays registered, or send to one twice, even with no duplicates. Those interleavings are not modelled (see "Left out").
- The monitor releases the capture when the loop ends. It reconnects forever, with no fatal startup error. The 3-second reconnect sleep cannot be interrupted by `stop`.
- No persistence step has a timeout. A failure anywhere in `_trigger_alarm` is caught, and nothing is broadcast.
- `auto_scan.py`'s destination corners use `width`/`height` (300), while `realtime_scanner.py` uses `maxWidth - 1` (499). Each is modelled as written.

## Model

| member | source | states |
|---|---|---|
| Hub.ConnectionManager.constructor | src/app/main.py:43-44 | the hub starts with no connections |
| Hub.ConnectionManager.Connect | src/app/main.py:46-48 | after a successful handshake the connection is appended at the end (the list grows by one); a failed handshake leaves the list alone |
| Hub.ConnectionManager.Disconnect | src/app/main.py:51-53 | removes the first occurrence when present (length drops by one), no change when absent |
| Hub.ConnectionManager.Broadcast | src/app/main.py:56-62 | the attempts and the list left are those of the live reverse walk; with distinct connections every registered connection is attempted exactly once in reverse registration order and the list left is the original minus the failed ones, order kept |
| Hub.ConnectionManager.Visit | src/app/main.py:59-62 | one pass: the connection at the index is attempted and, if its send raises, disconnected; the walk from here is that step followed by the walk one index lower |
| Hub.Survivors | src/app/main.py:58-62 | the filtered list holds only registered connections whose sends succeed, and every such connection |
| Hub.WalkPrefix | src/app/main.py:56-62 | a duplicate-free prefix walked back to front with any tail after it: each member attempted once in reverse order, the failed ones removed, the tail untouched |
| Hub.BroadcastDistinct | src/app/main.py:56-62 | for a duplicate-free list the walk attempts `Reverse(list)` and leaves `Survivors(list)` |
| Hub.AttemptsAreRegistered | src/app/main.py:58-62 | for any list, duplicates included, broadcast only attempts connections registered when it started, and at most one send per entry |
| Hub.SurvivorsDistinct | src/app/main.py:58-62 | dropping the failed connections keeps a duplicate-free list duplicate-free |
| Hub.NoSendAfterDisconnect | src/app/main.py:51-62 | after `disconnect(c)` on a duplicate-free list, the next broadcast does not send to `c`, and the list it leaves still lacks `c` and is still duplicate-free, so the statement applies again to every later broadcast |
| Hub.DuplicateIsRevisited | src/app/main.py:53-62 | with connection 1 registered twice and failing, `remove` takes the earlier copy and the walk attempts 1, 1, 2, which is not the reverse registration order |
| Seqs.Reverse | src/app/main.py:58 | `reversed`: same length, entry `i` is entry `len-1-i` |
| Seqs.RemoveFirst | src/app/main.py:52-53 | guarded `list.remove`: no change when absent, one entry fewer when present |
| Seqs.RemoveFirstAtIndex | src/app/main.py:53 | `remove` cuts exactly the entry at the first index holding the value |
| Seqs.RemoveFirstDistinct | src/app/main.py:51-53 | on a duplicate-free list, removal leaves no copy, keeps the list duplicate-free, and a second `disconnect` changes nothing (idempotence) |
| Seqs.RemoveFirstMembers | src/app/main.py:53 | removal never introduces an entry |
| Seqs.RemoveFirstAfter | src/app/main.py:53 | removing a value absent from a prefix cuts the occurrence right after that prefix |
| Records.NewDetectionLog | src/app/main.py:24-30 | a new row has no id, `is_alert` true, `image_url` defaulting to "" and the given class, confidence and creation time |
| Records.Committed | src/app/main.py:188-190 | commit plus refresh fills in the database id and changes nothing else |
| Records.ImageUrl | src/app/main.py:175-179 | the image URL is "/" followed by the save path |
| Records.AlertFor | src/app/main.py:193-200 | the message has type "detection_alert", the row's id, timestamp and image URL, and the top detection's class and confidence |
| Api.PredictEndpoint | src/app/main.py:158-207 | a log row and an alert exist together, iff the result is non-empty and rendering and commit succeed; the alert carries `results[0]` and "/" + save path; an empty result saves and broadcasts nothing; the response is returned iff nothing raised and then has `count == len(results)` and `detections == results` |
| Api.HandlePredict | src/app/main.py:193-207 | the hub is walked by `Broadcast` exactly when an alert exists, and left untouched otherwise; the answer is the endpoint's |
| Api.App.constructor | src/app/main.py:70-71 | the server starts with the configured URL and no monitor |
| Api.App.Startup | src/app/main.py:85-98 | with a non-empty RTSP URL a fresh monitor with a two-second interval is created and started once; otherwise nothing changes |
| Api.App.Shutdown | src/app/main.py:103-105 | a monitor, if any, is stopped |
| Api.App.Root | src/app/main.py:128-133 | status "running", the configured URL, and mode "RTSP Active" iff a monitor exists and is running, else "Passive" |
| Api.LifespanModes | src/app/main.py:86-131 | a configured server reports "RTSP Active" after startup, an unconfigured one "Passive", and both "Passive" after shutdown |
| Monitor.AlarmFileName | src/core/stream_service.py:80-82 | the name starts with "rtsp_", ends with ".jpg", and is 16 characters longer than the clock text when the uuid has six hex digits |
| Monitor.TriggerAlarm | src/core/stream_service.py:74-124 | a message is scheduled iff rendering, the image directory and the commit all succeed; it has type "detection_alert", the committed id and timestamp, the detection's class and confidence, and "/" + save path |
| Monitor.Detect | src/core/stream_service.py:57-66 | a raising detector is caught, an empty result does nothing, and otherwise the alarm is raised for `results[0]` |
| Monitor.StepFrame | src/core/stream_service.py:41-66 | a failed read reconnects and keeps the gate; inside the interval the frame is skipped; otherwise the detector runs and the gate moves to now |
| Monitor.RTSPMonitor.constructor | src/core/stream_service.py:13-19 | a new monitor is not running and has no thread |
| Monitor.RTSPMonitor.Start | src/core/stream_service.py:21-26 | a no-op while running; otherwise sets the flag and launches exactly one worker |
| Monitor.RTSPMonitor.Stop | src/core/stream_service.py:28-32 | clears the flag |
| Monitor.RTSPMonitor.MonitorLoop | src/core/stream_service.py:34-68 | the steps taken are those of the loop over the ticks from gate 0, ending at the first stop; a monitor that is not running does nothing |
| Monitor.RTSPMonitor.Iterate | src/core/stream_service.py:41-66 | one pass of the loop body agrees with `StepFrame` |
| Monitor.NothingAfterStop | src/core/stream_service.py:28-40 | once the flag is seen cleared, no further pass runs, and every pass before it yields one step |
| Monitor.GateSpacesDetections | src/core/stream_service.py:38-55 | detector runs are at least one interval apart, and the first one is at least one interval after the initial gate; the gate ends at the last run's time |
| Monitor.QuietFramesRaiseNoAlarm | src/core/stream_service.py:57-63 | passes whose detector returns nothing or raises never alarm |
| Monitor.FailuresThenResume | src/core/stream_service.py:38-55 | any number of failed reads followed by a good frame at least one interval after the gate: one reconnect per failed read, then a detection at that frame, because reconnects leave the gate where it was |
| Geometry.DegenerateArea | src/realtime_scanner.py:41 | a contour of one or two points has area 0 |
| Geometry.ArgMin | src/realtime_scanner.py:8-11 | `np.argmin`: an index of the least value, and the first such index |
| Geometry.ArgMax | src/realtime_scanner.py:9-12 | `np.argmax`: an index of the greatest value, and the first such index |
| Geometry.Sums | src/realtime_scanner.py:7 | `pts.sum(axis=1)`: x + y per point |
| Geometry.Diffs | src/realtime_scanner.py:10 | `np.diff(pts, axis=1)`: y - x per point |
| Geometry.OrderPoints | src/realtime_scanner.py:5-13 | four corners, each one of the input points |
| Geometry.OrderPointsTop | src/realtime_scanner.py:8-11 | `rect[0]` is the first point of least x + y, `rect[1]` the first of least y - x |
| Geometry.OrderPointsBottom | src/realtime_scanner.py:9-12 | `rect[2]` is the first point of greatest x + y, `rect[3]` the first of greatest y - x |
| Geometry.OrdersUprightRectangle | src/realtime_scanner.py:4-13 | an axis-aligned rectangle's corners, listed in any order, come out top-left, top-right, bottom-right, bottom-left |
| Geometry.TiltedSquareLosesACorner | src/auto_scan.py:68-72 | for a square turned by 45 degrees two roles pick the same vertex and one vertex is lost, as the source's own comment warns |
| Geometry.Insert | src/realtime_scanner.py:41 | inserting into a sorted list keeps it sorted and adds exactly that entry |
| Geometry.SortPrefix | src/realtime_scanner.py:41 | the first `n` contours sorted: a permutation of them, larger areas first, ties in input order |
| Geometry.SortByArea | src/realtime_scanner.py:41 | `sorted(key=contourArea, reverse=True)`: a permutation of the numbered contours, larger area first, ties in input order |
| Geometry.TopOfSort | src/realtime_scanner.py:41 | the first `m` sorted entries precede every contour outside them |
| Geometry.LargestFirst | src/auto_scan.py:42 | the head of the sort has the greatest area, and no earlier contour has that area |
| RealtimeScanner.Candidates | src/realtime_scanner.py:41 | `[:5]` of the sort: min(5, n) entries, sorted, each naming its own contour |
| RealtimeScanner.CandidatesAreLargest | src/realtime_scanner.py:41 | every candidate precedes every contour that did not make the cut |
| RealtimeScanner.SelectScreen | src/realtime_scanner.py:43-55 | the approximation of the first candidate that has exactly four vertices, or None iff no candidate has four |
| RealtimeScanner.ScanFrame | src/realtime_scanner.py:41-74 | no document iff no candidate approximates to four vertices; otherwise the approximation of the FIRST candidate with four vertices (the `break`), its `order_points`, and the 499-pixel target |
| AutoScan.OrderCorners | src/auto_scan.py:61-72 | the zeroed `rect` filled entry by entry equals `order_points` of the four points |
| AutoScan.Scan | src/auto_scan.py:42-92 | no contours raises; otherwise the chosen contour is the first of greatest area; the warp runs iff its approximation has four vertices, with the ordered corners and the 300-pixel target |
| CameraTest.CountProducts | src/camera_test.py:63-67 | the loop with `continue` counts the contours of area at least 1000 |
| CameraTest.CountIsPositions | src/camera_test.py:63-67 | the count is the number of positions holding a contour of area at least 1000 |
| CameraTest.CountBounds | src/camera_test.py:63-67 | the count is at most the number of contours, with equality iff every contour is large enough |
| CameraTest.AlarmPayload | src/camera_test.py:10-19 | device "CAMERA_001", error "OVERLOAD", the count, the limit and the sender's clock |
| CameraTest.StatusTextInjective | src/camera_test.py:71 | "Count: {count} / Limit: {limit}" determines both numbers |
| CameraTest.FrameStep | src/camera_test.py:63-84 | overload iff count > limit; an alarm iff overloaded and strictly more than 5 s since the last alarm, which then moves to now (the send's own failure is swallowed); otherwise the cooldown state is kept |
| CameraTest.ProcessFrame | src/camera_test.py:55-84 | the loop body agrees with `FrameStep` |
| CameraTest.CameraLoop | src/camera_test.py:46-92 | the reports are those of the frame loop from `last_alarm_time = 0`, ending at a failed read or after a 'q' frame |
| CameraTest.AlarmsAreThrottled | src/camera_test.py:46-84 | over a whole run, alarms are strictly more than 5 s apart, and the first is more than 5 s after the initial state |
| BatchTest.LastIndex | src/client/batch_test.py:22 | `rfind` inside `splitext`: -1 or an index holding the character, and no later index holds it |
| BatchTest.SplitExtRejoins | src/client/batch_test.py:22 | root plus extension give back the name |
| BatchTest.ExtensionShape | src/client/batch_test.py:22 | a non-empty extension starts with its only dot, has no '/', and follows a non-dot character of the last path component |
| BatchTest.KeptFiles | src/client/batch_test.py:22 | the comprehension keeps only listed names with an image extension |
| BatchTest.KeptFilesMembership | src/client/batch_test.py:12-22 | a name is kept iff it is listed and its lower-cased extension is one of .jpg, .jpeg, .png, .bmp |
| BatchTest.KeptFilesAppend | src/client/batch_test.py:22 | the filter distributes over concatenation, so listing order is kept |
| BatchTest.UpperCaseExtensionKept | src/client/batch_test.py:12-22 | "scan.JPG" is kept |
| BatchTest.LeadingDotsRule | src/client/batch_test.py:22 | "..png" has no extension and is not kept, while "a..png" has ".png" and is kept |
| BatchTest.EarlierExtensionIgnored | src/client/batch_test.py:22 | "photo.png.txt" is not kept |
| BatchTest.DotFileNotKept | src/client/batch_test.py:22 | ".png" has no extension and is not kept |
| BatchTest.PyItem | src/client/batch_test.py:49-51 | `obj[key]` succeeds iff the value is a dict holding the key |
| BatchTest.Classify | src/client/batch_test.py:33-71 | the row written is for the file being processed |
| BatchTest.ClassifyCases | src/client/batch_test.py:33-71 | exception: ("Exception", 0, duration 0, "ClientError"); non-200: ("Error", 0.0, "Fail(<code>)"); 200 with absent or empty detections: ("未检测到", 0.0, "MISS"), counted; 200 with detections: `detections[0]`'s class and confidence, "OK", counted; a malformed body raises into the exception row |
| BatchTest.ClassifySuccess | src/client/batch_test.py:43-70 | a file counts as a success iff its row says OK or MISS, only a 200 answer can succeed, and every other row is an exception row or a "Fail(" row |
| BatchTest.ReportRowsShape | src/client/batch_test.py:29-76 | exactly one row per kept file, in processing order, each that file's classification |
| BatchTest.SuccessesAreSucceededRows | src/client/batch_test.py:26-78 | `success_count` is the number of OK/MISS rows, hence at most `total` |
| BatchTest.ProcessFiles | src/client/batch_test.py:26-76 | the loop writes the report rows and counts the successes |
| BatchTest.BatchProcess | src/client/batch_test.py:14-78 | header first, then one row per kept file; `total` is the number of kept files and `success_count <= total` |
| Json.JsOr | wxapp/pages/index/index.js:57-58 | `a || b`: `a` when truthy, else `b` |
| Json.JsGet | wxapp/pages/index/index.js:53 | a property read throws exactly on null and undefined, and returns the member of an object |
| Text.NatToString | src/camera_test.py:71 | decimal digits, at least one, no leading zero |
| Text.IntToString | src/camera_test.py:71 | a '-' before the digits exactly for negative numbers |
| Text.DigitsRoundTrip | wxapp/pages/index/index.js:94 | reading back a rendered number gives the number |
| Text.NatToStringInjective | src/camera_test.py:71 | distinct numbers render differently |
| Text.PrefixSlice | src/core/stream_service.py:81 | `s[:n]` is a prefix of length min(n, len) |
| Text.Substring | wxapp/pages/index/index.js:104 | `substring(a, b)` is the slice for in-range indices, clamped past the end |
| Text.LowerChar | src/client/batch_test.py:22 | upper-case ASCII letters map to lower case, everything else is kept |
| Text.Lower | src/client/batch_test.py:22 | `lower()` maps each character, length kept |
| MiniProgram.HistoryRequestUrl | wxapp/pages/index/index.js:94 | the history URL followed by "?t=" and the decimal clock, which reads back as the clock |
| MiniProgram.ReadAlert | wxapp/pages/index/index.js:46-60 | an alert iff the payload parsed, is not null, and has type "detection_alert" or truthy `detections`; then `top_object || "未知目标"`, `conf || "0.0"`, and the static base URL + `image_url` |
| MiniProgram.ServerAlertShown | wxapp/pages/index/index.js:53-60 | every alert the server broadcasts is shown with its class, its confidence and its image under the static base URL |
| MiniProgram.PlainMessageIgnored | wxapp/pages/index/index.js:53 | a message with neither `type` nor `detections` is not an alert |
| MiniProgram.ShortTime | wxapp/pages/index/index.js:103-107 | "--:--:--" for a falsy timestamp, characters 11 to 19 of a long one, clamped for short ones; a non-string throws |
| MiniProgram.HistoryItem | wxapp/pages/index/index.js:101-113 | an object entry keeps every field, gains `shortTime`, and gains `fullImageUrl` = base + `image_url` exactly when `image_url` is truthy; an array entry comes back unchanged; every other entry throws |
| MiniProgram.ArrayEntryPassesThrough | wxapp/pages/index/index.js:101-114 | the body `[[1, 2]]` maps to itself |
| MiniProgram.MapItemsAllOk | wxapp/pages/index/index.js:101-113 | when every entry maps, the list maps |
| MiniProgram.MapItemsValues | wxapp/pages/index/index.js:101-113 | a successful mapping keeps length and order, entry by entry |
| MiniProgram.MapItemsOk | wxapp/pages/index/index.js:101-113 | the mapping succeeds iff every entry maps |
| MiniProgram.MapItemsStaysRaised | wxapp/pages/index/index.js:101-113 | once an entry throws, the whole mapping throws with that error |
| MiniProgram.MapHistory | wxapp/pages/index/index.js:101-113 | the entry-by-entry map agrees with `MapItems` |
| MiniProgram.IndexPage.constructor | wxapp/pages/index/index.js:11-18 | the initial page data |
| MiniProgram.IndexPage.OnConnectSuccess | wxapp/pages/index/index.js:35-38 | status "连接中...", nothing else changes |
| MiniProgram.IndexPage.OnSocketOpen | wxapp/pages/index/index.js:41-44 | status "监控正常" and no alarm, the rest kept |
| MiniProgram.IndexPage.OnSocketClose | wxapp/pages/index/index.js:80-83 | only the status changes, to "连接断开" |
| MiniProgram.IndexPage.OnSocketError | wxapp/pages/index/index.js:85-88 | only the status changes, to "连接失败" |
| MiniProgram.IndexPage.OnSocketMessage | wxapp/pages/index/index.js:46-78 | on an alert the page shows it and the refresh and reset are scheduled; otherwise, including unparseable payloads, the page is unchanged |
| MiniProgram.IndexPage.ResetAfterAlert | wxapp/pages/index/index.js:71-73 | status "监控正常", no alarm, no image, while the target and confidence stay |
| MiniProgram.IndexPage.OnHistory | wxapp/pages/index/index.js:99-115 | the history becomes the mapped list when the body is an array and every entry maps; otherwise nothing changes |

## Left out

- Concurrency:
  - the worker thread and its `join`;
  - `asyncio.run_coroutine_threadsafe`, whose scheduled broadcast is modelled as the message handed over (`Alarmed`);
  - the `websocket_endpoint` coroutine calling `disconnect` at await points, and two broadcasts overlapping.

  Every operation is modelled as a sequential step. Interleavings are not, so the model does not show a broadcast skipping a registered subscriber, or reaching one twice, when another coroutine removes an entry mid-walk.
- Foreign calls are inputs or oracles:
  - camera reads, `findContours`, `approxPolyDP`;
  - the YOLO detector and its rendering, the SQLite session, `send_json`, `requests.post`;
  - `uuid4`, `datetime.now`, `time.time`, the `wx.*` APIs.

  The detector is an oracle that may raise. Whether it raises on the already-decoded frames these callers pass it is a property of `src/core/engine.py`, which is not part of this model.
- Sleeps and timers are not modelled as durations:
  - `time.sleep(3)`, `time.sleep(0.05)`;
  - the 300 ms history refresh and the 5 s reset. The reset is its own method, `ResetAfterAlert`.
- Floating point: confidences are `real`, and the rounding to 3 places in the batch client is taken as given. Times are integer ticks. The perspective matrix and the warp are not modelled.
- Operations outside the modelled core, each with the decision it makes:
  - `get_history` (`src/app/main.py:135-141`) returns the 50 log rows with the latest timestamps, latest first. The query is left to the database.
  - `viewEvidence` (`wxapp/pages/index/index.js:122-136`) previews the image when the record's URL is truthy, and shows a toast otherwise.
  - `onLoad`/`onUnload` (`wxapp/pages/index/index.js:20-27`) open the socket and fetch the history, and close the socket.
  - The batch client runs only when `IMAGE_DIR` exists, and otherwise prints a message (`src/client/batch_test.py:82-85`). The CSV encoding is not modelled.
- Monitor.RTSPMonitor.Stop: does not model waiting for the worker thread (`join`).
- Api.App.Shutdown: the same; the stopped monitor's loop is covered by `Monitor.NothingAfterStop`.
- BatchTest.Classify: its own contract only says the row is for its file. The full case analysis is `BatchTest.ClassifyCases`, kept apart so that the recursive report functions stay cheap to unfold.
- Seqs.RemoveFirstDistinct: `disconnect` is idempotent only on a duplicate-free list. With duplicates a second call removes a second copy, as the source does.
- Text.LowerChar: `str.lower()` is modelled on ASCII letters only. Extensions with non-ASCII capitals are outside the model.
- Json.JsGet: property reads on strings, numbers, booleans and arrays return `undefined`. The model reads no key those values carry (such as `length`).
- MiniProgram.HistoryItem: string, number and boolean entries are modelled as a throw, because a property write on a primitive is an error in strict mode; in sloppy mode the write is silently dropped and the entry would pass through. An array entry gains a named `shortTime` property that JSON cannot represent, so it is modelled as passing through unchanged.
