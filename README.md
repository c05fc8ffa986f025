# Dahua camera event watcher — a verified model

`watch.py` keeps an HTTP event stream open to each Dahua/Amcrest camera on
a roster. It reads the alarm lines the cameras send (`Code=VideoMotion;
action=Start;index=0`). It debounces them into "motion detected" and
"motion stopped" notifications, and it sets the `Tripped` variable of a
motion sensor device on a Vera home controller. Separately, it re-opens a
camera's stream five seconds after the stream ends.

This project models that core in Dafny and proves properties of it:

- `text.dfy` (module `Text`) models Python's `str.split(sep)` and
  `sep.join(parts)` for a non-empty separator. It proves the laws the
  parser relies on: joining a split gives back the string, splitting a
  join of parts that hold no character that starts the separator gives
  back the parts (for a one-character separator such as `,` or `;`:
  parts that do not contain it), and a one-character split has one more
  piece than there are separators.
- `protocol.dfy` (module `Protocol`) models the alarm line format. A line
  is split on `;` and every token on `=`, into a dictionary whose later
  keys overwrite earlier ones. A token that does not unpack into exactly
  two pieces raises. `ParseFields` is the loop of the source, proved
  equal to the `Fields` specification. An encoder for lines and the
  round-trip `Fields(Encode(pairs)) == Ok(ToMap(pairs))`, for a non-empty
  list of pairs whose keys and values hold no `;` or `=`, are the
  parser's partner (the empty list encodes to the empty line, whose one
  empty token does not unpack).
- `alarm.dfy` (module `Alarm`) models the debounce state machine on values:
  - `Active` ∈ {unset, `true`, `false`} and `Last`;
  - the effect of one record (`OnRecord`) and of one timer tick (`Tick`);
  - the invariant they keep: a cooldown always has a time, and the
    controller is never told "tripped" twice without a "cleared" in
    between.
- `receive.dfy` (module `Receive`) models what one received chunk does to
  a camera, line by line, stopping at the first line that raises.
- `reconnect.dfy` (module `Reconnect`) models the master loop's reconnect
  bookkeeping on values:
  - a finished transfer schedules a reconnect unless one is pending;
  - overdue deadlines are cleared and their cameras re-added in roster
    order.
- `notifier.dfy` (module `Notifier`) builds the Vera request URL and its
  inverse, the `Tripped` value read back from a URL.
- `camera.dfy` (module `Camera`) holds the class `DahuaCamera`. Its fields
  are the ones the source updates in place: `Connected`, `Reconnect`,
  `Alarm["Active"]`, `Alarm["Last"]`, plus the log of notifications sent.
  Each handler is a method proved against the functions above.
  `OnReceive` keeps the source's line loop.
- `master.dfy` (module `Master`) holds the class `DahuaMaster` with its
  roster of cameras and the log of transfers added to the transfer set.
  Its loops are the tick over all cameras and the three loops of the
  bookkeeping. `Wake` is one turn of the main loop of `Run`: unless `select`
  returned -1, `perform` runs and its report is handled (a `select` that
  merely waited out its timeout takes this path too, so overdue cameras are
  re-added while every stream is silent), and every camera is ticked
  either way, so a cooldown expires even when no event arrives.
- `scenarios.dfy` (module `Scenarios`) works through concrete runs:
  - a motion start line trips a fresh camera;
  - a line cut across two chunks is lost;
  - a malformed line ends its chunk.

Behaviours of the code that a reader might not expect, all kept in the
model:

- A malformed alarm line (a token with no `=`, or with two) raises
  `ValueError` inside the write callback and ends the chunk; it is not
  skipped, and the lines after it in that chunk are never handled.
- Each chunk is split and handled on its own. A line cut by a chunk
  boundary is not reassembled: both halves are handled as complete lines
  (`Scenarios.SplitLineIsLost`).
- A Start sends "tripped" only when `Active` is unset. A Start during a
  cooldown (`Active == false`) sets `Active` but sends nothing and keeps
  `Last` (`Alarm.StartDuringCooldown`).
- An empty key (`=x`) unpacks like any other token.
- A Stop while no alarm is running still starts a cooldown. The controller
  is later told "cleared" without having been told "tripped"
  (`Alarm.ClearedWithoutTrip`). So the notifications do not strictly
  alternate. What holds is that "tripped" never follows "tripped".

`KeyError` for a record without `Code` or without `action` is modelled as
the fault `MissingKey` (`Protocol.Fault`). Like `ValueError`, it ends the
chunk.

## Model

| member | source | states |
|---|---|---|
| Text.FindSpec | watch.py:87 | the separator search finds the leftmost occurrence, and finds none only when there is none |
| Text.Split | watch.py:87 | Python's `str.split`: always at least one piece; with `SplitAtFound`, `JoinSplit`, `SplitPiecesFree` and `SplitCount` the pieces are exactly the stretches between leftmost non-overlapping occurrences, in order, none holding the separator |
| Text.JoinSplit | watch.py:87 | joining the pieces of `s.split(sep)` with `sep` gives back `s` |
| Text.SplitJoin | watch.py:104 | splitting a join of parts that hold no character that starts the separator gives back exactly the parts; for the one-character `,` of the events list, parts that do not contain `,` |
| Text.SplitPiecesFree | watch.py:95 | no piece of a split contains the separator |
| Text.SplitCount | watch.py:96 | splitting on one character gives one piece more than the character's occurrences |
| Text.SplitAfterClean | watch.py:87 | when the head holds no character that starts the separator, splitting head + separator + rest gives the head, then the pieces of rest |
| Text.SplitAtFound | watch.py:87 | the first piece of a split is everything before the first occurrence of the separator, and the remaining pieces are the split of what follows it |
| Text.FindChar | watch.py:96 | a one-character separator occurs exactly when the character is in the string |
| Protocol.PairOk | watch.py:96 | `Key, Value = token.split('=')` succeeds exactly when the token holds one `=` |
| Protocol.PairParts | watch.py:96 | an unpacked token is key, `=`, value, and neither part holds `=` |
| Protocol.ParseFields | watch.py:94-97 | the token loop builds the same dictionary or fault as the `Fields` specification |
| Protocol.CollectOk | watch.py:94-97 | a line parses exactly when every token holds exactly one `=` |
| Protocol.CollectFirstFault | watch.py:94-97 | a failed parse reports the first malformed token, and every token before it is well formed |
| Protocol.CollectStopsAtFault | watch.py:94-97 | once a token raises, no later token changes the outcome |
| Protocol.CollectKeys | watch.py:94-97 | the parsed dictionary has exactly the keys of the tokens |
| Protocol.CollectLastWins | watch.py:97 | for a repeated key, the value of its last token wins |
| Protocol.CollectAllPairs | watch.py:94-97 | after a successful parse every token unpacks |
| Protocol.RoundTrip | watch.py:94-97 | an alarm line encoded from a non-empty list of pairs whose keys and values hold no `;` or `=` parses back to the dictionary of those pairs |
| Protocol.CollectTokens | watch.py:94-97 | the tokens of pairs whose keys and values hold no `;` or `=` collect into the dictionary of the pairs (an empty list of tokens into the empty dictionary) |
| Protocol.PairOf | watch.py:96 | a token made of a key, one `=` and a value unpacks to that pair |
| Protocol.Pair | watch.py:96 | `Key, Value = KeyValue.split('=')`; by `PairOk`, `PairParts` and `PairOf` it yields key and value exactly when the token holds one `=`, and raises `ValueError` otherwise |
| Protocol.Collect | watch.py:94-97 | the token loop filling `Alarm`; by `CollectOk`, `CollectFirstFault`, `CollectKeys` and `CollectLastWins` it fails on the first malformed token, and otherwise has exactly the tokens' keys with the last value of each |
| Protocol.Fields | watch.py:94-97 | the record of one line, its `;`-separated tokens collected; `ParseFields` computes it, and `RoundTrip` parses an encoded record back to its pairs |
| Protocol.CodeLineHasCode | watch.py:91-99 | a `Code=` line that parses always has a `Code` key |
| Protocol.EncodeAvoids | watch.py:87 | the source never encodes a line; this lemma serves the scenarios: an encoded line holds no character absent from its keys, values and delimiters, so a test line without `\r` is kept whole by the CRLF split of watch.py:87 |
| Alarm.OnRecord | watch.py:101-113 | a record raises exactly when `Code` is missing, or the code is monitored and `action` is missing; only a Start from the unset state notifies, and it notifies "tripped" once; only a monitored code changes state; only a Stop changes `Last`, to now; a cooldown keeps its time |
| Alarm.Tick | watch.py:76-81 | a tick changes state exactly when it notifies; it then notifies "cleared" once and resets a cooldown to unset; a cooldown is kept exactly while at most ALARM_DELAY seconds have passed |
| Alarm.RecordKeepsConsistent | watch.py:101-113 | handling a record keeps the state valid and never sends "tripped" twice in a row |
| Alarm.TickKeepsConsistent | watch.py:76-81 | a tick keeps the state valid and the notifications consistent with it |
| Alarm.MonitoredExactly | watch.py:104 | a code is monitored exactly when it is one of the comma-separated codes, never a substring of one |
| Alarm.IsMonitored | watch.py:104 | `Code in events.split(',')`; by `MonitoredExactly` a code is monitored exactly when it is one of the comma-separated codes |
| Alarm.UnmonitoredIgnored | watch.py:104-105 | a record with an unmonitored code changes nothing and sends nothing |
| Alarm.RecordActions | watch.py:107-113 | Start sets Active and notifies only from unset, keeping Last; Stop starts a cooldown at now from any state; other actions change nothing |
| Alarm.CooldownExpiry | watch.py:12 | a cooldown that started at `t` is cleared by a tick exactly when more than 30 seconds have passed |
| Alarm.TickAfterResetIsNoOp | watch.py:76-81 | a tick after the reset does nothing |
| Alarm.MotionScenario | watch.py:76-113 | Start, Stop two seconds later: "tripped" at once, nothing at 32 s, "cleared" at 33 s |
| Alarm.ClearedWithoutTrip | watch.py:111-113 | a Stop while no alarm runs leads to "cleared" with no "tripped" before it |
| Alarm.StartDuringCooldown | watch.py:107-110 | a Start during a cooldown sets `Active` again, keeps `Last` and sends nothing; the cooldown then no longer expires on a tick |
| Receive.LinesConcat | watch.py:87-99 | lines are handled strictly in order, and every line after one that raised is discarded |
| Receive.HandleLine | watch.py:87-99 | one iteration of the line loop; by `HandleLineKeepsConsistent` and `HandleLineMissingKey` it keeps the state consistent, appends at most one "tripped", and fails for a missing key only when the key is `action` |
| Receive.Lines | watch.py:87-99 | the line loop; by `LinesConcat`, `FaultDiscardsRest`, `PlainLinesIgnored` and `LinesKeepConsistent` lines are handled in order until the first that raises |
| Receive.Chunk | watch.py:83-99 | one received chunk split on CRLF and handled line by line; `ChunkWithoutBreak` shows nothing is carried to the next chunk |
| Receive.PlainLinesIgnored | watch.py:88-92 | lines that are not alarm lines change no alarm state and send nothing; the camera becomes connected exactly when one of them is the status line |
| Receive.LinesKeepConsistent | watch.py:83-113 | a chunk keeps the alarm state consistent with the notifications, and it only appends "tripped" ones |
| Receive.OnlyActionCanBeMissing | watch.py:99-107 | the only key whose absence can end a chunk is `action` |
| Receive.HandleLineMissingKey | watch.py:99-107 | a single line can fail for a missing key only when the key is `action` |
| Receive.ChunkWithoutBreak | watch.py:84-87 | a chunk with no CRLF in it is handled as one complete line; nothing is carried to the next chunk |
| Receive.FaultDiscardsRest | watch.py:94-99 | a line that raises ends the chunk, with the camera as that line left it |
| Receive.HandleLineKeepsConsistent | watch.py:88-99 | one line keeps the state consistent and appends at most one "tripped" |
| Reconnect.Drop | watch.py:167-173 | a finished transfer with a pending reconnect changes nothing; otherwise the camera is disconnected with a deadline 5 s from now |
| Reconnect.DropTwice | watch.py:169-170 | a second report of a finished transfer never reschedules the reconnect |
| Reconnect.DropAllAt | watch.py:167-181 | handling the finished transfers touches exactly the cameras named, each as if named once |
| Reconnect.DropAll | watch.py:167-181 | the two loops over finished transfers; it keeps one entry per camera, and by `DropAllAt` it touches exactly the cameras named, each as if named once |
| Reconnect.Rearm | watch.py:184-187 | an overdue deadline is cleared and nothing else changes; any other camera is untouched |
| Reconnect.RearmAll | watch.py:183-187 | every camera re-armed: each entry is `Rearm` of the camera at the same index |
| Reconnect.RestartedExactly | watch.py:183-187 | a camera is re-added exactly when its deadline is strictly in the past, in roster order |
| Reconnect.Restarted | watch.py:183-186 | the cameras re-added name cameras of the roster whose deadline has passed; by `RestartedExactly` they are all such cameras, in roster order |
| Reconnect.DueAmongMembers | watch.py:183-187 | among the first n cameras, exactly the overdue ones are re-added |
| Reconnect.DueAmongIncreasing | watch.py:183-187 | cameras are re-added in increasing roster order |
| Reconnect.Finish | watch.py:164-187 | one pass of the bookkeeping keeps one entry per camera, and afterwards no deadline lies in the past |
| Reconnect.FinishAt | watch.py:164-187 | per camera, the whole pass either schedules a new reconnect (finished, none pending) or re-arms |
| Notifier.VeraUrl | watch.py:54-58 | the request URL of `OnAlarm`; by `UrlRoundTrip`, `UrlsDifferInValue`, `UrlAddressesController` and `UrlAddressesDevice` it goes to the configured controller, addresses the configured device, and sets `Tripped` to 1 for "tripped" and 0 for "cleared" |
| Notifier.UrlRoundTrip | watch.py:54-58 | the URL sets `Tripped` to 1 for "tripped" and to 0 for "cleared" |
| Notifier.UrlsDifferInValue | watch.py:55-58 | the two URLs address the same device and differ only in the value |
| Notifier.UrlAddressesController | watch.py:55 | the request goes over plain HTTP to the configured controller |
| Notifier.UrlAddressesDevice | watch.py:55 | the device number in the request is the configured device, ended by the next `&` |
| Camera.DahuaCamera.constructor | watch.py:37-48 | a new camera has unset `Connected`, `Reconnect`, `Active` and `Last`, and has sent nothing |
| Camera.DahuaCamera.OnAlarm | watch.py:50-66 | the notification is logged and the returned request is the Vera URL for it; nothing else changes |
| Camera.DahuaCamera.OnConnect | watch.py:68-70 | `Connected` becomes true; nothing else changes |
| Camera.DahuaCamera.OnDisconnect | watch.py:72-74 | `Connected` becomes false; nothing else changes |
| Camera.DahuaCamera.OnTimer | watch.py:76-81 | the camera's alarm state and notification log advance by one `Tick`; its connection is untouched; validity is kept |
| Camera.DahuaCamera.ParseAlarm | watch.py:101-113 | the state and notifications advance as `OnRecord` says, or a missing key is reported and nothing changed |
| Camera.DahuaCamera.ReceiveLine | watch.py:88-99 | one line has the effect `HandleLine` specifies |
| Camera.DahuaCamera.OnReceive | watch.py:83-99 | the camera ends in the state `Chunk` specifies for the whole chunk, with its fault if a line raised; validity is kept |
| Camera.DahuaCamera.Finished | watch.py:169-173 | the camera's connection bookkeeping advances by `Drop` |
| Camera.DahuaCamera.RearmIfDue | watch.py:184-187 | reports whether the deadline passed, and the bookkeeping advances by `Rearm` |
| Master.DahuaMaster.constructor | watch.py:117-142 | one idle camera per roster entry, each knowing its index, with every transfer added once in roster order |
| Master.DahuaMaster.OnTimer | watch.py:144-146 | every camera is ticked once; each tick touches only its own camera |
| Master.DahuaMaster.DropFinished | watch.py:167-181 | the cameras' connection bookkeeping becomes `DropAll` of the finished transfers; alarm state untouched |
| Master.DahuaMaster.RearmDue | watch.py:183-187 | overdue deadlines are cleared, and the cameras to re-add are those `Restarted` lists |
| Master.DahuaMaster.HandleFinished | watch.py:161-187 | nothing happens while every transfer is running; otherwise the bookkeeping becomes `Finish` and the re-added transfers are logged; alarm state untouched |
| Master.DahuaMaster.Wake | watch.py:154-192 | one turn of the main loop: after a `select` that returned -1 the bookkeeping and the re-add log are unchanged; otherwise they change as `HandleFinished` says; either way every camera's alarm state and notification log advance by one `Tick` of its old state |
| Scenarios.MotionStartFields | watch.py:94-97 | `Code=VideoMotion;action=Start;index=0` parses to code `VideoMotion` and action `Start` |
| Scenarios.StartRecordTrips | watch.py:104-110 | a monitored Start on an idle camera notifies "tripped" once |
| Scenarios.StartLineHandled | watch.py:88-110 | the motion start line trips a fresh camera that watches `VideoMotion` |
| Scenarios.StartLineTrips | watch.py:83-110 | a chunk holding the motion start line trips a fresh camera once |
| Scenarios.CutJoins | watch.py:87 | the two halves of the cut line together are the motion start line |
| Scenarios.CutHeadIgnored | watch.py:87-113 | the head half, `Code=VideoMotion;action=St`, changes nothing |
| Scenarios.CutTailIgnored | watch.py:87-92 | the tail half, `art;index=0`, is not an alarm line and changes nothing |
| Scenarios.SplitLineIsLost | watch.py:83-99 | a motion start line cut between two chunks changes nothing |
| Scenarios.JunkAfterToken | watch.py:95-96 | a token without `=` after a good token raises on it |
| Scenarios.MalformedLineEndsChunk | watch.py:87-99 | `Code=VideoMotion;garbage` raises and the motion start line after it in the chunk is never handled |

## Left out

- The pycurl transfer setup is not modelled: the attach URL template (watch.py:13, 127), the connect timeout, the TCP keep-alive settings, Digest authentication and the write callback (watch.py:129-142). This is foreign-library configuration.
- `perform`, `select`, `info_read`, `remove_handle`/`add_handle` and `time.sleep` in `Run` (watch.py:148-192) are outside the model. `Wake` and `HandleFinished` take their outcomes as inputs: whether `select` returned -1 (the only result `Run` tests, watch.py:157), the number of running transfers, and the finished transfers as lists of camera indices. A re-add is recorded in the `added` log.
- Which outcomes of `select` give -1 is up to pycurl and the operating system. With `select(2)` semantics that is a failed call; a wait that only runs out its timeout returns 0 and takes the `perform` and bookkeeping path. `Wake` is given the flag and does not decide it.
- The retry loop around `perform` is not modelled: `Run` repeats its inner loop while `perform` asks to be called again. The model covers one pass of the loop body. The endless outer loop of `Run` is modelled one turn at a time by `Wake`; the first `perform` loop before it (watch.py:148-152) is transfer setup.
- `Master.DahuaMaster.HandleFinished`: the source finds a transfer's camera by a linear scan (watch.py:168, 176). The model is given the camera's index, so a transfer that belongs to no camera (a `StopIteration` in the source) cannot occur.
- Performing the Vera request and catching `pycurl.error` (watch.py:51, 61-66) is network I/O. `OnAlarm` appends to the notification log and returns the request URL.
- UTF-8 decoding with `errors="ignore"` (watch.py:84) is left out. Chunks are given as decoded text.
- `print` and `logging` output, and the `__main__` bootstrap (watch.py:194-198), are left out.
- The hard-coded roster `CAMERAS` (watch.py:15-34) is left out. It is the constructor's `roster` parameter.
- Time is a whole number of seconds, passed in as `now`. The source reads the floating-point clock afresh at each use: watch.py:77, 113, 173, 181 and 184. The model uses one `now` per handler call, so two reads within one pass of the bookkeeping are taken to agree.
- `Reconnect` is never 0 in the model, because it is `now + 5` with `now >= 0`. So the source's truthiness test `if Camera.Reconnect` is modelled as "a deadline is set".
- The model does not say what pycurl does after a write callback raises. It records that the rest of the chunk is not handled and reports the fault.
