# grass-bot: per-message logic of the relay client, in Dafny

`grass.py` opens one websocket session per identity against a relay, sends
PING heartbeats on it, and reconnects after a fixed wait whenever a session
ends. Its receive loop body would count the bytes received per identity,
answer the relay's AUTH challenge and report usage on PONG; as written that
loop never runs (see below), and the model states what its body would do.
This project models the deterministic part of that client:

- `Wire` (wire.dfy): decoded JSON values, websocket frames (text or binary),
  and the outcome of `json.loads` (a value or an error). `Length` is
  `len(message)` (grass.py:31): code points of a text frame, bytes of a
  binary one.
- `Messages` (messages.dfy): the AUTH reply and the PING heartbeat as JSON
  values, with readers that recognise each shape and round-trip lemmas, and
  Python's `int()` truncation of the clock reading.
- `Usage` (usage.dfy): the `total_data_usage` table and its update for one
  frame. `UsageOf` is `.get(user_id, 0)` (grass.py:32): the identity's entry,
  or zero when it has none.
- `Handler` (handler.dfy): the dispatch of one decoded frame (`Dispatch`), and
  the receive loop over a finite run of frames as a specification function
  (`Replay`) with lemmas on usage, per-step results and usage reports.
- `Bot` (bot.dfy): `Configuration` and the class `BotInstance`, whose field
  `totalDataUsage` is updated in place by `Receive` (one loop iteration) and
  `ReceiveLoop` (the `while True` loop), both proved against `Record`,
  `Dispatch` and `Replay`.
- `Identities` (identities.dfy): Python's `str.strip()` with the whitespace
  set of `str.isspace`, the `load_lines` comprehension, and the start-up
  decision of `main`.

`json.loads` is a parameter (`loads: Payload -> Parse`); the values the
client draws from `uuid.uuid4()` and `time.time()` while handling a frame
travel with the frame (`Handler.Arrival`).

Behaviour of the code that the model keeps as written:

- The byte count is added before the frame is decoded (grass.py:31-33). A
  frame that `json.loads` rejects, or that decodes to something other than a
  dict (a list, string, number, boolean or null has no `.get`), raises an
  error that is not `ConnectionClosed`. The error leaves the receive loop,
  is caught at grass.py:60 and ends the session. Its bytes stay counted
  (`Handler.Step.SessionEnds`).
- `direct_connect` awaits `send_ping` (grass.py:26). `send_ping`
  (grass.py:67-77) has no `return` or `break`, so it can only leave by
  raising, for example when `websocket.send` at grass.py:75 raises
  `ConnectionClosed` on a closed socket. That exception passes out of the
  `async with` at grass.py:24-26 to the handler at grass.py:60 and skips
  grass.py:28-58 entirely. So, as written, the receive loop, the AUTH reply
  and the byte count never run. The model states what the loop body would
  do to each frame; it makes no claim that heartbeats and receives
  interleave.
- A frame's size is `len(message)`: code points of a text frame, bytes of a
  binary one. The frames `{"action":"AUTH","id":"abc"}` and
  `{"action":"PONG"}` have `len` 28 and 17, as `Handler.AuthThenPong`
  uses.
- An AUTH frame without an `id`, or with `"id": null`, gets `"id": null` in
  its reply (`message.get("id")` is `None` in both cases).

## Model

| member | source | states |
|---|---|---|
| Messages.TruncateToInt | grass.py:43 | `int()` of the clock truncates toward zero: the result is the integer next to the reading on the side of zero, less than one away from it |
| Messages.AuthReply | grass.py:36-47 | the AUTH reply built for a request reads back as an AUTH reply carrying the request's `id` (null when absent), the identity as `user_id`, the supplied `browser_id` and the truncated clock as `timestamp`; when the request has no `id` the reply's `id` is null |
| Messages.AuthReplyRoundTrip | grass.py:36-47 | a message reads as an AUTH reply with given id, browser id, identity and timestamp exactly when it is the reply built from them; the reader demands exactly the three envelope keys, `origin_action` "AUTH", exactly the six `result` keys and the fixed `user_agent` "Mozilla/5.0", `device_type` "desktop" and `version` "4.28.2" |
| Messages.Ping | grass.py:69-74 | the heartbeat built from a freshly drawn id reads back as a heartbeat with that id |
| Messages.PingRoundTrip | grass.py:69-74 | a message is a heartbeat with id `id` exactly when it is the PING built from `id` (keys `id`, `version` "1.0.0", `action` "PING", empty `data`); no AUTH reply reads as a heartbeat |
| Usage.Record | grass.py:31-32 | after a frame of n bytes the identity's entry is its previous count (zero when absent) plus n; the key set gains only that identity; every other entry is unchanged; no count decreases |
| Handler.Dispatch | grass.py:33-54 | the session ends exactly when the frame did not decode to a dict; a reply is sent exactly when `action` is "AUTH"; usage is reported exactly when `action` is "PONG", and the report is the identity's count including this frame; anything else does nothing |
| Handler.AuthAnswered | grass.py:35-47 | for a frame whose action is AUTH the step sends a message that reads as an AUTH reply echoing the frame's `id` (null when absent), naming the identity, with the drawn browser id and truncated clock |
| Handler.Replay | grass.py:28-58 | the receive loop handles at most one step per frame, and at least one when a frame arrives |
| Handler.ReplayLoopStep | grass.py:28-58 | one loop iteration carries the loop invariant over: the whole run is the steps so far followed by the run of the remaining frames from the updated table, or it ends with the step of a frame that ends the session |
| Handler.ReplayUsage | grass.py:28-33 | after the loop the identity's count grew by exactly the lengths of the frames handled, the frame that ended the session included; with no frames the table is unchanged; once a frame arrives the identity is a key of the table; other identities' keys and entries are unchanged |
| Handler.ReplayStepAt | grass.py:28-54 | step i is the dispatch of frame i with the identity's count after frames 0..i were added |
| Handler.ReplayStopsOnlyAtEnd | grass.py:28-61 | only the last step can end the session; every frame is handled unless a frame ends the session |
| Handler.LoggedUsageGrows | grass.py:51-54 | each PONG report equals the starting count plus the lengths of all frames so far, the PONG included, and later reports never show less than earlier ones |
| Handler.AuthThenPong | grass.py:30-54 | for "user-42", an AUTH frame with id "abc" (28 characters) then a PONG (17 characters): the reply echoes "abc" and names "user-42", the table ends at 45 and the PONG reports 45 |
| Bot.BotInstance.constructor | grass.py:18-20 | a new instance keeps its configuration and starts with an empty usage table |
| Bot.BotInstance.Receive | grass.py:30-54 | one loop iteration updates the table exactly as `Record` with the frame's length and returns the `Dispatch` of the decoded frame against the updated count |
| Bot.BotInstance.ReceiveLoop | grass.py:28-58 | the loop leaves the table and returns the steps that `Replay` gives from the table it started with |
| Identities.Strip | grass.py:94 | `strip()` never lengthens the line, and a non-empty result starts and ends with a non-whitespace character |
| Identities.StripSlice | grass.py:94 | `strip()` yields a slice of the line with only whitespace around it, starting and ending with non-whitespace, empty exactly when the line is all whitespace |
| Identities.StripIdempotent | grass.py:94 | stripping a stripped line changes nothing |
| Identities.IdentitiesAppend | grass.py:94 | the filter works line by line: the identities of two runs of lines are the identities of the first followed by those of the second |
| Identities.IdentitiesOfLine | grass.py:94 | a single line yields its stripped form, or nothing when it is blank |
| Identities.IdentitiesMembers | grass.py:94 | an identity is listed exactly when it is non-empty and some line strips to it |
| Identities.StrippedIsFixed | grass.py:94 | `strip()` leaves a non-empty string with no whitespace at either end unchanged |
| Identities.Identities | grass.py:94 | the comprehension keeps at most one identity per line, and every listed identity is non-empty with no whitespace at either end |
| Identities.LoadLines | grass.py:91-97 | an unreadable file yields no identities; a readable one yields exactly the identities of its lines (the comprehension); every loaded identity is non-empty with no whitespace at either end |
| Identities.IdentitiesEmpty | grass.py:94 | the list is empty exactly when every line is blank |
| Identities.LoadLinesEmpty | grass.py:91-97 | the loaded list is empty exactly when the file cannot be read or every line is blank |
| Identities.Plan | grass.py:91-115 | nothing is started when the file cannot be read or holds only blank lines; otherwise one connection per listed identity, in file order |

## Left out

- The websocket itself (`websockets.connect`, `recv`, `send`), the fixed connection headers of `default_headers` (grass.py:79-88) and the `ConnectionClosed` handling (grass.py:56-58): network I/O. The frames that arrive before the peer closes are the input of `ReceiveLoop`; an error while sending a reply is not modelled.
- The heartbeat loop in `send_ping` (grass.py:67-77) and its 26-second sleep: timing. One heartbeat message is modelled (`Messages.Ping`); the interval is the constant `Bot.PING_INTERVAL`.
- The wait of `retry_interval` seconds and the self-recursive reconnect (grass.py:63-64), and `asyncio.gather` over all identities (grass.py:114-115): timing and concurrency. The wait is the same 20 seconds after every session end, whatever ended it; `Bot.Configuration`, `Bot.DEFAULT_CONFIGURATION` and `Bot.PING_INTERVAL` are plain named constants that no contract uses. One `BotInstance` table is shared by every session (grass.py:105, 114), and `Identities.Plan` keeps duplicate lines, so a file that lists the same identity twice starts two sessions that add to one entry; `Handler.LoggedUsageGrows`'s "start count plus frames so far" then holds only when those sessions do not interleave.
- `json.loads` and `json.dumps`: the decoder is a parameter and messages are JSON values, not text. JSON numbers are integers in the model; a fractional number is outside it.
- `uuid.uuid4()` and `time.time()`: non-deterministic, so they are inputs; the text form of a UUID is not modelled and the clock is a real number rather than a float.
- The KB figure `round(x / 1024, 2)` (grass.py:52): floating point. The usage report carries the byte count it is computed from.
- Time-zone formatting with pytz and coloured console output: foreign libraries and logging.
- The banner functions `center`, `show_intro` and `show_header` (grass.py:118-134): console UI.
- Opening and reading the file in `load_lines` (grass.py:93): I/O. The file is a sequence of lines, or `None` when it cannot be read.
