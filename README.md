# Remote play client and host: wire formats, counters and lookups

This project models the sequential core of a Rust cloud-gaming client and host (`communication-rust`). A host offers a game and a client plays it remotely over WebRTC. The two peers meet through a signalling server. A local front end drives each of them over a TCP control connection. The client captures keyboard and mouse input and sends it as text to the host, which injects it.

The model covers these parts:

- **Remote-input wire protocol.** The client encodes each captured event as a one-character action prefix and a decimal payload, or as "x y" for a mouse move. The host decodes that text into an injected input; there is a current decoder and an older one for each channel.
  - Proved: every message the client sends decodes back into the event it came from.
- **Signalling protocol.** Messages are a tag and fields joined by '|'. They are parsed by splitting on '|' and matching the first piece.
  - Proved: builders and parsers agree, and every error and panic case of the parsers is stated.
- **Front-end control protocol.** The reader task cuts the TCP stream into newline-terminated lines and dispatches each one as a command.
- **`ErrorTracker`.** This counter decides when repeated track read or write failures become fatal.
- **Latency measurement.**
  - The SNTP retry loop.
  - The reduction of an SNTP answer to milliseconds within a 100-second window.
  - The receiver's checked difference.
  - The `timestamp,latency` log line.
- **Locating the game window on the host.**
  - The `.exe` check.
  - Backslash normalisation.
  - The first-match process search and the first-visible-window rule, each retried a bounded number of times.

Rust panics are an explicit `Panic` outcome in the model, not preconditions. These include unchecked indexing, `unwrap`/`expect`, `split_at` inside a character, overflow in checked builds and slicing out of range. Every parser is therefore total, and its panic cases are stated and proved.

Modules, one per source file, plus two shared ones:

- `Outcomes`: `Option`, and an `Outcome` that is `Ok`, `Err(IoError)` or `Panic`.
- `Text`: the standard-library text functions the formats rely on. These are integer `to_string`, `parse::<u8/u32/i32>`, `split(char)`, `split_whitespace`, `trim_end_matches` and `ends_with`.
- `ErrorTracking`: src/utils/error_tracker.rs.
- `SocketProtocol`: src/websocketprotocol/socket_protocol.rs.
- `LegacySocketProtocol`: src/websocketprotocol/websocketprotocol.rs.
- `FrontProtocol`: src/front_connection/front_protocol.rs.
- `InputCapture`: src/input/input_capture.rs.
- `Winput`: the events and injected inputs exchanged with the input APIs.
- `OutputConst`: src/output/output_const.rs.
- `ButtonController`: src/output/button_controller.rs.
- `MouseController`: src/output/mouse_controller.rs.
- `KeyboardController`: src/output/keyboard_controller.rs.
- `OutputController`: src/output/output_controller.rs.
- `RemoteInput`: the end-to-end round trip between the client's encoder and the host's decoders.
- `Latency`: src/webrtcommunication/latency.rs.
- `SenderUtils`: src/services/sender_utils.rs.

## Model

| member | source | states |
|---|---|---|
| Text.NatToString | src/input/input_capture.rs:179 | `to_string` of an unsigned integer: a non-empty run of digits whose value is n, with no leading zero, and a single digit exactly when n < 10 |
| Text.IntToString | src/input/input_capture.rs:244 | `to_string` of a signed integer: a '-' exactly when it is negative, followed by the text of its magnitude |
| Text.ParseUnsigned | src/output/button_controller.rs:35 | `parse::<uN>()`: any value it yields is within the type's range |
| Text.ParseSigned | src/output/mouse_controller.rs:34 | `parse::<i32>()`: any value it yields is within the type's range |
| Text.ParseUnsignedOfNatToString | src/webrtcommunication/latency.rs:122 | parsing the printed form of any in-range unsigned value gives the value back |
| Text.ParseSignedOfIntToString | src/output/mouse_controller.rs:34-41 | parsing the printed form of any in-range signed value gives the value back |
| Text.ParseUnsignedRejectsMinus | src/webrtcommunication/latency.rs:122-128 | an unsigned parse rejects any text with a leading '-' |
| Text.Split | src/websocketprotocol/socket_protocol.rs:44 | `split(sep)`: at least one piece, no piece holds the separator, and joining the pieces gives the text back |
| Text.SplitJoin | src/websocketprotocol/socket_protocol.rs:44 | splitting undoes joining when no field holds the separator |
| Text.FirstFieldIs | src/websocketprotocol/socket_protocol.rs:45 | the first piece equals a tag exactly when the text is the tag or starts with the tag and the separator |
| Text.TokenLength | src/output/mouse_controller.rs:31 | the token at the start of a text is whitespace-free and ends at whitespace or at the end |
| Text.SplitWhitespace | src/output/mouse_controller.rs:31 | `split_whitespace`: every token is non-empty and whitespace-free |
| Text.SplitWhitespaceOfPair | src/output/mouse_controller.rs:31 | two whitespace-free tokens joined by one space split back into the two tokens |
| Text.SplitWhitespaceOfInts | src/input/input_capture.rs:244 | "x y" as the encoder prints it splits into the texts of x and y |
| Text.TrimEnd | src/front_connection/front_protocol.rs:48 | `trim_end_matches(c)`: a prefix of the text that does not end in c, and everything removed is c |
| ErrorTracking.ErrorTracker.constructor | src/utils/error_tracker.rs:20-27 | both counters start at 0, and the threshold and reset limit are stored unchanged |
| ErrorTracking.ErrorTracker.IncrementWithError | src/utils/error_tracker.rs:33-38 | both counters rise by exactly 1 and the limits are unchanged; the answer is true iff errors have reached the threshold; this is one `Failure` step, and the invariant errors <= iterations is kept |
| ErrorTracking.ErrorTracker.Increment | src/utils/error_tracker.rs:41-47 | iterations rise by 1 and errors are unchanged, unless the reset limit is reached, which clears both; iterations stay below a reset limit >= 1; this is one `Success` step, and the invariant is kept |
| ErrorTracking.ErrorTracker.Reset | src/utils/error_tracker.rs:49-52 | both counters are 0 and the limits are unchanged |
| ErrorTracking.RunKeepsInvariant | src/utils/error_tracker.rs:33-52 | any sequence of reports keeps errors <= iterations and never changes the threshold or the reset limit |
| ErrorTracking.FailuresInARow | src/utils/error_tracker.rs:33-38 | k consecutive failures raise both counters by exactly k, because a failure never resets |
| ErrorTracking.FatalExactlyAtThreshold | src/utils/error_tracker.rs:37 | from a fresh tracker with threshold t, a failure is fatal exactly from the t-th consecutive one on |
| ErrorTracking.ErrorsBoundedByFailures | src/utils/error_tracker.rs:33-52 | a run of reports adds at most one error per failure it reports |
| SocketProtocol.TaggedFields | src/websocketprotocol/socket_protocol.rs:30 | a tag joined with pipe-free fields splits back into exactly the tag and the fields; the tag is always the first piece |
| SocketProtocol.InitOfferMessage | src/websocketprotocol/socket_protocol.rs:30 | the tag "initOfferer" then the name: its first piece is the tag, and it splits back into tag and name when the name holds no separator |
| SocketProtocol.SendSdpToClientMessage | src/websocketprotocol/socket_protocol.rs:59 | "offererSdp", the client and the sdp, joined by the separator, split back into the tag and its fields, in argument order |
| SocketProtocol.InitClientMessage | src/websocketprotocol/socket_protocol.rs:95-97 | "initClient" and its four fields, joined by the separator, split back into the tag and its four fields, in argument order |
| SocketProtocol.SendSdpToOffererMessage | src/websocketprotocol/socket_protocol.rs:134 | "clientSdp", the offerer and the sdp split back into the tag and its fields, in argument order |
| SocketProtocol.StartSessionMessage | src/websocketprotocol/socket_protocol.rs:150 | "startSession", offerer, client and minutes split back into the tag and its fields, in argument order |
| SocketProtocol.ForceStopSessionMessage | src/websocketprotocol/socket_protocol.rs:161 | "forceStopSession" and the name split back into the tag and the name |
| SocketProtocol.GameSolicitudeRoundTrip | src/websocketprotocol/socket_protocol.rs:44-51 | a request with pipe-free client, game and path fields parses to exactly those fields with minutes "60", whatever follows |
| SocketProtocol.GameSolicitudeRejectsOtherTags | src/websocketprotocol/socket_protocol.rs:52 | every text whose first piece is not "sdpRequestFrom" is InvalidData "Should be sdp request." |
| SocketProtocol.GameSolicitudeMissingFieldPanics | src/websocketprotocol/socket_protocol.rs:47-49 | a request with fewer than three fields panics on the unchecked index |
| SocketProtocol.ReceiveFailures | src/websocketprotocol/socket_protocol.rs:37-43 | a failed receive is the "Error receiving message" error and a non-text frame panics, for every parser |
| SocketProtocol.TaggedFieldRoundTrip | src/websocketprotocol/socket_protocol.rs:75-82 | the tag and a value parse back to the value when it holds no separator |
| SocketProtocol.TaggedFieldIgnoresMore | src/websocketprotocol/socket_protocol.rs:78 | fields after field 1 are ignored |
| SocketProtocol.TaggedFieldErrors | src/websocketprotocol/socket_protocol.rs:78-82 | another first piece is InvalidData with the parser's message, and the tag alone panics on the index of field 1 |
| SocketProtocol.ClientSdpRoundTrip | src/websocketprotocol/socket_protocol.rs:67-84 | "sdpClient" and an sdp parse back to the sdp |
| SocketProtocol.OffererSdpRoundTrip | src/websocketprotocol/socket_protocol.rs:109-125 | "sdpOfferer" and an sdp parse back to the sdp |
| SocketProtocol.StopSessionRoundTrip | src/websocketprotocol/socket_protocol.rs:180-196 | "stopSessionByTimer" and a value v parse back to v |
| SocketProtocol.WsProtocol.constructor | src/websocketprotocol/socket_protocol.rs:18-27 | a connection that has sent nothing, with the frames still to arrive |
| SocketProtocol.WsProtocol.Send | src/websocketprotocol/socket_protocol.rs:30-33 | a delivered text is appended to what was sent and gives Ok; a failed send records nothing and is Other with the caller's message |
| SocketProtocol.WsProtocol.Receive | src/websocketprotocol/socket_protocol.rs:37 | takes exactly the next frame and nothing else changes |
| SocketProtocol.WsProtocol.InitOffer | src/websocketprotocol/socket_protocol.rs:29-34 | sends the offer message, or fails with "Error sending offer message" and sends nothing |
| SocketProtocol.WsProtocol.SendSdpToClient | src/websocketprotocol/socket_protocol.rs:56-65 | sends the offerer's sdp message, or fails with "Error sending sdp message" |
| SocketProtocol.WsProtocol.InitClient | src/websocketprotocol/socket_protocol.rs:86-107 | sends the five-piece init message, or fails with "Error sending init client message" |
| SocketProtocol.WsProtocol.SendSdpToOfferer | src/websocketprotocol/socket_protocol.rs:127-140 | sends the client's sdp message, or fails with "Error sending sdp message" |
| SocketProtocol.WsProtocol.StartSession | src/websocketprotocol/socket_protocol.rs:142-156 | sends the start-session message, or fails with the sdp error message the source reuses |
| SocketProtocol.WsProtocol.ForceStopSession | src/websocketprotocol/socket_protocol.rs:158-170 | sends the force-stop message, or fails with "Error sending force_stop_session message" |
| SocketProtocol.WsProtocol.WaitForGameSolicitude | src/websocketprotocol/socket_protocol.rs:36-54 | consumes exactly one frame, and its result is the request parser's reading of it |
| SocketProtocol.WsProtocol.WaitForClientSdp | src/websocketprotocol/socket_protocol.rs:67-84 | consumes exactly one frame, and its result is the client-sdp parser's reading of it |
| SocketProtocol.WsProtocol.WaitForOffererSdp | src/websocketprotocol/socket_protocol.rs:109-125 | consumes exactly one frame, and its result is the offerer-sdp parser's reading of it |
| SocketProtocol.WsProtocol.WaitForStopSession | src/websocketprotocol/socket_protocol.rs:180-196 | consumes exactly one frame, and its result is the stop-session parser's reading of it |
| LegacySocketProtocol.InitClientMessage | src/websocketprotocol/websocketprotocol.rs:90-99 | "initClient" and three fields split back into the tag and exactly three fields |
| LegacySocketProtocol.SameBuilders | src/websocketprotocol/websocketprotocol.rs:26 | the legacy `init_offer`, `send_sdp_to_client` and `send_sdp_to_offerer` texts are the current ones |
| LegacySocketProtocol.InitClientWithoutMinutes | src/websocketprotocol/websocketprotocol.rs:91 | the legacy init message is the current one without its minutes field, and has four pieces |
| LegacySocketProtocol.GameSolicitudeRoundTrip | src/websocketprotocol/websocketprotocol.rs:44-49 | "sdpRequestFrom" with a client c, a game and anything after yields only the client c |
| LegacySocketProtocol.GameSolicitudeWithoutGamePanics | src/websocketprotocol/websocketprotocol.rs:48 | a request without field 2 panics |
| LegacySocketProtocol.RejectsOtherTags | src/websocketprotocol/websocketprotocol.rs:51-53 | each legacy parser answers InvalidData "Invalid message" to every text whose first piece is not its tag |
| LegacySocketProtocol.SdpRoundTrips | src/websocketprotocol/websocketprotocol.rs:77-82 | "sdpClient" or "sdpOfferer" with a field s parse back to s |
| LegacySocketProtocol.LegacyAcceptsMore | src/websocketprotocol/websocketprotocol.rs:36-56 | every request the current parser accepts, the legacy one accepts with the same client; a request without a path is accepted by the legacy parser and panics in the current one |
| FrontProtocol.HandleMessage | src/front_connection/front_protocol.rs:82-120 | only a first piece "startOffering" or "startGameWithUser" starts a client, as Sender or Receiver respectively; it panics exactly when "startOffering" has fewer than 2 pieces or "startGameWithUser" fewer than 5; "disconnect" waits on the barrier; any other first piece is ignored; there is never an Err |
| FrontProtocol.LineLength | src/front_connection/front_protocol.rs:43 | `read_until(b'\n')` takes at most what is left, and takes nothing exactly at the end of the stream |
| FrontProtocol.LineLengthIsLine | src/front_connection/front_protocol.rs:43 | a line read holds no '\n' but its last byte, and ends in '\n' unless the stream ends first |
| FrontProtocol.FramesCoverStream | src/front_connection/front_protocol.rs:41-55 | the frames read, concatenated, are exactly the stream |
| FrontProtocol.FramesAreLines | src/front_connection/front_protocol.rs:41-55 | every frame is non-empty with no inner '\n', and every frame but the last ends in '\n' |
| FrontProtocol.Dispatch | src/front_connection/front_protocol.rs:48-53 | never dispatches more commands than there are frames, and dispatches one per frame unless a line panics |
| FrontProtocol.DispatchStep | src/front_connection/front_protocol.rs:41-55 | one turn: the line without its newline is handled, and a panic ends the reader |
| FrontProtocol.ReadLoop | src/front_connection/front_protocol.rs:38-55 | the loop's commands and whether it panicked are exactly what dispatching the stream's frames gives, and a read of 0 bytes ends it |
| FrontProtocol.FramesOfPlainLine | src/front_connection/front_protocol.rs:43-48 | a newline-free body and its newline are one frame, handed on without the newline |
| FrontProtocol.StartOfferingMessage | src/front_connection/front_protocol.rs:90-99 | "startOffering" with a user u gives a Sender u with no offerer, game or minutes |
| FrontProtocol.StartGameWithUserMessage | src/front_connection/front_protocol.rs:101-113 | "startGameWithUser" with fields u, c, g, m gives a Receiver u with Some(c), Some(g), Some(m) |
| FrontProtocol.StartGameWithoutMinutesPanics | src/front_connection/front_protocol.rs:105 | the four-field line of the sample front end (test.py:24) panics on the index of the minutes |
| FrontProtocol.StartGameWithoutMinutesEndsReader | src/front_connection/front_protocol.rs:41-55 | that line ends the reader task, and nothing after it is dispatched |
| FrontProtocol.DispatchOfPlainLine | src/front_connection/front_protocol.rs:41-55 | reading a newline-terminated line then the rest is handling the line, then the rest |
| FrontProtocol.ReadingOfferingLines | src/front_connection/front_protocol.rs:38-99 | a stream of "startOffering" lines gives one Sender per line, in order, and reads to the end |
| FrontProtocol.SenderStarts | src/front_connection/front_protocol.rs:90-99 | one Sender start per user, in the users' order |
| InputCapture.ButtonToI32 | src/input/input_capture.rs:310-318 | the code is in 0..4, and 0 exactly for the left button |
| InputCapture.Encode | src/input/input_capture.rs:169-252 | the blocked Windows keys never produce a message; a button-channel message comes only from a press or release or a non-zero wheel turn; the mouse channel is used exactly for moves other than (0, 0) |
| InputCapture.HandleButtonAction | src/input/input_capture.rs:278-299 | sends action+text exactly when the channel is open and the send succeeds; fails exactly when an open channel's send fails; never panics |
| InputCapture.Turn | src/input/input_capture.rs:169-260 | an error once notified stays notified; the turn newly notifies one exactly when its message fails on the open button channel; it ends the loop exactly when the shutdown check finds an error and the event was not skipped with `continue`; at most one message is delivered |
| InputCapture.Handle | src/input/input_capture.rs:164-263 | a notified error is never forgotten |
| InputCapture.StartHandler | src/input/input_capture.rs:155-264 | the messages delivered, the notification and the stop are exactly those of `Handle` over the events |
| InputCapture.HandleDeliversEveryMessage | src/input/input_capture.rs:164-263 | with open channels, successful sends and a shutdown check that never finds an error, every event's message is delivered in order and the loop never stops |
| InputCapture.ButtonSendFailureNotifies | src/input/input_capture.rs:284-298 | a failed send on the open button channel delivers nothing and notifies an error; the loop ends there only if the shutdown check then finds an error, and otherwise goes on with the error notified |
| InputCapture.UnregisterClassW | src/input/input_capture.rs:108-141 | at most 5 attempts; success iff one of the first 5 calls succeeds, and then it stops at the first success |
| ButtonController.GetMouseButton | src/output/button_controller.rs:104-113 | codes above 4 give Left, and Left exactly for 0 or a code above 4 |
| ButtonController.SendInputKey | src/output/button_controller.rs:121-137 | the key is truncated to 16 bits; the KEYUP flag is set exactly when up; the fixed fields are as written |
| ButtonController.DecodeButtonMessage | src/output/button_controller.rs:27-100 | panics exactly when `split_at(1)` cannot cut the text; never an Err; with a u8 payload k, "p" and "r" inject key k down and up, "m" and "t" press and release `get_mouse_button(k)`; a key or button action injects nothing exactly when its payload is not a u8; otherwise the scroll prefixes scroll with the payload and any other action injects nothing |
| ButtonController.UnparsablePayloadInjectsNothing | src/output/button_controller.rs:35-41 | a key or button action whose payload is not a u8 injects nothing |
| ButtonController.UnknownActionInjectsNothing | src/output/button_controller.rs:96 | any other first character injects nothing |
| ButtonController.KeyPressMessage | src/output/button_controller.rs:34-43 | "p"+k injects key k, down, for every u8 k |
| ButtonController.KeyReleaseMessage | src/output/button_controller.rs:44-53 | "r"+k injects key k, up, for every u8 k |
| MouseController.DecodeMoveMessage | src/output/mouse_controller.rs:25-50 | panics exactly when token 0 is missing, or token 0 parses and token 1 is missing; two i32 tokens give exactly the move of their values; a token that is not an i32 gives no move |
| MouseController.UnparsableTokenMovesNothing | src/output/mouse_controller.rs:36-46 | either token failing to parse means no move |
| OutputController.DecodeMoveMessage | src/output/output_controller.rs:20-36 | succeeds exactly when the first two tokens are i32, and the move is those two values; otherwise it panics |
| KeyboardController.DecodeKeyboardMessage | src/output/keyboard_controller.rs:14-45 | succeeds exactly when the text splits at 1 and its payload is a u8 k, otherwise it panics; then 'p' presses and 'r' releases key k, 'm' presses and 't' releases `get_mouse_button(k)`, and any other action does nothing |
| KeyboardController.UnparsablePayloadPanics | src/output/keyboard_controller.rs:21 | any action with a payload that is not a u8 panics |
| RemoteInput.ButtonCodeRoundTrip | src/output/button_controller.rs:104-113 | `get_mouse_button` undoes `button_to_i32` |
| RemoteInput.PrefixedNumber | src/output/button_controller.rs:31-35 | a one-character prefix and a printed u8 split back into the prefix and that u8 |
| RemoteInput.KeyRoundTrip | src/input/input_capture.rs:170-184 | every unblocked key press or release decodes, in both host decoders, back into that key pressed or released |
| RemoteInput.MouseButtonRoundTrip | src/input/input_capture.rs:186-206 | every button press or release decodes, in both host decoders, back into that button pressed or released |
| RemoteInput.ScrollRoundTrip | src/input/input_capture.rs:208-232 | a non-zero wheel turn is dispatched on its prefix to the scroll of its direction, given distinct prefixes |
| RemoteInput.MoveTextDecodes | src/output/mouse_controller.rs:31-50 | "x y" decodes to the move (x, y) in both mouse decoders |
| RemoteInput.MoveRoundTrip | src/input/input_capture.rs:234-251 | every move other than (0, 0) goes on the mouse channel and decodes back into the same move |
| RemoteInput.EveryMessageRoundTrips | src/input/input_capture.rs:169-252 | every message the client sends is decoded on its channel into exactly the input its event stands for |
| Latency.StartLatencySender | src/webrtcommunication/latency.rs:25-77 | Ok iff the channel is created, and the channel error otherwise; with the latency check off, no send loop is registered |
| Latency.StartLatencyReceiver | src/webrtcommunication/latency.rs:80-101 | Ok iff the socket binds and the file opens; otherwise that error |
| Latency.SntpFrom | src/webrtcommunication/latency.rs:254-275 | never panics, and fails only with the SNTP or the clone error |
| Latency.GetTimeFromSntp | src/webrtcommunication/latency.rs:249-277 | the loop's result is exactly `SntpFrom` from attempt 0 |
| Latency.SntpUsesOnlyFirstAttempts | src/webrtcommunication/latency.rs:254 | at most maxRetry attempts are made, so runs that agree on those end the same way |
| Latency.SntpOutcomes | src/webrtcommunication/latency.rs:254-275 | the SNTP error exactly when every attempt was unanswered; Ok exactly when an answer follows only unanswered attempts, and that answer is the result |
| Latency.GetTime | src/webrtcommunication/latency.rs:195-237 | a reading fits in u32, and an SNTP error is passed on |
| Latency.GetTimeOfAnswer | src/webrtcommunication/latency.rs:198-236 | seconds below 10 panic on the slice; last two digits 00 give 0; otherwise the digits × 1000 plus the fraction less the roundtrip in ms, panicking on underflow; never an Err |
| Latency.GetTimeWithinWindow | src/webrtcommunication/latency.rs:217-236 | with a fraction below one second, a reading is below 100000 ms |
| Latency.OnMessage | src/webrtcommunication/latency.rs:105-148 | panics only when getting the time does; a latency is kept only for a u32 message not later than the local time, and is then their difference |
| Latency.SenderTimeRoundTrip | src/webrtcommunication/latency.rs:122-142 | a printed reading is parsed back, and the latency is now - sent exactly when it is not negative |
| Latency.LatencyLine | src/webrtcommunication/latency.rs:160 | the log line ends in a newline |
| Latency.NumberHasNoDelimiter | src/webrtcommunication/latency.rs:160 | a printed latency holds neither ',' nor '\n' |
| Latency.LatencyLineIsOneRecord | src/webrtcommunication/latency.rs:160 | a line is exactly one record: its text before the newline, then nothing |
| Latency.LatencyRecordFields | src/webrtcommunication/latency.rs:160 | the record reads back as the timestamp and the latency |
| Latency.LatencyLog.constructor | src/webrtcommunication/latency.rs:91-100 | the log starts empty |
| Latency.LatencyLog.WriteInFile | src/webrtcommunication/latency.rs:155-165 | always Ok; the line is appended exactly when the write succeeds |
| Latency.LatencyLog.HandleMessage | src/webrtcommunication/latency.rs:105-148 | panics exactly when `OnMessage` does; the log gains the line of the latency only when one is kept and written |
| SenderUtils.InitializeGame | src/services/sender_utils.rs:60-72 | Ok iff the path ends in ".exe" and the spawn succeeds; otherwise the file-type error, or the spawn error for an ".exe" |
| SenderUtils.ShortcutsAreRejected | src/services/sender_utils.rs:61-71 | ".lnk" and ".url" paths are rejected; an ".exe" path starts iff the spawn succeeds |
| SenderUtils.CollapseBackslashPairs | src/services/sender_utils.rs:76 | the normalised path is never longer |
| SenderUtils.CollapseOfEscaped | src/services/sender_utils.rs:76 | normalising a path with every backslash doubled gives the path back |
| SenderUtils.CollapseKeepsSinglePaths | src/services/sender_utils.rs:76 | a path without two backslashes in a row is unchanged |
| SenderUtils.Candidates | src/services/sender_utils.rs:124-140 | never more candidates than processes |
| SenderUtils.CandidatesAreProcessesWithPath | src/services/sender_utils.rs:129-135 | a candidate is exactly a process with a Unicode executable path |
| SenderUtils.GetProcessesInfo | src/services/sender_utils.rs:124-140 | returns Ok with exactly the candidates, in table order |
| SenderUtils.FindProcess | src/services/sender_utils.rs:81-85 | a found process is in the list and has the path |
| SenderUtils.FindProcessIsFirstMatch | src/services/sender_utils.rs:81-85 | nothing is found exactly when no process has the path, and otherwise the first one that has it |
| SenderUtils.SearchProcesses | src/services/sender_utils.rs:81-86 | the inner loop finds exactly `FindProcess` |
| SenderUtils.FirstVisibleWindow | src/services/sender_utils.rs:156-164 | a found window is a visible window of the process |
| SenderUtils.FirstVisibleWindowIsFirstMatch | src/services/sender_utils.rs:156-164 | nothing is found exactly when the process owns no visible window, and otherwise the first such window |
| SenderUtils.EnumData.constructor | src/services/sender_utils.rs:177-180 | the target pid is stored and no window is recorded yet |
| SenderUtils.EnumData.EnumWindowsProc | src/services/sender_utils.rs:152-165 | stops exactly at a visible window of the target, which it records; any other window leaves the record and continues |
| SenderUtils.GetHwndByPid | src/services/sender_utils.rs:176-188 | the window found is exactly the first visible window of the process |
| SenderUtils.FirstOfRetriesNone | src/services/sender_utils.rs:79-110 | a retry loop finds nothing exactly when all of its first 8 attempts found nothing |
| SenderUtils.FirstOfRetriesFound | src/services/sender_utils.rs:79-110 | what a retry loop finds is what one of its first 8 attempts found, after attempts that found nothing |
| SenderUtils.FirstOfRetriesAgree | src/services/sender_utils.rs:79-110 | a retry loop looks at no more than 8 attempts |
| SenderUtils.FindProcessRetrying | src/services/sender_utils.rs:79-93 | the first loop finds exactly the first process found over 8 retries |
| SenderUtils.FindWindowRetrying | src/services/sender_utils.rs:102-110 | the second loop finds exactly the first window found over 8 retries |
| SenderUtils.GetHandler | src/services/sender_utils.rs:74-116 | the result is exactly `Handler`: the pid error, the hwnd error, or the window and the pid |
| SenderUtils.HandlerFailsWithoutProcess | src/services/sender_utils.rs:95-101 | the PID error exactly when no retry lists a process with the normalised path |
| SenderUtils.HandlerFindsWindowOfProcess | src/services/sender_utils.rs:102-115 | on success the pid is that of a listed process with the normalised path, and the handle is a visible window of that pid |
| SenderUtils.HandlerUsesOnlyFirstRetries | src/services/sender_utils.rs:79-110 | only the first 8 process tables and window lists matter |

## Left out

- Opening the websocket (`ws_protocol`) and `close_connection` are not modelled, because both are pure I/O on the socket. The sends and receives are modelled by a connection holding the texts sent and the frames to come, and whether a send succeeds is an input.
- The legacy signalling client's I/O methods are not modelled separately. They have the same shape as the current client's methods, so only the legacy builders and parsers are modelled.
- The front end's own TCP socket is left out. The reader's read error and the UTF-8 conversion `expect` are left out too: the stream is a string.
- The hand-over of a `Client` through the mpsc channel is left out, and so are `waiting_to_start` and `waiting_to_disconnect`. Both are channel and barrier waits.
- UTF-8 validation of received data (`String::from_utf8`) is left out, because every received message is a string in the model.
- The f32 scroll delta is left out. The model keeps its printed text, and whether it is zero, as an input. The host's `parse::<f32>` and its scroll call are an injected input carrying that text.
- The values of SCROLL_HORIZONTAL_ACTION and SCROLL_VERTICAL_ACTION are not in the source, so they are a parameter. The round trip for scrolls assumes they are distinct single characters.
- The channel labels are not modelled, because they only route data channels.
- What `SendInput`, winput and the other Windows calls do to the machine is not modelled. The decoders return the input they would inject.
- Shutdown coordination between tasks is left out: the semaphores, counters and permits of src/utils/shutdown.rs are shared with other tasks. The answer of `check_for_error` on each turn of the capture loop is therefore an input, and the model only records whether the loop itself called `notify_error`. It does not capture how that call changes the answer of a later check.
- `InputCapture::new`/`start` and the message-loop thread are left out; they are thread and window-class set-up.
- ErrorTracking.ErrorTracker.IncrementWithError: requires that the iteration counter is below 2^32 - 1 rather than modelling the u32 overflow. The overflow would panic in a debug build and wrap in a release build.
- ErrorTracking.ErrorTracker.Increment: requires that the iteration counter is below 2^32 - 1, for the same reason.
- Latency.GetTime: models a checked build, where the u32 sum and difference of src/webrtcommunication/latency.rs:233-236 panic on overflow and underflow. A release build wraps instead, so a roundtrip longer than the reading gives a huge value, which the receiver's `checked_sub` then compares. That wrapped value is not modelled.
- The SNTP request is an input of each retry attempt, and so is the socket clone. MAX_SNTP_RETRY is a parameter, and `sntpc::fraction_to_milliseconds` is an input.
- The sleep between retries is left out.
- The send loop that runs only under LATENCY_CHECK is not modelled, because the flag is off. The receiver's `on_close` and its logging are left out too.
- The clock used in the latency log's timestamp is an input.
- The iteration order of the process table is an input sequence, because it is a hash map.
- Retrieving the window title with `GetWindowTextW` is left out, because its result is only printed.
- Printing and logging are left out everywhere.
- Overflow of the i32 casts on process ids and window handles is not modelled; they are naturals.
