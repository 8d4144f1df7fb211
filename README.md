# Telehealth call, scheduling and report core in Dafny

This project models the core of a telehealth web application, where a doctor
and a patient meet in a browser video call for a scheduled appointment. The
modelled parts are:

- **The call-negotiation hook** (`src/hooks/use-webrtc-call.ts`), modelled as
  the class `WebRtcCall.CallSession`. Its fields are the hook's refs and state:
  - the one peer connection, with its signaling state (RFC 8829, section 3.2),
    connection state and descriptions;
  - the buffer of remote ICE candidates that arrive before a remote
    description;
  - the remote stream assembled from `ontrack` events and receiver sweeps;
  - the call flags and error shown to the user, and the running timers;
  - the messages broadcast on the appointment's signaling channel.

  Each browser call the hook makes on a connection (`setRemoteDescription`,
  `addIceCandidate`, `close`) is appended to a log. That log is how the
  contracts say, for example, that buffered candidates are handed to the
  connection exactly once and in arrival order. The pure pieces of the hook
  are in `WebRtcHelpers`:
  - the quality bands of `checkConnectionQuality`;
  - the private-network host test;
  - the media-error translation of `getUserMediaWithFallback`.

  The browser's own rules (signaling transitions, closing a connection,
  enabling tracks) are in `Rtc`.
- **The earlier call component** (`src/components/dashboard/VideoChat.tsx`),
  modelled as the class `VideoChat.ChatSession`. It tags each message with the
  sender's id and drops its own echoes.
- **The India Standard Time helpers** (`src/lib/istTimezone.ts`), in
  `IstTimezone`. The host's clock and its time-zone offset are parameters.
  They are built on the ECMA-262 date algorithms (`EcmaDate`: day number,
  year and month from a day, `getHours`/`getMinutes`, `toISOString`).
  `IstCorrected` holds the intended behaviour, and `IstDoubleOffset` proves
  how the code as written departs from it (see "## Findings").
- **The prescription rendering** (`src/lib/generatePrescriptionPDF.ts`), in
  `Prescription`. This covers the compact text encoded in the QR code and the
  content of the printable page: table rows, doctor defaults and optional
  sections. The temperature unit in the source file is "°F" with its bytes
  garbled into "¬∞F" (U+00AC U+221E F), and the page shows it that way; the
  model keeps the garbled text.
- **The blood-report upload form**
  (`src/components/dashboard/BloodReportAnalysis.tsx`), modelled as the class
  `BloodReport.ReportForm`. It covers the size and type checks and the
  submission life cycle. The pure function that cleans the analysis
  service's output (code fences, escaped newlines) is also here.
- **The AI health-assistant chat**
  (`src/components/dashboard/AIHealthAssistant.tsx`), modelled as the class
  `HealthAssistant.ChatPanel`. It covers loading the history, sending with an
  optimistic append and its rollback, and the classification of errors into
  user messages. The template fallback of `generateUUID` is here too.

`Text` models the JavaScript string operations these files rely on:
- `startsWith`, `includes` and `replace` with a global pattern;
- `trim`, `split` and `join`;
- decimal and hexadecimal digits.

`Wrappers` holds the `Option` type.

Awaited browser and network results are parameters of the methods, not
computations inside them. These include media access, description
negotiation, channel sends, `fetch`, `JSON.parse` and database reads. A
method therefore states the new state for every outcome the browser can
report.

The protocol this subsystem is meant to follow differs from the code in a
few places, and the model follows the code:
- In the hook, a remote `call-end` runs the local `endCall`, which broadcasts
  `call-end` again while the channel is ready.
- The hook's signaling messages carry no sender id, so the hook has no
  self-echo filter. `VideoChat` does have one.
- There is no tie-break for simultaneous offers. An offer that arrives while
  a local offer is outstanding is applied as the browser allows: the browser
  rolls the local offer back (the implicit rollback of the W3C WebRTC 1.0
  recommendation) and the side becomes the answerer. When both sides start
  at once, both end up answering (`WebRtcCall.CrossingOfferRollsBack`).
- `startCall` awaits the channel-ready promise before it checks the channel.
  A call started before the channel subscribes waits with no error
  (`WebRtcCall.StartBeforeSubscribedWaits`). The channel effect depends on
  `endCall`, which changes whenever `localStream` does. So publishing or
  dropping the camera stream tears the channel down and subscribes a new one
  with a new, unresolved promise (`WebRtcCall.CallSession.ChannelReset`). A
  call started after that waits again until the new channel subscribes
  (`WebRtcCall.ResetMakesStartWaitAgain`). A call that was still waiting on
  the old promise is never resumed, because its resolver has been replaced.
- `startCall` and `answerCall` publish their stream before they send the
  offer or answer, so the channel may be torn down in between. Each checks
  the channel again, waits 500 ms if it is missing, and then fails with
  "Signaling channel not ready". Each one's second check ("Signaling channel
  disconnected") reads the same reference with no await in between and
  cannot fail.
- The embedded chat widget of `AIHealthAssistant` is created only when its
  container element is mounted. That element is rendered only while the
  widget is in use, so the widget is never switched on
  (`HealthAssistant.ChatPanel.InitEmbeddedChat`).
- The hook clears the candidate buffer before it applies a remote offer
  (`src/hooks/use-webrtc-call.ts:1074`). A candidate that arrived before the
  offer is therefore never handed to the connection
  (`WebRtcCall.EarlyCandidateIsDropped`).
- `startCall` arms the answer timeout and then clears `isCalling` (line 665).
  The timeout's own guard then never fires (`WebRtcCall.TimeoutAfterStartIsInert`).

## Model

| member | source | states |
|---|---|---|
| Rtc.AfterLocal | src/hooks/use-webrtc-call.ts:598-603 | a local offer is accepted exactly in stable or have-local-offer, a local answer exactly in have-remote-offer or have-local-pranswer, never on a closed connection |
| Rtc.AfterRemote | src/hooks/use-webrtc-call.ts:1078-1086 | a remote offer is accepted exactly in stable, have-remote-offer or (after rolling the local offer back) have-local-offer, and leads to have-remote-offer; a remote answer is accepted exactly in have-local-offer or have-remote-pranswer |
| Rtc.OfferAnswerReturnsToStable | src/hooks/use-webrtc-call.ts:1121-1133 | offer then answer takes both sides from stable back to stable, through have-local-offer and have-remote-offer |
| Rtc.NewPeer | src/hooks/use-webrtc-call.ts:253 | a fresh connection is stable, new, without descriptions; `WebRtcCall.Held` and `VideoChat.ChatSession.CreatePeerConnection` are proved to create exactly this |
| Rtc.EnableAll | src/hooks/use-webrtc-call.ts:335-340 | every track of the stream is enabled, in order, and nothing else changes |
| Rtc.EnableAllKeepsIds | src/hooks/use-webrtc-call.ts:335-340 | enabling tracks keeps the set of track ids and their distinctness |
| Rtc.AddIceAll | src/hooks/use-webrtc-call.ts:1087-1097 | draining hands each buffered candidate to the connection, one call per candidate, in order |
| Rtc.AddIceAllAppend | src/hooks/use-webrtc-call.ts:1136-1146 | draining two buffers in turn is the same as draining their concatenation |
| Rtc.AddIceAllExactlyOnce | src/hooks/use-webrtc-call.ts:1136-1146 | each candidate is handed over exactly as many times as it was buffered |
| WebRtcHelpers.QualityOf | src/hooks/use-webrtc-call.ts:210-222 | a measured round trip always yields a known quality |
| WebRtcHelpers.QualityBands | src/hooks/use-webrtc-call.ts:210-222 | excellent below 100 ms, good below 200 ms, fair below 400 ms, poor from 400 ms, each band an if-and-only-if |
| WebRtcHelpers.QualityMonotone | src/hooks/use-webrtc-call.ts:210-222 | a longer round trip never rates better |
| WebRtcHelpers.LastRttIsLastMeasured | src/hooks/use-webrtc-call.ts:212-222 | the round trip used is that of the last succeeded candidate pair with a non-zero measurement, and exists iff some pair measures |
| WebRtcHelpers.LastRtt | src/hooks/use-webrtc-call.ts:212-222 | the round trip the loop keeps: that of the last succeeded pair that measured one, or none; LastRttIsLastMeasured and ReportLastWins state it |
| WebRtcHelpers.ReportWithoutMeasurementIsGood | src/hooks/use-webrtc-call.ts:210-224 | a report without a measured succeeded pair rates good |
| WebRtcHelpers.ReportLastWins | src/hooks/use-webrtc-call.ts:212-222 | a later measuring pair overrides earlier ones, a non-measuring one changes nothing |
| WebRtcHelpers.ClassifyReport | src/hooks/use-webrtc-call.ts:209-225 | the loop over the stats report yields the report's quality |
| WebRtcHelpers.ReportQuality | src/hooks/use-webrtc-call.ts:209-225 | the quality of a stats report: that of its last measured round trip, else good; `LastRttIsLastMeasured`, `ReportWithoutMeasurementIsGood`, `ReportLastWins` and `ClassifyReport` state this |
| WebRtcHelpers.LocalNetworkHostIsPrivateBlock | src/hooks/use-webrtc-call.ts:68 | the host pattern matches exactly the hosts in 10/8, 192.168/16 and 172.16/12 written with a dotted prefix |
| WebRtcHelpers.IsLocalNetworkHost | src/hooks/use-webrtc-call.ts:68 | the private-network host test; `LocalNetworkHostIsPrivateBlock` proves which hosts it matches |
| WebRtcHelpers.ModernApiFailure | src/hooks/use-webrtc-call.ts:106-122 | a refusal is replaced by the HTTPS hint iff it is a permission, security or "secure" failure on a private-network host, not over https and not localhost |
| WebRtcHelpers.MediaFailureRules | src/hooks/use-webrtc-call.ts:527-564 | which user message each media error yields, each case an if-and-only-if in the code's order, and the detail of the generic message |
| WebRtcHelpers.MediaFailureMessage | src/hooks/use-webrtc-call.ts:527-564 | the user message for a media error; `MediaFailureRules` states each case, in the code's order |
| WebRtcHelpers.MediaMessageText | src/hooks/use-webrtc-call.ts:527-564 | the text thrown for each media message; MediaFailureRules states which message each failure gets |
| WebRtcHelpers.RefusalOnPrivateHttpHost | src/hooks/use-webrtc-call.ts:106-122 | a permission refusal on a LAN address over http is reported as the HTTPS hint, not as any named cause |
| WebRtcCall.StopCallTimers | src/hooks/use-webrtc-call.ts:189-199 | the duration, quality and started timers stop, the answer timeout and receiver sweeps are untouched; `EndCall` and `OnConnectionState` are proved to leave the timers in this state |
| WebRtcCall.Held | src/hooks/use-webrtc-call.ts:234-253 | a connection that is not closed is reused, otherwise a new one is created; `GetOrCreatePeerConnection` is proved to end up holding this connection and to log the close of the one it replaces |
| WebRtcCall.MergeTrack | src/hooks/use-webrtc-call.ts:346-361 | the new track is appended enabled, and every track of the result is enabled |
| WebRtcCall.MergeTrackIds | src/hooks/use-webrtc-call.ts:316-361 | a new track adds exactly its id and keeps ids distinct |
| WebRtcCall.UpdatedTracksSpec | src/hooks/use-webrtc-call.ts:283-366 | an event is ignored iff it has no stream and repeats a known track; otherwise every track ends enabled; a track that came alone is present afterwards and ids stay distinct, and a track that came with a stream brings exactly that stream's ids |
| WebRtcCall.UpdatedTracks | src/hooks/use-webrtc-call.ts:283-366 | the `ontrack` update of the remote track list; `UpdatedTracksSpec` states when it changes nothing and which ids it holds |
| WebRtcCall.SweepCoversReceivers | src/hooks/use-webrtc-call.ts:378-413 | after a sweep every receiver's track is in the remote stream, no known track is lost and ids stay distinct |
| WebRtcCall.SweepTracks | src/hooks/use-webrtc-call.ts:378-413 | the remote track list after one receiver sweep; `SweepCoversReceivers` proves every receiver's track is in it and no known track is lost |
| WebRtcCall.SweepStep | src/hooks/use-webrtc-call.ts:378-413 | one receiver of the sweep: a missing track is added, and with no remote stream the track starts one; SweepCoversReceivers and CallSession.SweepReceiver state it |
| WebRtcCall.WithRemoteOffer | src/hooks/use-webrtc-call.ts:1078-1086 | a connection that accepted a remote offer holds it and waits to answer; a local offer it held is discarded; `AcceptOffer` is proved to reach it when the browser and `Rtc.AfterRemote` accept the offer, and `CrossingOfferRollsBack` shows the rollback |
| WebRtcCall.CallSession.constructor | src/hooks/use-webrtc-call.ts:30-60 | no connection, empty buffer, channel not ready and its promise pending, idle state, no timers |
| WebRtcCall.CallSession.GetOrCreatePeerConnection | src/hooks/use-webrtc-call.ts:232-484 | the connection is kept iff it is not closed, otherwise the old one is closed and a new one created; afterwards the held connection is the only one without a `close()` call in the log, and every other connection the hook created has one |
| WebRtcCall.CallSession.DrainPending | src/hooks/use-webrtc-call.ts:1087-1097 | every buffered candidate is handed to the connection in order and the buffer ends empty |
| WebRtcCall.CallSession.OnOffer | src/hooks/use-webrtc-call.ts:1060-1105 | an offer is ignored while a negotiated connection exists; otherwise the buffer is cleared, the offer applied as the browser allows (rolling back a local offer), the candidates that arrived meanwhile drained, and the call marked as answering, or the offer error shown |
| WebRtcCall.CallSession.AcceptOffer | src/hooks/use-webrtc-call.ts:1074-1104 | the offer is applied to the held connection, replacing a local offer of its own; on success the arrivals are drained and the buffer is empty, on failure they stay buffered and the error is shown |
| WebRtcCall.CallSession.OnAnswer | src/hooks/use-webrtc-call.ts:1107-1152 | an answer is ignored unless a local offer is outstanding; when applied the connection is stable and every buffered candidate is handed over once; when refused the error is shown |
| WebRtcCall.CallSession.OnCandidate | src/hooks/use-webrtc-call.ts:1154-1202 | a usable candidate is applied iff a remote description is set, otherwise buffered; one that fails with a "remote" error is buffered again |
| WebRtcCall.ToCandidate | src/hooks/use-webrtc-call.ts:1154-1202 | the ICE candidate built from a payload's candidate, line index and mid; CallSession.OnCandidate states whether it is applied, buffered or dropped |
| WebRtcCall.CallSession.OnCallEnd | src/hooks/use-webrtc-call.ts:1204-1207 | a remote end releases the connection and resets the call, and sends call-end again when the channel is ready |
| WebRtcCall.CallSession.OnChannelStatus | src/hooks/use-webrtc-call.ts:1214-1235 | subscribed makes the channel ready and resolves the promise the channel effect created last (earlier promises stay as they were), a channel error shows the channel failure, closed makes it not ready, other statuses change nothing |
| WebRtcCall.CallSession.EndCall | src/hooks/use-webrtc-call.ts:969-1023 | the connection is closed and dropped, the buffer cleared, the state idle, timers stopped, and call-end sent when the channel is ready |
| WebRtcCall.CallSession.ApplyLocal | src/hooks/use-webrtc-call.ts:598-603 | a local description is applied iff negotiation succeeded and the signaling state allows it |
| WebRtcCall.CallSession.ReleaseConnection | src/hooks/use-webrtc-call.ts:986-995 | the held connection is closed and forgotten together with the buffer and the remote stream |
| WebRtcCall.CallSession.ChannelReset | src/hooks/use-webrtc-call.ts:1050-1242 | when `localStream` has changed since the channel effect last ran, the channel is no longer ready and a new promise, not yet resolved, is the one later calls wait on |
| WebRtcCall.CallSession.StartCall | src/hooks/use-webrtc-call.ts:492-500 | a started call is marked as calling with no error and waits on the promise the channel effect created last; nothing else changes |
| WebRtcCall.CallSession.ResumeStartCall | src/hooks/use-webrtc-call.ts:498-677 | once the awaited promise has resolved: without a channel the error is "not ready"; otherwise the buffer is cleared, a connection held, and either the offer is sent with the answer timeout armed or the first failure in the code's order (media, negotiation, channel at the re-check, send) is shown; isCalling ends false either way and the call stops waiting |
| WebRtcCall.CallSession.OfferOnChannel | src/hooks/use-webrtc-call.ts:507-663 | the failure reported is the first of media refusal, negotiation refusal, a channel missing at the re-check and send failure; the offer is sent iff there is none; isCalling ends false and the failure, if any, is shown |
| WebRtcCall.CallSession.PlaceOffer | src/hooks/use-webrtc-call.ts:515-663 | the local offer is set iff media was granted and the browser accepted it; a channel missing at the re-check fails with "not ready" before the send; the offer goes out and the timer is armed iff nothing failed |
| WebRtcCall.StartFailure | src/hooks/use-webrtc-call.ts:498-663 | the order in which `startCall` fails: channel, media, negotiation, the channel re-check, the send; ResumeStartCall, OfferOnChannel and PlaceOffer report exactly this failure |
| WebRtcCall.CallSession.AnswerCall | src/hooks/use-webrtc-call.ts:680-840 | without a remote offer the error is "no offer"; otherwise the local answer is set and sent, or the first failure in the code's order (media, negotiation, channel at the re-check, send) is shown; answering ends either way |
| WebRtcCall.CallSession.PlaceAnswer | src/hooks/use-webrtc-call.ts:743-826 | the answer is set iff media was granted and the browser accepted it, and sent iff additionally the channel is there at the re-check before the send and the send succeeded; a missing channel fails with "not ready" |
| WebRtcCall.AnswerFailure | src/hooks/use-webrtc-call.ts:680-826 | the order in which `answerCall` fails: no offer, media, negotiation, the channel re-check, the send; AnswerCall and PlaceAnswer report exactly this failure |
| WebRtcCall.ReasonText | src/hooks/use-webrtc-call.ts:504-822 | the message thrown for each failure reason; ErrorTextNamesStep states that the stored error carries it unchanged |
| WebRtcCall.ErrorText | src/hooks/use-webrtc-call.ts:448-1228 | the error text the hook stores for each failure; ErrorTextNamesStep states what it tells |
| WebRtcCall.ErrorTextNamesStep | src/hooks/use-webrtc-call.ts:669-673 | the stored error starts with "Failed to start call: " exactly for a failed start and with "Failed to answer call: " exactly for a failed answer (as at :832-836), and after that prefix it is the thrown message |
| WebRtcCall.CallSession.OnLocalCandidate | src/hooks/use-webrtc-call.ts:255-281 | a local candidate is broadcast when the channel is ready, otherwise queued |
| WebRtcCall.CallSession.OnConnectionState | src/hooks/use-webrtc-call.ts:368-455 | connected activates the call and starts the timers and sweeps; connecting resets the quality; disconnected, failed and closed stop the timers, failed also shows the connection error |
| WebRtcCall.CallSession.OnRemoteTrack | src/hooks/use-webrtc-call.ts:283-366 | the remote stream becomes the event's stream, or the existing stream with the new track merged, and a repeated track changes nothing |
| WebRtcCall.CallSession.ReceiverSweep | src/hooks/use-webrtc-call.ts:378-413 | one sweep's remote tracks are those of the sweep function, and only the stream changes |
| WebRtcCall.CallSession.SweepReceiver | src/hooks/use-webrtc-call.ts:378-413 | one receiver's track is added unless already known |
| WebRtcCall.CallSession.AnswerTimeoutFired | src/hooks/use-webrtc-call.ts:650-663 | the timeout shows "not answered" iff a call is still being placed and not active |
| WebRtcCall.CallSession.CheckConnectionQuality | src/hooks/use-webrtc-call.ts:202-229 | quality is updated from the report only while connected |
| WebRtcCall.EarlyCandidateIsDropped | src/hooks/use-webrtc-call.ts:1074 | a candidate buffered before the offer is dropped: the only call the offer makes on the connection is the one applying it, and the buffer ends empty |
| WebRtcCall.TimeoutAfterStartIsInert | src/hooks/use-webrtc-call.ts:646-665 | after a started call, the answer timeout reports nothing |
| WebRtcCall.StartBeforeSubscribedWaits | src/hooks/use-webrtc-call.ts:492-500 | a call started before the channel subscribes has no error and sends nothing, and sends its offer once the channel subscribes |
| WebRtcCall.ResetMakesStartWaitAgain | src/hooks/use-webrtc-call.ts:1050-1057 | after a placed call publishes its stream and the channel is torn down, a new call waits on the new promise with no error and nothing sent, until the new channel subscribes |
| WebRtcCall.CrossingOfferRollsBack | src/hooks/use-webrtc-call.ts:1060-1105 | an offer arriving after this side's own offer replaces it, and the side is ready to answer |
| VideoChat.StartFailureText | src/components/dashboard/VideoChat.tsx:102-105 | the shown failure text is never empty and is the thrown message when there is one |
| VideoChat.ChatSession.constructor | src/components/dashboard/VideoChat.tsx:19-26 | no connection, no channel, all flags false |
| VideoChat.ChatSession.CreatePeerConnection | src/components/dashboard/VideoChat.tsx:36-65 | a new connection is created every time and joins the open ones |
| VideoChat.ChatSession.OnOffer | src/components/dashboard/VideoChat.tsx:172-183 | an own echo changes nothing; otherwise a fresh connection is created without closing the old one and the offer applied |
| VideoChat.ChatSession.OnAnswer | src/components/dashboard/VideoChat.tsx:184-189 | an own echo or a missing connection changes nothing; otherwise the answer is applied as the browser allows |
| VideoChat.ChatSession.OnCandidate | src/components/dashboard/VideoChat.tsx:190-193 | a foreign candidate is handed to the current connection, an echo is dropped |
| VideoChat.ChatSession.OnChannelStatus | src/components/dashboard/VideoChat.tsx:195-201 | only "SUBSCRIBED" sets the channel |
| VideoChat.ChatSession.OnLocalCandidate | src/components/dashboard/VideoChat.tsx:41-49 | a local candidate is broadcast with the sender's id when there is a channel |
| VideoChat.ChatSession.OnTrack | src/components/dashboard/VideoChat.tsx:51-53 | the remote stream becomes the event's first stream |
| VideoChat.ChatSession.OnConnectionState | src/components/dashboard/VideoChat.tsx:55-62 | on a connection that is still open, connected activates the call; failed or disconnected end it as endCall does |
| VideoChat.ChatSession.StartCall | src/components/dashboard/VideoChat.tsx:69-75 | a started call is marked as calling and waits until the channel is ready |
| VideoChat.ChatSession.Dial | src/components/dashboard/VideoChat.tsx:73-106 | once the channel is ready a new connection is made, and either the offer is sent or the media or negotiation failure is reported and isCalling cleared |
| VideoChat.ChatSession.AnswerCall | src/components/dashboard/VideoChat.tsx:110-136 | without a connection it fails; otherwise the answer is set and sent, or the failure reported |
| VideoChat.ChatSession.EndCall | src/components/dashboard/VideoChat.tsx:140-160 | the connection is closed, state reset and call-end sent when there is a channel |
| VideoChat.EndCallTwice | src/components/dashboard/VideoChat.tsx:140-160 | ending twice leaves the same reset state but sends call-end twice |
| VideoChat.OfferDuringCallLeaksConnection | src/components/dashboard/VideoChat.tsx:172-183 | an echo is ignored, and a foreign offer during a call leaves two connections open |
| VideoChat.StaleFailureEndsCall | src/components/dashboard/VideoChat.tsx:55-62 | a failure reported by a replaced connection ends the current call |
| EcmaDate.TimeClip | src/lib/istTimezone.ts:11-14 | a time value is kept iff it is within the ECMA-262 range, else it is invalid; `IstTimezone.Shifted` is proved invalid only out of that range |
| EcmaDate.CivilFromDayMakesDay | src/lib/istTimezone.ts:77-80 | the calendar date of a day number maps back to that day |
| EcmaDate.MakeDayRoundTrip | src/lib/istTimezone.ts:77-80 | every valid calendar date is the date of its own day number |
| EcmaDate.MinuteOfDayCountsMinutes | src/lib/istTimezone.ts:97-99 | getHours and getMinutes read the minute of the day of the time value |
| EcmaDate.DateTextHasNoT | src/lib/istTimezone.ts:79 | the date part of an ISO string contains no "T" |
| EcmaDate.DayTextInjective | src/lib/istTimezone.ts:85-87 | different days give different date strings |
| EcmaDate.IsoDatePart | src/lib/istTimezone.ts:79 | the text before "T" in toISOString is the date of the time value's day |
| EcmaDate.IsoString | src/lib/istTimezone.ts:13 | `toISOString`: a string iff the date is valid; `IsoDatePart` and `DateTextHasNoT` state its date part |
| IstTimezone.Shifted | src/lib/istTimezone.ts:11-14 | the shifted time is the input plus 5 h 30 min minus the host offset, and is invalid only out of range |
| IstTimezone.ToIST | src/lib/istTimezone.ts:11-14 | the IST date is valid exactly when the shifted time is |
| IstTimezone.CurrentISTTime | src/lib/istTimezone.ts:19-22 | the current time shifted by 5 h 30 min less the host offset; `Shifted` states the shift, and `AppointmentStaysPassed`, `AppointmentStaysPassedAcrossOffsets` and `IstDoubleOffset.AsWrittenClockCountsOffsetTwice` what it means for a caller |
| IstTimezone.HasAppointmentPassed | src/lib/istTimezone.ts:68-72 | passed iff the appointment time is before the shifted current time; `AppointmentStaysPassed`, `AppointmentStaysPassedAcrossOffsets`, `ClocksGoingBackUnpass` and `AppointmentPassedOnUtcHost` state what that means over time and on a UTC host |
| IstTimezone.AppointmentStaysPassed | src/lib/istTimezone.ts:68-72 | once passed, an appointment stays passed as the clock advances |
| IstTimezone.AppointmentPassedOnUtcHost | src/lib/istTimezone.ts:68-72 | on a UTC host an appointment counts as passed from 5 h 30 min before its start time |
| IstTimezone.AppointmentStaysPassedAcrossOffsets | src/lib/istTimezone.ts:19-22 | with the host offset read at each call, a passed appointment stays passed while the host's local clock does not go back |
| IstTimezone.ClocksGoingBackUnpass | src/lib/istTimezone.ts:19-22 | when the host's clocks go back an hour, an appointment passed half an hour before counts as not passed |
| IstTimezone.GetTodayIST | src/lib/istTimezone.ts:77-80 | today's date exists iff the shifted current time is valid |
| IstTimezone.GetTodayISTSplitsIsoString | src/lib/istTimezone.ts:77-80 | today's date is the text before "T" of the shifted ISO string |
| IstTimezone.IsDateTodayIST | src/lib/istTimezone.ts:85-87 | a date is today iff it equals the computed today, and fails iff that fails; `GetTodayISTSplitsIsoString` proves the computed today is the date part of the shifted ISO string |
| IstTimezone.ToNumber | src/lib/istTimezone.ts:101-105 | Number() of a slot part is finite iff it is blank or an integer literal, never undefined |
| IstTimezone.FilterSlotsMembers | src/lib/istTimezone.ts:101-109 | a slot is kept iff it is in the input and later than the clock reading |
| IstTimezone.FilterSlotsInOrder | src/lib/istTimezone.ts:101-109 | the kept slots are a subsequence of the input |
| IstTimezone.FilterSlots | src/lib/istTimezone.ts:101-109 | the `filter` over the slots by the clock reading; `FilterSlotsMembers` and `FilterSlotsInOrder` state which slots it keeps and that their order is kept |
| IstTimezone.SlotTime | src/lib/istTimezone.ts:102 | a slot's hour and minute as `Number` reads them; KeepIffLater states what that means for an "hh:mm" slot |
| IstTimezone.Keep | src/lib/istTimezone.ts:101-109 | the `filter` callback; FilterSlotsMembers and KeepIffLater state it |
| IstTimezone.ClockReading | src/lib/istTimezone.ts:97-99 | the hour and minute the filter compares with; IstDoubleOffset.AsWrittenClockCountsOffsetTwice and AsWrittenClockRightIff state what it reads |
| IstTimezone.FilterPastTimeSlots | src/lib/istTimezone.ts:92-110 | all slots are kept for another day, and only later slots for today; `FilterSlotsMembers`, `FilterSlotsInOrder` and `KeepIffLater` prove which slots survive and that their order is kept |
| IstTimezone.DigitsToNumber | src/lib/istTimezone.ts:101-105 | a digit string converts to its decimal value |
| IstTimezone.KeepIffLater | src/lib/istTimezone.ts:101-109 | an "hh:mm" slot is kept iff its hour is later, or its hour equal and its minute later |
| IstCorrected.CorrectedTodayIsIsoDate | src/lib/istTimezone.ts:77-80 | the corrected today is the date part of the ISO string of the IST wall clock |
| IstCorrected.CorrectedFilterPastTimeSlots | src/lib/istTimezone.ts:92-110 | the corrected filter keeps everything for another day and only later slots today, by the IST clock; `CorrectedClockIsUtcPlusFiveThirty` proves that clock reads UTC plus 330 minutes |
| IstCorrected.CorrectedClockIsUtcPlusFiveThirty | src/lib/istTimezone.ts:6 | the corrected clock reads UTC plus 330 minutes, modulo a day |
| IstDoubleOffset.AsWrittenClockCountsOffsetTwice | src/lib/istTimezone.ts:19-22 | the code's clock reads the IST minute minus twice the host offset |
| IstDoubleOffset.AsWrittenClockRightIff | src/lib/istTimezone.ts:97-99 | the code's clock is right iff the host offset is a multiple of 12 hours |
| IstDoubleOffset.AsWrittenClockRightOnUtcHost | src/lib/istTimezone.ts:97-99 | on a UTC host the code's clock is right |
| IstDoubleOffset.AsWrittenDateRightOnUtcHost | src/lib/istTimezone.ts:77-80 | on a UTC host the code's today is right |
| IstDoubleOffset.AsWrittenClockOnIndianHost | src/lib/istTimezone.ts:97-99 | on an Indian host at the epoch the code reads 16:30 where IST is 05:30 |
| IstDoubleOffset.AsWrittenDateOnIndianHost | src/lib/istTimezone.ts:77-80 | on an Indian host from 18:30 IST the code's today is tomorrow |
| Prescription.MedicineLineNumbered | src/lib/generatePrescriptionPDF.ts:61-66 | the text before the first "." of a medicine line is the 1-based position |
| Prescription.MedicineLine | src/lib/generatePrescriptionPDF.ts:62-65 | one medicine's line of the QR text; MedicineLineNumbered, NotesOnlyWhenPresent and TextAndTableAgree state it |
| Prescription.MedicineLines | src/lib/generatePrescriptionPDF.ts:61-66 | one line per medicine in order; MedicinesTextLines states the text splits back into them |
| Prescription.LineNumberText | src/lib/generatePrescriptionPDF.ts:64 | a medicine line starts with its decimal position |
| Prescription.NotesOnlyWhenPresent | src/lib/generatePrescriptionPDF.ts:63-64 | notes appear in parentheses iff they are non-empty |
| Prescription.MedicinesTextLines | src/lib/generatePrescriptionPDF.ts:61-66 | splitting the medicines text at newlines gives back one line per medicine, or a single empty line when there are none |
| Prescription.TextIsJoin | src/lib/generatePrescriptionPDF.ts:68-74 | the QR text is the header, medicine and trailer lines joined by newlines, with an empty line in place of the medicines when there are none |
| Prescription.TextLines | src/lib/generatePrescriptionPDF.ts:60-75 | splitting the QR text gives the five header lines, one line per medicine (an empty line when there are none), then a blank line and the instructions when there are notes |
| Prescription.FormatPrescriptionAsText | src/lib/generatePrescriptionPDF.ts:60-75 | the text encoded in the QR code; `TextIsJoin`, `TextLines` and `MedicinesTextLines` state its lines |
| Prescription.TableRows | src/lib/generatePrescriptionPDF.ts:135-148 | one table row per medicine, numbered from 1, with its fields and "-" for missing notes |
| Prescription.RowsStriped | src/lib/generatePrescriptionPDF.ts:138 | rows alternate white and grey starting with white |
| Prescription.MedicineRow | src/lib/generatePrescriptionPDF.ts:136-146 | one medicine's table row; TableRows, RowsStriped and TextAndTableAgree state it |
| Prescription.MedicineRows | src/lib/generatePrescriptionPDF.ts:135-148 | one row per medicine in order; TableRows and RowsStriped state it |
| Prescription.DoctorDefaults | src/lib/generatePrescriptionPDF.ts:193-195 | doctor name prefixed "Dr. " or "N/A", license "N/A" and specialization "General Practice" when missing |
| Prescription.OptionalSections | src/lib/generatePrescriptionPDF.ts:210-287 | temperature, instructions and QR code appear iff given, each showing its input, the temperature followed by the source's unit text "¬∞F" |
| Prescription.TextAndTableAgree | src/lib/generatePrescriptionPDF.ts:61-66 | the QR text and the table number each medicine the same |
| Prescription.CreatePrescriptionPage | src/lib/generatePrescriptionPDF.ts:134-298 | the content of the printable page; `TableRows`, `RowsStriped`, `DoctorDefaults` and `OptionalSections` state its parts |
| BloodReport.KbHundredths | src/components/dashboard/BloodReportAnalysis.tsx:29-33 | the size in hundredths of a KB is rounded to nearest |
| BloodReport.FileChecks | src/components/dashboard/BloodReportAnalysis.tsx:20-40 | a file is accepted iff it is at most 100 KB and an image; size is checked first; exactly 102400 bytes passes |
| BloodReport.FileError | src/components/dashboard/BloodReportAnalysis.tsx:20-40 | the error a selected file gets, if any; `FileChecks` and `SizeErrorShowsKilobytes` state which files pass and what the size error shows |
| BloodReport.FixedTwoReadsBack | src/components/dashboard/BloodReportAnalysis.tsx:29-33 | a number written with two decimals reads back: the digits before "." give the whole part, the exactly two after it the hundredths |
| BloodReport.SizeErrorShowsKilobytes | src/components/dashboard/BloodReportAnalysis.tsx:29-33 | the size the error shows, read back from its digits, is within half a hundredth of a KB of size / 1024 |
| BloodReport.SizeError | src/components/dashboard/BloodReportAnalysis.tsx:29-30 | the message for a file over the limit; SizeErrorShowsKilobytes states that it shows the size in kilobytes to two decimals |
| BloodReport.ParseKeepsInputUnlessParsed | src/components/dashboard/BloodReportAnalysis.tsx:59-77 | the response is replaced only by a successful parse of a non-empty string output |
| BloodReport.ParseAnalysisResponse | src/components/dashboard/BloodReportAnalysis.tsx:59-77 | the response, replaced by the parse of its cleaned output when that succeeds; `ParseKeepsInputUnlessParsed` states when it is replaced |
| BloodReport.FencesKeptWithoutJsonTag | src/components/dashboard/BloodReportAnalysis.tsx:65-69 | without a json fence only escaped newlines are replaced |
| BloodReport.OutputText | src/components/dashboard/BloodReportAnalysis.tsx:61 | `data.output` when it is a non-empty string, the only case that is reworked; ParseKeepsInputUnlessParsed states the rest is returned as it is |
| BloodReport.RemoveJsonFences | src/components/dashboard/BloodReportAnalysis.tsx:66 | every "```json" goes, with its newline if it has one; NoFenceLeft and StrippedHasNoFence state what is left |
| BloodReport.StripFences | src/components/dashboard/BloodReportAnalysis.tsx:65-67 | the removal of the fences and the trim; StrippedHasNoFence states the result has no fence and no outer whitespace |
| BloodReport.UnescapeNewlines | src/components/dashboard/BloodReportAnalysis.tsx:69 | each backslash-n becomes a newline; NoEscapeLeft states none is left and the length drops by one per escape |
| BloodReport.NoFenceLeft | src/components/dashboard/BloodReportAnalysis.tsx:66 | no triple backtick survives the replacement |
| BloodReport.StrippedHasNoFence | src/components/dashboard/BloodReportAnalysis.tsx:65-67 | the cleaned output has no fence and no whitespace at its ends |
| BloodReport.NoEscapeLeft | src/components/dashboard/BloodReportAnalysis.tsx:69 | no escaped newline survives, and each one shortens the text by one |
| BloodReport.PrepareOutput | src/components/dashboard/BloodReportAnalysis.tsx:64-69 | the analysis output cleaned before parsing; `FencesKeptWithoutJsonTag`, `StrippedHasNoFence` and `NoEscapeLeft` state what it removes |
| BloodReport.ReportForm.constructor | src/components/dashboard/BloodReportAnalysis.tsx:13-19 | the form starts empty with no error |
| BloodReport.ReportForm.HandleFileSelect | src/components/dashboard/BloodReportAnalysis.tsx:22-50 | the error is that of the checks and the file is selected only when accepted |
| BloodReport.ReportForm.PreviewLoaded | src/components/dashboard/BloodReportAnalysis.tsx:45-49 | the preview becomes the data URL |
| BloodReport.ReportForm.HandleDeleteImage | src/components/dashboard/BloodReportAnalysis.tsx:52-57 | file, preview and error are cleared |
| BloodReport.ReportForm.HandleSubmit | src/components/dashboard/BloodReportAnalysis.tsx:79-87 | without a file only the error is set; otherwise uploading starts with error and response cleared |
| BloodReport.ReportForm.SubmitDone | src/components/dashboard/BloodReportAnalysis.tsx:113-134 | a body is parsed and shown and the file cleared; a failure shows its message; uploading ends either way |
| BloodReport.FailureMessage | src/components/dashboard/BloodReportAnalysis.tsx:127-129 | the message of what a failed submission threw; ReportForm.SubmitDone states the error shown is "Failed to submit analysis: " followed by it |
| HealthAssistant.FallbackUuidLayout | src/components/dashboard/AIHealthAssistant.tsx:29-33 | the fallback id is 36 characters with hyphens at 8, 13, 18, 23, version 4 and a variant digit 8 to b |
| HealthAssistant.GenerateUuid | src/components/dashboard/AIHealthAssistant.tsx:23-33 | the browser's UUID when there is one, else the filled template; `FallbackUuidLayout` states the fallback's layout |
| HealthAssistant.FillTemplateReadBack | src/components/dashboard/AIHealthAssistant.tsx:29-33 | each x becomes the hex digit of its draw, each y the variant digit of its draw, other characters stay |
| HealthAssistant.FillTemplate | src/components/dashboard/AIHealthAssistant.tsx:29-33 | the `x`/`y` template filled from random draws; `FillTemplateReadBack` states each character |
| HealthAssistant.MessageOrDefault | src/components/dashboard/AIHealthAssistant.tsx:197-212 | the message shown is never empty, defaulting when the error has none |
| HealthAssistant.ClassifyInOrder | src/components/dashboard/AIHealthAssistant.tsx:197-212 | each user message is chosen iff its test holds and no earlier test does |
| HealthAssistant.UnknownMessageShown | src/components/dashboard/AIHealthAssistant.tsx:197-212 | an error matching no test shows its own message |
| HealthAssistant.Classify | src/components/dashboard/AIHealthAssistant.tsx:197-212 | which case an AI call error falls into; `ClassifyInOrder` states the order of the tests |
| HealthAssistant.FailureText | src/components/dashboard/AIHealthAssistant.tsx:197-212 | the toast text for each case; `MessageOrDefault` and `UnknownMessageShown` state the text shown for an unmatched error |
| HealthAssistant.WithoutId | src/components/dashboard/AIHealthAssistant.tsx:229-235 | removing by id never lengthens the list |
| HealthAssistant.WithoutIdRemovesExactly | src/components/dashboard/AIHealthAssistant.tsx:229-235 | a message remains iff it was there and has another id |
| HealthAssistant.WithoutIdAppend | src/components/dashboard/AIHealthAssistant.tsx:229-235 | removal distributes over concatenation |
| HealthAssistant.WithoutAbsentId | src/components/dashboard/AIHealthAssistant.tsx:229-235 | removing an absent id changes nothing |
| HealthAssistant.RollbackUndoesAppend | src/components/dashboard/AIHealthAssistant.tsx:164-235 | the rollback removes exactly the optimistic message, whatever arrived around it |
| HealthAssistant.ChatPanel.constructor | src/components/dashboard/AIHealthAssistant.tsx:36-40 | empty list and input, not loading |
| HealthAssistant.ChatPanel.InitEmbeddedChat | src/components/dashboard/AIHealthAssistant.tsx:58-87 | the widget is created only when its script is loaded and its container mounted; since the container is mounted only while the embedded chat is in use, the chat never switches to it from the start |
| HealthAssistant.ChatPanel.SetInput | src/components/dashboard/AIHealthAssistant.tsx:311 | the input becomes the text |
| HealthAssistant.ChatPanel.LoadMessages | src/components/dashboard/AIHealthAssistant.tsx:96-122 | nothing happens without a user, a conversation or with the widget; rows replace the list; any error except "no rows" shows a toast |
| HealthAssistant.ChatPanel.SendMessage | src/components/dashboard/AIHealthAssistant.tsx:156-173 | nothing happens for blank input, while loading or with the widget; otherwise the trimmed text is appended, the input cleared and loading starts |
| HealthAssistant.ChatPanel.ReceiveReply | src/components/dashboard/AIHealthAssistant.tsx:176-238 | a reply is appended; an error or an empty reply removes the sent message and shows its message; loading ends |
| Text.ReplaceAllLength | src/components/dashboard/BloodReportAnalysis.tsx:65-69 | a global replace changes the length by the match count times the length difference |
| Text.TrimDropsOnlyWhitespace | src/components/dashboard/BloodReportAnalysis.tsx:67 | trim removes only whitespace and leaves none at the ends |
| Text.TrimIdempotent | src/components/dashboard/AIHealthAssistant.tsx:157 | trimming twice is trimming once |
| Text.NatToStringRoundTrip | src/lib/generatePrescriptionPDF.ts:64 | a number's decimal text reads back as the number |
| Text.HexDigitRoundTrip | src/components/dashboard/AIHealthAssistant.tsx:31-32 | toString(16) of a value below 16 reads back as the value |
| Text.SplitJoin | src/lib/generatePrescriptionPDF.ts:61-66 | splitting a join of separator-free parts gives back the parts |
| Text.JoinSplit | src/lib/istTimezone.ts:79 | joining the split pieces gives back the string |

## Left out

- Media capture, track stopping, camera switching and listing, audio and video toggles: browser devices, not modelled.
- The legacy `getUserMedia` fallback chain in `getUserMediaWithFallback`: only the modern path's error handling is modelled.
- The signaling channel itself: it is an outbox of sent messages, and subscription results arrive as status strings.
- Timers: they are flags and a sweep counter. Timer callbacks are methods the environment calls, and the call-duration counter is not modelled.
- Interleavings: concurrent event handlers run one at a time, with awaited results as parameters.
- WebRtcCall.CallSession.ChannelReset: the environment calls it after `localStream` changes. The effect's other dependencies (`appointmentId`, `initializePeerConnection`) are not modelled. Neither is a late `CLOSED` status from a removed channel, which would clear the new channel's reference.
- WebRtcCall.CallSession.ResumeStartCall: it runs as one step, so a channel teardown during its awaits is seen only through the `channelAtSend` outcome of the re-check before the send.
- WebRtcCall.CallSession.AnswerCall: it runs as one step in the same way; a channel teardown during its awaits is seen only through `channelAtSend`.
- Peer-connection creation failure in the hook: not modelled, because the connection constructor is a browser call.
- Transceiver direction fixing and `replaceTrack`/`addTrack` during answering: these are browser calls whose outcomes are parameters.
- WebRtcHelpers.QualityOf: the round-trip time is in whole milliseconds, not the browser's floating seconds.
- Toasts and console logging in all components: not modelled, except where a method returns the toast text.
- `formatDateAsIST` and `formatAppointmentDateIST`: they are locale formatting, so the formatted date and time are parameters of the prescription page.
- IstTimezone.AppointmentStaysPassed: the host offset is the same at both instants. A daylight-saving change between them is covered by `AppointmentStaysPassedAcrossOffsets` and `ClocksGoingBackUnpass`; how the offset depends on the date is not modelled, and each call takes it as a parameter.
- IstTimezone.ToNumber: only integer literals and blank text are modelled as finite; decimal, exponent and hexadecimal literals are left out.
- Date parsing from strings: appointment times arrive as time values.
- `generatePrescriptionPDF`, `generatePrescriptionQRCode` and `downloadPrescriptionPDF`: DOM, html2pdf and QR image generation are not modelled. The page is modelled as its content, not as HTML markup and styles.
- The FileReader and the outer "Error processing file" catch in the upload form: reading is a parameter (`PreviewLoaded`).
- `fetch` and `JSON.parse`: they are parameters. JSON numbers are integers in the model.
- BloodReport.ReportForm.SubmitDone: a thrown value that is not an Error ("Unknown error occurred") is not modelled.
- The embedded chat widget itself (only whether it is switched on is modelled), the conversation id in local storage and `saveMessage` database writes: external services, not modelled.
- HealthAssistant.GenerateUuid: `crypto.randomUUID` and `Math.random` are parameters, with one random draw per template position.
- HealthAssistant.ChatPanel.ReceiveReply: the reply is read as an optional string; a non-string truthy `message` is not modelled.

## Findings

| source | as written | input that shows it | evidently intended | confidence | as-written member | corrected member |
|---|---|---|---|---|---|---|
| src/lib/istTimezone.ts:19-22 | the IST offset is added to the time value and the host offset subtracted, and the result is then read with local-time getters (lines 97-99) and with `toISOString` (line 79). A host that is not on UTC is shifted twice. | a host in India (offset -330 minutes) at the epoch: the clock reads 16:30 where IST is 05:30; at or after 18:30 IST, `getTodayIST` returns tomorrow's date | the IST wall clock (UTC plus 5 h 30 min) and its date, on every host | not executed | IstDoubleOffset.AsWrittenClockRightIff, IstDoubleOffset.AsWrittenClockOnIndianHost, IstDoubleOffset.AsWrittenDateOnIndianHost | IstCorrected.CorrectedFilterPastTimeSlots, IstCorrected.CorrectedClockIsUtcPlusFiveThirty, IstCorrected.CorrectedTodayIsIsoDate |
