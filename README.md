# Conference client decision rules, modelled in Dafny

The client screens of a video-conferencing web application (a join form, an in-call
page with a video mosaic, a roster, a network-statistics readout and a control bar)
are almost entirely rendering. This project models the few decision rules inside
that rendering code and proves what they guarantee:

- **Command dispatcher** (`ConferenceRoom`): the local call flags `isMuted` and
  `isVideoOn`, and the notices (toasts) raised when a command request ends. A
  request's end is an input: acknowledged (`response.ok`), rejected (a response
  without `ok`) or thrown. `Session` is the page state as a class. `Respond` is the
  transition it follows, and `Run` folds that transition over a sequence of
  dispatches.
- **Control bar** (`ControlBar`): the intent each button sends, given the flags it
  is drawn with. `ConferenceRoom.PressOnce` and `ConferenceRoom.Drive` wire the bar to
  the dispatcher, which closes the press, acknowledgement, flag-flip loop.
- **Network statistics** (`NetworkStatsView`): the colour band of the latency, the
  latency label, and (in `ConferenceRoom`) the simulated statistics timer. Each
  `Math.random()` draw is an input real in [0, 1).
- **Join form** (`Join`): both fields, the submit guard and the button's disabled
  state. The form state is the class `JoinForm`. `JsString` models JavaScript's
  `trim` and its decimal printing of whole numbers.
- **Frame poller** (`VideoStream`) and **roster poller** (`Roster`): classes holding
  what each hook exposes. One method applies one poll result (a parsed body with or
  without the field, or a failure). A ghost history of the applied results ties the
  state to a pure replay, and lemmas about that replay prove last-wins and the
  loading invariants.

Note what the code does in three places where a reader might expect otherwise:

- A rejected command (a response with `ok` false) raises no notice. The code has no
  branch for it. Only a thrown request raises the "Failed to execute command" notice.
- An acknowledged LEAVE only raises its destructive notice. It changes no flag and
  the page does not navigate.
- Loading ends only on a body whose `frame` is a non-empty string. A body with an
  empty or missing frame keeps the loading indicator on.

## Model

| member | source | states |
|---|---|---|
| Conference.CommandAction.Tag | src/types/conference.ts:14-18 | each action is sent as its own string literal in the command body's `action` field |
| Conference.ParseTag | src/types/conference.ts:14-18 | a wire tag is read back only as the action whose tag it is |
| Conference.TagRoundTrip | src/types/conference.ts:14-18 | each of the five actions is recovered from its tag |
| Conference.TagInjective | src/types/conference.ts:14 | distinct actions have distinct wire tags |
| ConferenceRoom.AckNotice | src/pages/ConferenceRoom.tsx:57-88 | an acknowledged command's confirmation is destructive exactly for LEAVE |
| ConferenceRoom.AckFlags | src/pages/ConferenceRoom.tsx:54-90 | MUTE/UNMUTE set isMuted to whether it was MUTE, VIDEO_ON/VIDEO_OFF set isVideoOn to whether it was VIDEO_ON, the other flag (and both on LEAVE) is kept |
| ConferenceRoom.Respond | src/pages/ConferenceRoom.tsx:42-100 | flags change only on an acknowledgement; a rejected request raises nothing; a thrown one raises exactly the failure notice; an acknowledged one raises exactly its confirmation |
| ConferenceRoom.RespondNotices | src/pages/ConferenceRoom.tsx:52-98 | a dispatch raises at most one notice (none only when rejected), destructive exactly on a throw or an acknowledged LEAVE |
| ConferenceRoom.AckIdempotent | src/pages/ConferenceRoom.tsx:54-90 | acknowledging the same command twice has the effect of once |
| ConferenceRoom.AxesCommute | src/pages/ConferenceRoom.tsx:54-82 | a microphone and a video command have the same effect in either order |
| ConferenceRoom.RunFlagsFollowLastAck | src/pages/ConferenceRoom.tsx:52-91 | after any sequence of dispatches each flag is what the last acknowledged command on its axis set it to, or its start value |
| ConferenceRoom.RunWithoutAckKeepsFlags | src/pages/ConferenceRoom.tsx:52 | with no acknowledgement the flags never move |
| ConferenceRoom.RunNoticeCount | src/pages/ConferenceRoom.tsx:52-98 | the notices raised by a sequence are one per dispatch that was not rejected |
| ConferenceRoom.PressOnce | src/components/ControlBar.tsx:81 | a refresh press leaves the call flags alone and raises nothing |
| ConferenceRoom.AckPressFlipsOwnFlag | src/components/ControlBar.tsx:25-71 | an acknowledged mute press flips isMuted only, a video press flips isVideoOn only, a leave press keeps both and raises the leave notice |
| ConferenceRoom.DriveTogglesByParity | src/components/ControlBar.tsx:25-48 | when each press's request ends before the next press, each flag has flipped exactly when its button was acknowledged an odd number of times |
| ConferenceRoom.Draw | src/pages/ConferenceRoom.tsx:33-35 | `Math.floor(Math.random() * n)` lies in 0..n-1 |
| ConferenceRoom.SimulatedStats | src/pages/ConferenceRoom.tsx:32-36 | simulated latency is in 20..69, fps in 28..32, bitrate in 2000..2999 |
| ConferenceRoom.SimulatedLatencyNeverPoor | src/pages/ConferenceRoom.tsx:20-35 | a simulated latency never reaches the poor band; the placeholder latency 32 is good |
| ConferenceRoom.Session.constructor | src/pages/ConferenceRoom.tsx:18-24 | the page starts not muted, camera on, with no notices and the placeholder statistics |
| ConferenceRoom.Session.HandleCommand | src/pages/ConferenceRoom.tsx:42-100 | the flags become those of `Respond`, its notices are appended, the statistics are untouched |
| ConferenceRoom.Session.SimulateStats | src/pages/ConferenceRoom.tsx:31-37 | a statistics tick replaces the statistics only |
| ControlBar.OnClick | src/components/ControlBar.tsx:25-81 | the mute button sends UNMUTE exactly when muted and MUTE otherwise; the video button sends VIDEO_OFF exactly when video is on and VIDEO_ON otherwise; the leave button always sends LEAVE; the refresh button sends no command, only a roster refresh |
| ControlBar.ButtonsReadOwnFlagOnly | src/components/ControlBar.tsx:25-71 | each button's command depends only on its own flag, leave and refresh on neither |
| NetworkStatsView.BandOf | src/components/NetworkStats.tsx:10-14 | latency below 50 is good, from 50 below 100 fair, from 100 poor; each latency has exactly one band |
| NetworkStatsView.LatencyColor | src/components/NetworkStats.tsx:10-14 | `text-success`, `text-primary`, `text-destructive` exactly on those three half-open intervals |
| NetworkStatsView.BandMonotone | src/components/NetworkStats.tsx:10-14 | a higher latency never gets a better band |
| NetworkStatsView.ColorClassInjective | src/components/NetworkStats.tsx:11-13 | the three bands have three distinct classes |
| NetworkStatsView.BandBoundaries | src/components/NetworkStats.tsx:11-12 | 49 is good, 50 and 99 fair, 100 poor |
| NetworkStatsView.LatencyLabel | src/components/NetworkStats.tsx:31 | the label is decimal digits followed by "ms" |
| NetworkStatsView.LatencyLabelReadsBack | src/components/NetworkStats.tsx:31 | the label's digits read back as the latency |
| JsString.Trim | src/pages/Join.tsx:16 | `trim` cuts off exactly the blank prefix and the blank suffix: what is left is the slice between them, with no whitespace or line terminator at either end |
| JsString.TrimEmptyIffBlank | src/pages/Join.tsx:16 | the trimmed string is empty exactly when the string is all whitespace and line terminators |
| JsString.TrimIdempotent | src/pages/Join.tsx:16 | trimming twice is trimming once |
| JsString.Decimal | src/components/NetworkStats.tsx:31 | a whole number prints as one or more digits without a leading zero |
| JsString.DecimalRoundTrip | src/components/NetworkStats.tsx:31 | the printed digits read back as the number |
| JsString.DecimalInjective | src/components/NetworkStats.tsx:31 | distinct numbers print differently |
| Join.JoinTarget | src/pages/Join.tsx:14-19 | submitting navigates exactly when both fields are non-blank, to `/setup` with both fields exactly as typed (not trimmed) |
| Join.SubmitDisabled | src/pages/Join.tsx:85 | the button is disabled exactly when a field is blank |
| Join.DisabledIffNoNavigation | src/pages/Join.tsx:16-85 | the button is disabled exactly when submitting would not navigate |
| Join.BlankFieldBlocks | src/pages/Join.tsx:16 | a field of spaces, tabs and line breaks blocks joining whatever the other field holds |
| Join.FreshFormDisabled | src/pages/Join.tsx:11-12 | with both fields empty the button is disabled and submitting does nothing |
| Join.JoinForm.constructor | src/pages/Join.tsx:11-12 | both fields start empty |
| Join.JoinForm.SetName | src/pages/Join.tsx:63 | typing in the name field sets the name only |
| Join.JoinForm.SetMeetingId | src/pages/Join.tsx:76 | typing in the meeting-id field sets the meeting id only |
| Join.JoinForm.HandleJoin | src/pages/Join.tsx:14-19 | submitting performs the navigation `JoinTarget` decides, and navigates exactly when the button is enabled |
| VideoStream.ApplyFrame | src/hooks/useVideoStream.ts:8-19 | a body with a non-empty frame replaces the frame and ends loading; a missing or empty frame, or a failure, changes nothing; loading never comes back; "not loading implies a frame" is kept |
| VideoStream.ReplayLastWins | src/hooks/useVideoStream.ts:12-15 | after any sequence the frame is the latest carried one, or the previous frame; loading has ended exactly when it had before or some body carried a frame |
| VideoStream.ReplayFromInitial | src/hooks/useVideoStream.ts:4-15 | from the initial state the frame is the latest carried one or "", and loading is shown exactly while nothing was carried |
| VideoStream.ReplayKeepsInvariants | src/hooks/useVideoStream.ts:5-14 | over any sequence, loading once ended stays ended and "not loading implies a frame" holds |
| VideoStream.FramePoller.constructor | src/hooks/useVideoStream.ts:4-5 | the hook starts with frame "" and loading on |
| VideoStream.FramePoller.FetchFrame | src/hooks/useVideoStream.ts:8-19 | applying a poll result updates the state as `ApplyFrame` says and keeps it equal to the replay of all results applied so far |
| Roster.ApplyRoster | src/hooks/useRoster.ts:8-18 | a body carrying a list (even an empty one) replaces the list with exactly it; a body without one, or a failure, keeps the list |
| Roster.ReplaceForgetsPrevious | src/hooks/useRoster.ts:12-13 | after a carrying body the list does not depend on the previous list and holds only entries of the response |
| Roster.ReplayLastWins | src/hooks/useRoster.ts:12-13 | after any sequence the list is the latest carried one, or the previous list |
| Roster.RosterPoller.constructor | src/hooks/useRoster.ts:5 | the list starts empty |
| Roster.RosterPoller.FetchRoster | src/hooks/useRoster.ts:8-18 | applying a poll result updates the list as `ApplyRoster` says and keeps it equal to the replay of all results applied so far |
| Roster.RosterPoller.RefreshRoster | src/hooks/useRoster.ts:34 | a manual refresh applies exactly the transition of a timer tick |

## Left out

- HTTP and JSON: `fetch`, the backend address, the request body and `response.json()` are I/O. Each request's end is an input event. Failures are logged to the console; logging is not modelled.
- Timers and their teardown (`setInterval`, `clearInterval`) are scheduling. The model applies results in the order given.
- Overlapping in-flight polls are concurrency. The model sees only the order in which results completed.
- ConferenceRoom.DriveTogglesByParity: assumes each press's request ends before the next press. `handleCommand` is asynchronous, and the bar reads the old flags until an acknowledgement arrives. So two mute presses made before the first acknowledgement both send MUTE, and after both are acknowledged `isMuted` is true, not back to false. `Drive` and `AckPressFlipsOwnFlag` do not cover such overlapping presses.
- ConferenceRoom.Draw: `Math.random()` returns a double and the model takes an exact real in [0, 1). Rounding in the double product is not modelled.
- The bitrate readout `(bitrate / 1000).toFixed(1)` is floating-point formatting and is not modelled.
- NetworkStatsView.LatencyLabel: matches JavaScript only for whole non-negative latencies below 2^53. Above 2^53, JavaScript prints the shortest digits that round to the same double, padded with zeros. From 10^21 it uses exponential form. Neither case is modelled. The page only shows latencies 20..69 and the placeholder 32.
- VideoStream.ApplyFrame: the frame field is modelled as an optional string. A truthy non-string value (such as a number) is not modelled.
- Roster.ApplyRoster: the participants field is modelled as an optional list. A truthy value that is not an array is not modelled.
- JsString.Trim: works on Unicode scalar values, while JavaScript strings are UTF-16. No whitespace character lies outside the basic plane, so this changes nothing for `trim`.
- Device setup (`src/pages/Setup.tsx`) drives browser media capture, a foreign API, and is not part of this model.
- The video mosaic and roster panel only map props to markup, and are not part of this model.
- Toast rendering, animations and router navigation are presentation. The model records a notice's title, description and variant, and a navigation's path and state.
