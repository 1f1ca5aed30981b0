# Voice button session state machine

A verified Dafny model of the session state machine inside the `VoiceButton`
React component of a Spanish-language voice client. One button drives a
conversation. The first click opens a WebSocket to
`ws://localhost:8001/ws/{sessionId}/{conversationId}`. Once the socket opens,
a click starts speech recognition. A final recognition result is sent to the
server as the JSON object `{message: text}`. The server's text reply is shown
and spoken aloud.

The component keeps one `buttonState`: `'idle'`, `'ready'`, `'listening'` or
`'processing'`. It also holds the `transcript` and `serverResponse` texts and
a nullable socket handle. Three independent sources change this state:

- the user's click;
- the socket's `onopen`, `onmessage`, `onerror` and `onclose` callbacks;
- the recogniser's `onresult`, `onend` and `onerror` callbacks.

Files:

- `labels.dfy`: the four state values (module `ButtonStates`) and the two pure
  maps from state to button colour and caption (module `Labels`).
- `session.dfy`: module `Session`. It holds a snapshot of the component and its
  collaborators (`Snap`) and one transition function per handler. `Step`
  dispatches one browser event. `Run` folds a sequence of events.
- `session_properties.dfy`: module `SessionProperties`. It proves an
  invariant (`Inv`) that holds in every state reachable after mounting. It
  also proves what follows from it, over single events, short event sequences
  and whole runs.
- `component.dfy`: module `Component`. It holds the class `VoiceButton`, whose
  fields are the component's state and whose methods are its handlers. They
  update the fields in place. Every handler method except
  `SpeakServerResponse` ensures that the new `View()` is the matching
  `Session` transition of the old one. `SpeakServerResponse` ensures that
  exactly one text was appended to the speech log.
- `wrappers.dfy`: `Option`, used for the nullable socket handle and for the
  click handler's exception.

Modelling choices:

- `buttonState` is a string, as in the component. This keeps the click
  handler's final `else` branch (`disconnectWebSocket()`) and the `default:`
  branches of the two label maps in the model. `SessionProperties.ReachableStates`
  proves that these branches are never reached after mounting.
- Sockets are kept in a table in creation order, and `socketRef` is an index
  into that table. Handlers of older sockets stay attached after a newer socket
  exists, so socket identity matters. The browser's own `readyState` change is
  bundled with each socket event. Opening sets `Open` and closing sets
  `Closed`. `close()` sets `Closing` on a socket that is connecting or open.
- Whether a recognition pass is running is part of the snapshot. It decides
  two outcomes of a click in `'ready'`:
  - `start()` throws `InvalidStateError` while a pass is still running. This
    can happen after a server message forces `'ready'` during listening.
  - With no recogniser in the browser, `recognition` is null, so `start()` and
    `stop()` throw `TypeError`.

  Both exceptions escape the click handler before any state is set.
  `Session.ClickError` names the exception.
- The recogniser's `onend` closure compares against the `buttonState` it
  captured at mount. That value is always `'idle'`. It is modelled literally,
  as the constant `stateAtMount`, so the handler never changes the
  component's state. A pass that ends by itself therefore leaves the button in
  `'listening'` (`SessionProperties.StaleEndLeavesListening`).
- `Session.Step` drops any event the browser cannot deliver in the current
  state. Socket events need an existing socket in a fitting `readyState`, and
  recogniser events need a running pass. The handler methods of the class
  require the same conditions.

The component has no connecting, speaking or error state. It sends no
greeting on connect and has no connect timeout or playback callbacks. It
accepts a server message in any state, and that message forces `'ready'`.

## Model

| member | source | states |
|---|---|---|
| `Labels.ButtonColor` | src/VoiceButton.js:127-135 | The colour is grey, green, red or orange. Green, red and orange mark exactly ready, listening and processing. Grey marks idle and any unknown value. |
| `Labels.ButtonText` | src/VoiceButton.js:137-145 | The caption is "Conectar", "Hablar", "Detener" or "Procesando...". Each of the last three marks exactly ready, listening or processing. "Conectar" marks idle and any unknown value. |
| `Labels.ColorMatchesText` | src/VoiceButton.js:127-145 | Colour and caption split the states the same way. The button is grey exactly when it reads "Conectar", and likewise for each other pair. |
| `Labels.TextIdentifiesKnownState` | src/VoiceButton.js:127-145 | On the four known states, both the caption and the colour are injective. |
| `Labels.UnknownStateShownAsIdle` | src/VoiceButton.js:127-145 | A value outside the four states is shown exactly as idle: grey and "Conectar". |
| `SessionProperties.NewSocketOnlyWhenNoneLive` | src/VoiceButton.js:12-15 | From a reachable state, an event adds a socket only when it is a click while idle with no handle held. At that moment no earlier socket is connecting or open. Exactly one socket is added, in `Connecting`, to the session's endpoint. |
| `SessionProperties.ClicksAloneStayIdle` | src/VoiceButton.js:105-107 | Any number of clicks from idle keeps the state idle and sends nothing. The first click connects and every later one changes nothing. |
| `SessionProperties.SocketEventsComeFromHeldSocket` | src/VoiceButton.js:17-41 | From a reachable state, every socket callback that fires belongs to the held socket, so handlers of older sockets never run while mounted. An open event makes that socket open and the session ready, keeping the handle. |
| `SessionProperties.ReadyOnlyThroughCallbacks` | src/VoiceButton.js:105-119 | Entering `'ready'` happens only on a socket open, a server message or a recogniser error. A click never causes it. |
| `SessionProperties.ClickCycle` | src/VoiceButton.js:108-115 | From a reachable ready state with a recogniser and no pass running, a click starts listening and a pass, and a second click moves to processing. The recogniser gets exactly `start` then `stop`. No frame is sent and the socket is untouched. A third click throws nothing and changes nothing. |
| `SessionProperties.StartOnlyWhenNoPassRuns` | src/VoiceButton.js:108-110 | A recognition pass is started only by a click in ready when no pass runs. After it, a pass runs and the state is listening. |
| `SessionProperties.ProcessingLeftOnlyByCallbacks` | src/VoiceButton.js:114-115 | `'processing'` is left only through a socket callback (open, message, error or close) or a recogniser error. Clicks, results and the end of a pass never leave it. |
| `SessionProperties.NoRecognizerNoConversation` | src/VoiceButton.js:105-112 | In a browser without a recogniser, every run keeps the state idle or ready. No pass runs, and no recogniser call or frame is ever made. Every click while ready throws `TypeError`. |
| `SessionProperties.InterimResultsOnlyTouchTranscript` | src/VoiceButton.js:61-64 | Any non-empty run of interim results leaves everything as it was, except that the transcript is the last result's text. |
| `SessionProperties.FinalResultWhileListening` | src/VoiceButton.js:61-71 | From a reachable listening state with an open held socket, a final result sends exactly one `{message: text}` frame on that socket. It sets the transcript and moves to processing. The handler has no state guard, so a second final result sends a second frame. |
| `SessionProperties.StaleEndLeavesListening` | src/VoiceButton.js:74-78 | From a reachable listening state with a pass running, the end of the pass leaves the state listening. A click then logs one `stop`, moves to processing and sends nothing. From there only a socket callback can change the state. |
| `SessionProperties.StepSendsOnlyFinalResultWhileOpen` | src/VoiceButton.js:67-71 | In any single event, the sent log either stays the same or grows by one frame. A frame is added only for a final result, on the held socket, while that socket is open, carrying that result's text. |
| `SessionProperties.ReachableFramesTargetSession` | src/VoiceButton.js:95-103 | After any events following mount, every frame sent went to a socket this component created for its session's endpoint. |
| `SessionProperties.StepSpeaksOnlyServerMessages` | src/VoiceButton.js:121-125 | In any single event, a speak request is issued only for a server message, with that message's text. |
| `SessionProperties.ServerMessageWhileListeningBlocksStart` | src/VoiceButton.js:22-28 | Mount, click, open, click, then a server message, leaves the session ready while the pass still runs. The reply is stored and spoken once and nothing was sent. The next click throws `InvalidStateError` and changes nothing. |
| `SessionProperties.ReadyWithoutSocket` | src/VoiceButton.js:80-83 | Mount, click, open, click, socket close, then a recogniser error, leaves the session ready ("Hablar") with no socket. A new pass can start, but its final result moves to processing and sends nothing. |
| `SessionProperties.SocketErrorBlocksReconnect` | src/VoiceButton.js:30-33 | From a reachable state, a socket error sets idle, so the button reads "Conectar". The handle is kept, so a click then changes nothing. |
| `SessionProperties.SocketCloseAllowsReconnect` | src/VoiceButton.js:35-39 | From a reachable state, a socket close sets idle, clears the handle and leaves no socket connecting or open. The next click creates exactly one new socket to the session's endpoint and holds it. |
| `SessionProperties.DisconnectIdempotent` | src/VoiceButton.js:44-50 | With no socket, disconnecting only sets `'idle'`. In every case it leaves no handle and the state idle. Disconnecting twice equals disconnecting once. |
| `SessionProperties.DisconnectLeavesNoLiveSocket` | src/VoiceButton.js:44-50 | From a reachable state, disconnecting leaves no socket connecting or open. |
| `SessionProperties.MountSatisfiesInv` | src/VoiceButton.js:4-10 | The mounted state is idle, holds no socket and satisfies the invariant. |
| `SessionProperties.StepPreservesInv` | src/VoiceButton.js:12-119 | Every deliverable event keeps the invariant and the session id. The state stays one of the four values. The handle is the newest socket. Only the held socket may be connecting or open. All sockets target the session endpoint. Every frame went to a socket that was created. |
| `SessionProperties.RunPreservesInv` | src/VoiceButton.js:12-119 | Every sequence of events keeps the invariant and the session id. |
| `SessionProperties.AtMostOneLiveSocket` | src/VoiceButton.js:13-41 | Under the invariant, at most one socket is connecting or open. |
| `SessionProperties.ReachableStates` | src/VoiceButton.js:12-119 | After any events following mount, the state is one of the four values. Any socket still connecting or open is the held one. Every socket's URL carries the mount-time session id and conversation id 1. |
| `SessionProperties.EffectsPerEvent` | src/VoiceButton.js:61-71 | Over any run, the sent and spoken logs only grow. There is at most one frame per final result and at most one speak request per server message. |
| `SessionProperties.HappyPath` | src/VoiceButton.js:105-113 | Click, socket open, click, then a final result sends exactly one frame with the heard text on socket 0 and leaves the session processing. The reply is then spoken and makes it ready. |
| `Component.VoiceButton.constructor` | src/VoiceButton.js:4-10 | Mounting yields the idle state with empty texts and no socket. |
| `Component.VoiceButton.ConnectWebSocket` | src/VoiceButton.js:12-42 | The new state is `Session.Connect` of the old one. With a handle held, no field changes. At most one socket is created. |
| `Component.VoiceButton.OnOpen` | src/VoiceButton.js:17-20 | The new state is `Session.OnOpen` of the old one: the socket is open and the state is ready. |
| `Component.VoiceButton.OnMessage` | src/VoiceButton.js:22-28 | The new state is `Session.OnMessage` of the old one: one more spoken text and the state is ready. |
| `Component.VoiceButton.SpeakServerResponse` | src/VoiceButton.js:121-125 | Appends exactly one speak request for the text. |
| `Component.VoiceButton.OnSocketError` | src/VoiceButton.js:30-33 | The new state is `Session.OnSocketError` of the old one: idle, with the handle kept. |
| `Component.VoiceButton.OnClose` | src/VoiceButton.js:35-39 | The new state is `Session.OnClose` of the old one: idle, with no handle. |
| `Component.VoiceButton.DisconnectWebSocket` | src/VoiceButton.js:44-50 | The new state is `Session.Disconnect` of the old one: idle, with no handle. |
| `Component.VoiceButton.SendMessageToServer` | src/VoiceButton.js:95-103 | The new state is `Session.SendMessage` of the old one. At most one frame is added. |
| `Component.VoiceButton.OnResult` | src/VoiceButton.js:61-72 | The new state is `Session.OnResult` of the old one, and the transcript is the result's text. |
| `Component.VoiceButton.OnEnd` | src/VoiceButton.js:74-78 | The new state is `Session.OnEnd` of the old one. The pass is over. |
| `Component.VoiceButton.OnRecognitionError` | src/VoiceButton.js:80-83 | The new state is `Session.OnRecognitionError` of the old one: ready. |
| `Component.VoiceButton.HandleButtonClick` | src/VoiceButton.js:105-119 | The new state is `Session.Click` of the old one. The exception returned is `Session.ClickError` of the old state. |

## Left out

- Rendering (src/VoiceButton.js:147-172): the JSX, styles and the `not-allowed` cursor while processing.
- `console.log` and `console.error` calls.
- React hook mechanics. `useCallback` and `useEffect` re-creation and
  cleanup timing are not modelled. The model assumes that each handler sees
  the state committed by the previous event, as after a re-render. State
  updates that React batches within one handler are applied in order.
- The browser APIs. `WebSocket`, `SpeechRecognition` and `speechSynthesis` are
  abstract:
  - sockets are a table of `readyState` values;
  - the recogniser is a running flag plus a log of `start`/`stop` calls;
  - speech synthesis is a log of texts to speak.

  The recogniser's configuration (`continuous`, `interimResults`, `lang`) and
  the utterance language are not modelled. A result event is reduced to the
  text and finality of the result at `resultIndex`.
- `JSON.stringify` is not modelled as a serialiser. It is the abstract payload
  `MessageJson(text)`.
- `sessionId` comes from `Date.now()` and is a constructor parameter.
- A socket error leaves `readyState` unchanged in the model. The close event
  that follows it makes the socket closed. In the browser, `readyState` is
  already `CLOSED` when `error` fires. The model therefore lets a message
  arrive, and a frame be sent, between a socket's error and its close, which
  the browser does not. "Open" in `StepSendsOnlyFinalResultWhileOpen` and
  `FinalResultWhileListening` means the model's `readyState`.
- Unmounting calls `disconnectWebSocket` (src/VoiceButton.js:90-92). It is
  modelled by `DisconnectWebSocket` and its lemmas. It is not an event of the
  mounted trace model, because no handler runs on an unmounted component.
  Callbacks of a closed socket that arrive after unmount are not modelled.
- src/elevenlabs.js is not part of this model. It is network and audio
  playback I/O and is not called by the component.
- src/App.js is not part of this model. It is layout only.
