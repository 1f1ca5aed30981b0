/** The session state machine of the voice button as values: a snapshot of
    everything the component and its collaborators hold, and one transition
    function per handler. The class in module Component performs the same
    transitions in place; the lemmas in SessionProperties are about these
    functions. */
module Session {
  import opened Wrappers
  import opened ButtonStates

  /** The socket endpoint: `ws://localhost:8001/ws/{sessionId}/{conversationId}`. */
  const HOST: string := "localhost"
  const PORT: nat := 8001
  /** `conversationId` starts at 1 and is never advanced. */
  const CONVERSATION_ID: nat := 1

  datatype Url = WsUrl(host: string, port: nat, sessionId: nat, conversationId: nat)

  /** The `readyState` of a browser WebSocket. */
  datatype ReadyState = Connecting | Open | Closing | Closed

  /** A WebSocket object the component created, identified by its position in
      creation order. */
  datatype WebSocket = WebSocket(url: Url, readyState: ReadyState)

  /** The outbound JSON object `{message: text}`, kept abstract. */
  datatype Payload = MessageJson(message: string)

  /** One frame handed to `send`, and the socket it was handed to. */
  datatype Frame = Frame(socket: nat, payload: Payload)

  /** A call the component made on the recogniser. */
  datatype RecognizerCall = Start | Stop

  /** An exception that escapes the click handler. */
  datatype JsError =
    | TypeError          // `recognition` is null: the browser has no recogniser
    | InvalidStateError  // `start()` while a recognition pass is still running

  /** Everything the transitions read or write.
      Component state: buttonState, transcript, serverResponse, socketRef,
      the constants sessionId, recognitionSupported and stateAtMount (the
      value of buttonState the recogniser's `onend` closure captured).
      Collaborators: the sockets created so far and whether a recognition pass
      is running. Effects: frames sent, texts spoken, recogniser calls. */
  datatype Snap = Snap(
    buttonState: string,
    transcript: string,
    serverResponse: string,
    socketRef: Option<nat>,
    sessionId: nat,
    recognitionSupported: bool,
    stateAtMount: string,
    sockets: seq<WebSocket>,
    recognizing: bool,
    sent: seq<Frame>,
    spoken: seq<string>,
    recognizerCalls: seq<RecognizerCall>)

  /** The socket handle, when held, names a socket that was created. */
  predicate Wf(s: Snap)
  {
    s.socketRef.Some? ==> s.socketRef.value < |s.sockets|
  }

  function Endpoint(sessionId: nat): Url
  {
    WsUrl(HOST, PORT, sessionId, CONVERSATION_ID)
  }

  /** The state right after mounting. */
  function Mount(sessionId: nat, recognitionSupported: bool): Snap
  {
    Snap(IDLE, "", "", None, sessionId, recognitionSupported, IDLE, [], false, [], [], [])
  }

  // ---------------------------------------------------------------- socket

  /** `connectWebSocket`: returns at once when a handle is held; otherwise
      creates one socket to the session's endpoint and holds it. */
  function Connect(s: Snap): Snap
  {
    if s.socketRef.Some? then s
    else s.(sockets := s.sockets + [WebSocket(Endpoint(s.sessionId), Connecting)],
             socketRef := Some(|s.sockets|))
  }

  /** The socket changes `readyState` to `r`. */
  function SetReadyState(s: Snap, id: nat, r: ReadyState): Snap
    requires id < |s.sockets|
  {
    s.(sockets := s.sockets[id := s.sockets[id].(readyState := r)])
  }

  /** Socket `id` opens, and its `onopen` handler runs. */
  function OnOpen(s: Snap, id: nat): Snap
    requires id < |s.sockets|
  {
    SetReadyState(s, id, Open).(buttonState := READY)
  }

  /** A text frame arrives on socket `id`, and its `onmessage` handler runs,
      whatever the current state. */
  function OnMessage(s: Snap, id: nat, text: string): Snap
  {
    s.(serverResponse := text, spoken := s.spoken + [text], buttonState := READY)
  }

  /** The `onerror` handler of socket `id`: the handle is kept. */
  function OnSocketError(s: Snap, id: nat): Snap
  {
    s.(buttonState := IDLE)
  }

  /** Socket `id` closes, and its `onclose` handler clears the handle,
      whichever socket the handle names. */
  function OnClose(s: Snap, id: nat): Snap
    requires id < |s.sockets|
  {
    SetReadyState(s, id, Closed).(buttonState := IDLE, socketRef := None)
  }

  /** `WebSocket.close()`: a socket that is connecting or open starts
      closing; otherwise nothing happens. */
  function CloseSocket(s: Snap, id: nat): Snap
    requires id < |s.sockets|
  {
    if s.sockets[id].readyState == Connecting || s.sockets[id].readyState == Open
    then SetReadyState(s, id, Closing)
    else s
  }

  /** `disconnectWebSocket`: closes and drops the held socket, if any, and
      sets the state to idle in every case. */
  function Disconnect(s: Snap): Snap
    requires Wf(s)
  {
    var closed := if s.socketRef.Some? then CloseSocket(s, s.socketRef.value).(socketRef := None) else s;
    closed.(buttonState := IDLE)
  }

  /** `sendMessageToServer`: sends `{message: text}` when a socket is held and
      open, and changes nothing otherwise. */
  function SendMessage(s: Snap, text: string): Snap
    requires Wf(s)
  {
    if s.socketRef.Some? && s.sockets[s.socketRef.value].readyState == Open
    then s.(sent := s.sent + [Frame(s.socketRef.value, MessageJson(text))])
    else s
  }

  // ------------------------------------------------------------ recogniser

  /** The recogniser's `onresult` handler, for the result at `resultIndex`. */
  function OnResult(s: Snap, text: string, isFinal: bool): Snap
    requires Wf(s)
  {
    var heard := s.(transcript := text);
    if isFinal then SendMessage(heard, text).(buttonState := PROCESSING) else heard
  }

  /** The pass ends, and the `onend` handler runs. Its test reads the state
      the closure captured at mount, not the current one. */
  function OnEnd(s: Snap): Snap
  {
    var ended := s.(recognizing := false);
    if s.stateAtMount == LISTENING then ended.(buttonState := PROCESSING) else ended
  }

  /** The recogniser's `onerror` handler. */
  function OnRecognitionError(s: Snap): Snap
  {
    s.(buttonState := READY)
  }

  // ----------------------------------------------------------------- click

  /** The exception, if any, that `handleButtonClick` throws. */
  function ClickError(s: Snap): Option<JsError>
  {
    if s.buttonState == READY then
      if !s.recognitionSupported then Some(TypeError)
      else if s.recognizing then Some(InvalidStateError)
      else None
    else if s.buttonState == LISTENING && !s.recognitionSupported then Some(TypeError)
    else None
  }

  /** `handleButtonClick`. When it throws, the throw happens before any
      state is set, so nothing changes. */
  function Click(s: Snap): Snap
    requires Wf(s)
  {
    if s.buttonState == IDLE then Connect(s)
    else if s.buttonState == READY then
      if ClickError(s).Some? then s
      else s.(recognizerCalls := s.recognizerCalls + [Start], recognizing := true,
              buttonState := LISTENING)
    else if s.buttonState == LISTENING then
      if ClickError(s).Some? then s
      else s.(recognizerCalls := s.recognizerCalls + [Stop], buttonState := PROCESSING)
    else if s.buttonState == PROCESSING then s
    else Disconnect(s)
  }

  // ---------------------------------------------------------------- traces

  /** Everything that can make the component run a handler while mounted. */
  datatype Event =
    | UserClick
    | SocketOpened(id: nat)
    | SocketMessage(id: nat, text: string)
    | SocketError(id: nat)
    | SocketClosed(id: nat)
    | RecognitionResult(text: string, isFinal: bool)
    | RecognitionEnded
    | RecognitionFailed

  /** Whether the browser can deliver `ev` in state `s`: socket events only
      for a socket that exists and is in a fitting `readyState`, recogniser
      events only while a pass runs. */
  predicate Fires(s: Snap, ev: Event)
  {
    match ev
    case UserClick => true
    case SocketOpened(id) => id < |s.sockets| && s.sockets[id].readyState == Connecting
    case SocketMessage(id, _) => id < |s.sockets| && s.sockets[id].readyState == Open
    case SocketError(id) => id < |s.sockets| && s.sockets[id].readyState != Closed
    case SocketClosed(id) => id < |s.sockets| && s.sockets[id].readyState != Closed
    case RecognitionResult(_, _) => s.recognizing
    case RecognitionEnded => s.recognizing
    case RecognitionFailed => s.recognizing
  }

  /** One dispatched event; an event the browser cannot deliver is dropped. */
  function Step(s: Snap, ev: Event): (r: Snap)
    requires Wf(s)
    ensures Wf(r)
  {
    if !Fires(s, ev) then s
    else match ev
      case UserClick => Click(s)
      case SocketOpened(id) => OnOpen(s, id)
      case SocketMessage(id, text) => OnMessage(s, id, text)
      case SocketError(id) => OnSocketError(s, id)
      case SocketClosed(id) => OnClose(s, id)
      case RecognitionResult(text, isFinal) => OnResult(s, text, isFinal)
      case RecognitionEnded => OnEnd(s)
      case RecognitionFailed => OnRecognitionError(s)
  }

  /** The events in order, one at a time. */
  function Run(s: Snap, evs: seq<Event>): (r: Snap)
    requires Wf(s)
    ensures Wf(r)
    decreases |evs|
  {
    if evs == [] then s else Run(Step(s, evs[0]), evs[1..])
  }
}
