/** Properties of the session state machine: what each handler does to the
    state, the socket handle and the effect logs, and what holds in every
    state the component can reach while it is mounted. */
module SessionProperties {
  import opened Wrappers
  import opened ButtonStates
  import opened Session
  import opened Labels

  /** A socket that is connecting or open, i.e. not closing and not closed. */
  predicate Live(r: ReadyState)
  {
    r == Connecting || r == Open
  }

  /** What holds in every state reachable from mounting:
      the state is one of the four known values; the `onend` closure saw
      `idle`; the handle, when held, is the newest socket; every socket that
      is still connecting or open is the held one; every socket targets the
      session's endpoint; no socket is left half closed (only unmounting
      calls `close()`); and every frame went to a socket created here. */
  predicate Inv(s: Snap)
  {
    && Wf(s)
    && IsKnown(s.buttonState)
    && s.stateAtMount == IDLE
    && (s.socketRef.Some? ==> s.socketRef.value == |s.sockets| - 1)
    && (forall i :: 0 <= i < |s.sockets| && Live(s.sockets[i].readyState) ==> s.socketRef == Some(i))
    && (forall i :: 0 <= i < |s.sockets| ==> s.sockets[i].url == Endpoint(s.sessionId))
    && (forall i :: 0 <= i < |s.sockets| ==> s.sockets[i].readyState != Closing)
    && (forall k :: 0 <= k < |s.sent| ==> s.sent[k].socket < |s.sockets|)
  }

  // ------------------------------------------------------------ connecting

  /** Connecting never creates a second socket: an event adds a socket only
      when it is a click while idle with no handle held, and at that moment
      no earlier socket is connecting or open. The new socket targets the
      session's endpoint. */
  lemma NewSocketOnlyWhenNoneLive(s: Snap, ev: Event)
    requires Inv(s) && |Step(s, ev).sockets| != |s.sockets|
    ensures ev.UserClick? && s.buttonState == IDLE && s.socketRef.None?
    ensures Step(s, ev).sockets == s.sockets + [WebSocket(Endpoint(s.sessionId), Connecting)]
    ensures forall i :: 0 <= i < |s.sockets| ==> !Live(s.sockets[i].readyState)
  {
  }

  /** Clicks alone never leave `idle`: the first one connects, every later
      one changes nothing, and no frame is sent. The state becomes `ready`
      only when the socket's open event arrives. */
  lemma {:induction false} ClicksAloneStayIdle(s: Snap, evs: seq<Event>)
    requires Wf(s) && s.buttonState == IDLE
    requires forall k :: 0 <= k < |evs| ==> evs[k] == UserClick
    ensures evs == [] ==> Run(s, evs) == s
    ensures evs != [] ==> Run(s, evs) == Connect(s)
    ensures Run(s, evs).buttonState == IDLE && Run(s, evs).sent == s.sent
    decreases |evs|
  {
    if evs != [] {
      assert Step(s, evs[0]) == Connect(s);
      ClicksAloneStayIdle(Connect(s), evs[1..]);
      assert Step(Connect(s), UserClick) == Connect(s);
    }
  }

  /** While mounted, every socket callback that fires comes from the held
      socket, so the handlers of older sockets never run. An open event makes
      that socket open and the session ready. */
  lemma SocketEventsComeFromHeldSocket(s: Snap, ev: Event)
    requires Inv(s) && Fires(s, ev)
    requires ev.SocketOpened? || ev.SocketMessage? || ev.SocketError? || ev.SocketClosed?
    ensures s.socketRef == Some(ev.id)
    ensures ev.SocketOpened? ==>
      && Step(s, ev).buttonState == READY
      && Step(s, ev).sockets[ev.id].readyState == Open
      && Step(s, ev).socketRef == Some(ev.id)
  {
    assert Live(s.sockets[ev.id].readyState);
  }

  /** The state becomes `ready` only through a socket opening, a server
      message or a recogniser error, never through a click. */
  lemma ReadyOnlyThroughCallbacks(s: Snap, ev: Event)
    requires Wf(s) && s.buttonState != READY && Step(s, ev).buttonState == READY
    ensures ev.SocketOpened? || ev.SocketMessage? || ev.RecognitionFailed?
  {
  }

  // --------------------------------------------------------------- clicks

  /** With a recogniser and no pass running, three clicks from `ready` go to
      `listening`, then `processing`, and the third changes nothing. The
      recogniser gets one `start` and one `stop`; no frame is sent and the
      socket is untouched. */
  lemma ClickCycle(s: Snap)
    requires Inv(s) && s.buttonState == READY && s.recognitionSupported && !s.recognizing
    ensures var l := Step(s, UserClick);
      var p := Step(l, UserClick);
      && l.buttonState == LISTENING && l.recognizing
      && p.buttonState == PROCESSING
      && p.recognizerCalls == s.recognizerCalls + [Start, Stop]
      && p.sent == s.sent && p.sockets == s.sockets && p.socketRef == s.socketRef
      && ClickError(p) == None && Step(p, UserClick) == p
  {
  }

  /** A new recognition pass is started only from `ready` and only when none
      is running, so at most one pass runs at a time. */
  lemma StartOnlyWhenNoPassRuns(s: Snap, ev: Event)
    requires Wf(s)
    ensures Step(s, ev).recognizerCalls == s.recognizerCalls + [Start] ==>
      && ev.UserClick? && s.buttonState == READY && !s.recognizing
      && Step(s, ev).recognizing && Step(s, ev).buttonState == LISTENING
  {
    if Fires(s, ev) && ev.UserClick? && s.buttonState == LISTENING {
      assert (s.recognizerCalls + [Stop])[|s.recognizerCalls|] == Stop;
    }
  }

  /** `processing` is left only by a socket callback (open, message, error,
      close) or a recogniser error: clicks, results and the end of the pass
      keep it. */
  lemma ProcessingLeftOnlyByCallbacks(s: Snap, ev: Event)
    requires Wf(s) && s.buttonState == PROCESSING && Step(s, ev).buttonState != PROCESSING
    ensures ev.SocketOpened? || ev.SocketMessage? || ev.SocketError? || ev.SocketClosed? || ev.RecognitionFailed?
  {
  }

  /** Where the browser has no recogniser: the component is only ever idle
      or ready, no pass ever runs, no recogniser call and no frame is ever
      made, and every click while ready throws `TypeError`. */
  predicate WithoutRecognizer(s: Snap)
  {
    && !s.recognitionSupported && !s.recognizing && s.recognizerCalls == [] && s.sent == []
    && (s.buttonState == IDLE || s.buttonState == READY)
  }

  lemma {:induction false} NoRecognizerNoConversation(s: Snap, evs: seq<Event>)
    requires Inv(s) && WithoutRecognizer(s)
    ensures WithoutRecognizer(Run(s, evs))
    ensures Run(s, evs).buttonState == READY ==> ClickError(Run(s, evs)) == Some(TypeError)
    decreases |evs|
  {
    if evs != [] {
      StepPreservesInv(s, evs[0]);
      NoRecognizerNoConversation(Step(s, evs[0]), evs[1..]);
    }
  }

  // -------------------------------------------------------- recognition

  /** Any run of interim results only overwrites the transcript, ending with
      the last one's text; nothing else changes. */
  lemma {:induction false} InterimResultsOnlyTouchTranscript(s: Snap, evs: seq<Event>)
    requires Wf(s) && s.recognizing && evs != []
    requires forall k :: 0 <= k < |evs| ==> evs[k].RecognitionResult? && !evs[k].isFinal
    ensures Run(s, evs) == s.(transcript := evs[|evs| - 1].text)
    decreases |evs|
  {
    var t := Step(s, evs[0]);
    assert t == s.(transcript := evs[0].text);
    if |evs| > 1 {
      InterimResultsOnlyTouchTranscript(t, evs[1..]);
    } else {
      assert Run(t, evs[1..]) == t;
    }
  }

  /** A final result while listening on an open socket sends exactly one
      frame with its text and moves to `processing`. The handler has no state
      guard: a further final result before the reply sends one more frame. */
  lemma FinalResultWhileListening(s: Snap, text: string, again: string)
    requires Inv(s) && s.buttonState == LISTENING && s.recognizing
    requires s.socketRef.Some? && s.sockets[s.socketRef.value].readyState == Open
    ensures var r := Step(s, RecognitionResult(text, true));
      && r.sent == s.sent + [Frame(s.socketRef.value, MessageJson(text))]
      && r.buttonState == PROCESSING && r.transcript == text
      && Step(r, RecognitionResult(again, true)).sent == r.sent + [Frame(s.socketRef.value, MessageJson(again))]
  {
  }

  /** The stale `onend`: listening with a pass running, the pass ends and the
      state stays `listening`. A click then only logs `stop`, which finds no
      pass, and moves to `processing` without sending anything; from there only
      a socket callback can move on, since no pass runs. */
  lemma StaleEndLeavesListening(s: Snap)
    requires Inv(s) && s.buttonState == LISTENING && s.recognizing && s.recognitionSupported
    ensures var e := Step(s, RecognitionEnded);
      var c := Step(e, UserClick);
      && e.buttonState == LISTENING && !e.recognizing
      && c.buttonState == PROCESSING && c.recognizerCalls == s.recognizerCalls + [Stop]
      && c.sent == s.sent && !c.recognizing
      && forall ev :: Step(c, ev).buttonState != PROCESSING ==>
           ev.SocketOpened? || ev.SocketMessage? || ev.SocketError? || ev.SocketClosed?
  {
  }

  // -------------------------------------------------------------- sending

  /** In one step, a frame is sent only for a final recognition result, on
      the held socket, while it is open, and carrying that result's text. */
  lemma StepSendsOnlyFinalResultWhileOpen(s: Snap, ev: Event)
    requires Wf(s)
    ensures var r := Step(s, ev);
      r.sent == s.sent ||
      (&& ev.RecognitionResult? && ev.isFinal
       && s.socketRef.Some? && s.sockets[s.socketRef.value].readyState == Open
       && r.sent == s.sent + [Frame(s.socketRef.value, MessageJson(ev.text))])
  {
  }

  /** Whatever events arrive after mounting, every frame sent went to a
      socket this component created for its own session endpoint. */
  lemma ReachableFramesTargetSession(sessionId: nat, recognitionSupported: bool, evs: seq<Event>)
    ensures var r := Run(Mount(sessionId, recognitionSupported), evs);
      forall k :: 0 <= k < |r.sent| ==>
        r.sent[k].socket < |r.sockets| && r.sockets[r.sent[k].socket].url == Endpoint(sessionId)
  {
    MountSatisfiesInv(sessionId, recognitionSupported);
    RunPreservesInv(Mount(sessionId, recognitionSupported), evs);
  }

  // --------------------------------------------------------- server input

  /** In one step, a speak request is issued only for a server message, and
      it is that message's text. */
  lemma StepSpeaksOnlyServerMessages(s: Snap, ev: Event)
    requires Wf(s)
    ensures var r := Step(s, ev);
      r.spoken == s.spoken ||
      (ev.SocketMessage? && r.spoken == s.spoken + [ev.text] && r.serverResponse == ev.text
       && r.buttonState == READY)
  {
  }

  /** A server message forces `ready` even while listening, with the pass
      still running: the reply is spoken, and the next click throws
      `InvalidStateError` from `start()` and changes nothing. */
  lemma ServerMessageWhileListeningBlocksStart(sessionId: nat, heard: string, reply: string)
    ensures var r := Run(Mount(sessionId, true),
                         [UserClick, SocketOpened(0), UserClick, SocketMessage(0, reply)]);
      && r.buttonState == READY && r.recognizing
      && r.spoken == [reply] && r.serverResponse == reply && r.sent == []
      && ClickError(r) == Some(InvalidStateError)
      && Step(r, UserClick) == r
  {
    var s0 := Mount(sessionId, true);
    var evs := [UserClick, SocketOpened(0), UserClick, SocketMessage(0, reply)];
    RunOfFour(s0, evs);
  }

  /** A socket closing while listening, then a recogniser error, leaves the
      session `ready` ("Hablar") with no socket: the next pass runs, but its
      final result sends nothing. */
  lemma ReadyWithoutSocket(sessionId: nat, heard: string)
    ensures var r := Run(Mount(sessionId, true),
                         [UserClick, SocketOpened(0), UserClick, SocketClosed(0)]);
      var f := Step(r, RecognitionFailed);
      var n := Step(Step(f, RecognitionEnded), UserClick);
      var d := Step(n, RecognitionResult(heard, true));
      && f.buttonState == READY && f.socketRef == None && ButtonText(f.buttonState) == "Hablar"
      && n.buttonState == LISTENING
      && d.buttonState == PROCESSING && d.sent == []
  {
    var s0 := Mount(sessionId, true);
    var evs := [UserClick, SocketOpened(0), UserClick, SocketClosed(0)];
    RunOfFour(s0, evs);
  }

  /** A run of four events is four steps. */
  lemma RunOfFour(s: Snap, evs: seq<Event>)
    requires Wf(s) && |evs| == 4
    ensures Run(s, evs) == Step(Step(Step(Step(s, evs[0]), evs[1]), evs[2]), evs[3])
  {
    var s1 := Step(s, evs[0]);
    var s2 := Step(s1, evs[1]);
    var s3 := Step(s2, evs[2]);
    var s4 := Step(s3, evs[3]);
    assert evs[1..][1..] == evs[2..];
    assert evs[2..][1..] == evs[3..];
    assert evs[3..][1..] == [];
    assert Run(s3, evs[3..]) == s4;
    assert Run(s2, evs[2..]) == s4;
    assert Run(s1, evs[1..]) == s4;
  }

  // -------------------------------------------------------------- teardown

  /** A socket error leaves the session idle, showing "Conectar", but keeps
      the handle: a click then does nothing until the close event arrives. */
  lemma SocketErrorBlocksReconnect(s: Snap, id: nat)
    requires Inv(s) && Fires(s, SocketError(id))
    ensures var e := Step(s, SocketError(id));
      && e.buttonState == IDLE && ButtonText(e.buttonState) == "Conectar"
      && e.socketRef == Some(id)
      && Step(e, UserClick) == e
  {
    SocketEventsComeFromHeldSocket(s, SocketError(id));
  }

  /** A socket close leaves the session idle with no handle and no socket
      connecting or open; the next click creates exactly one fresh socket to
      the session's endpoint and holds it. */
  lemma SocketCloseAllowsReconnect(s: Snap, id: nat)
    requires Inv(s) && Fires(s, SocketClosed(id))
    ensures var c := Step(s, SocketClosed(id));
      && c.buttonState == IDLE && c.socketRef == None
      && (forall i :: 0 <= i < |c.sockets| ==> !Live(c.sockets[i].readyState))
      && Step(c, UserClick).sockets == c.sockets + [WebSocket(Endpoint(s.sessionId), Connecting)]
      && Step(c, UserClick).socketRef == Some(|c.sockets|)
  {
    SocketEventsComeFromHeldSocket(s, SocketClosed(id));
  }

  /** Without a socket, disconnecting only sets `idle`; with one, it closes
      it and drops the handle; and doing it twice is doing it once. */
  lemma DisconnectIdempotent(s: Snap)
    requires Wf(s)
    ensures s.socketRef.None? ==> Disconnect(s) == s.(buttonState := IDLE)
    ensures Disconnect(s).socketRef == None && Disconnect(s).buttonState == IDLE
    ensures Disconnect(Disconnect(s)) == Disconnect(s)
  {
  }

  /** In a reachable state, disconnecting leaves no socket connecting or open. */
  lemma DisconnectLeavesNoLiveSocket(s: Snap)
    requires Inv(s)
    ensures forall i :: 0 <= i < |Disconnect(s).sockets| ==> !Live(Disconnect(s).sockets[i].readyState)
  {
  }

  // ------------------------------------------------------------ invariant

  lemma MountSatisfiesInv(sessionId: nat, recognitionSupported: bool)
    ensures Inv(Mount(sessionId, recognitionSupported))
    ensures Mount(sessionId, recognitionSupported).buttonState == IDLE
    ensures Mount(sessionId, recognitionSupported).socketRef == None
  {
  }

  /** Every dispatched event keeps the invariant. */
  lemma StepPreservesInv(s: Snap, ev: Event)
    requires Inv(s)
    ensures Inv(Step(s, ev))
    ensures Step(s, ev).sessionId == s.sessionId
  {
  }

  /** Every sequence of events keeps the invariant. */
  lemma {:induction false} RunPreservesInv(s: Snap, evs: seq<Event>)
    requires Inv(s)
    ensures Inv(Run(s, evs))
    ensures Run(s, evs).sessionId == s.sessionId
    decreases |evs|
  {
    if evs != [] {
      StepPreservesInv(s, evs[0]);
      RunPreservesInv(Step(s, evs[0]), evs[1..]);
    }
  }

  /** In any state the invariant holds in, at most one socket is connecting
      or open. */
  lemma AtMostOneLiveSocket(s: Snap)
    requires Inv(s)
    ensures forall i, j ::
      (0 <= i < |s.sockets| && 0 <= j < |s.sockets| &&
       Live(s.sockets[i].readyState) && Live(s.sockets[j].readyState)) ==> i == j
  {
  }

  /** Whatever events arrive after mounting: the state is one of the four
      known values (so the click handler never reaches its disconnect branch
      and the label maps never their fallback), at most one socket is
      connecting or open and it is the held one, and every socket targets the
      same session endpoint. */
  lemma ReachableStates(sessionId: nat, recognitionSupported: bool, evs: seq<Event>)
    ensures var r := Run(Mount(sessionId, recognitionSupported), evs);
      && IsKnown(r.buttonState)
      && (forall i :: 0 <= i < |r.sockets| && Live(r.sockets[i].readyState) ==> r.socketRef == Some(i))
      && (forall i :: 0 <= i < |r.sockets| ==> r.sockets[i].url == WsUrl(HOST, PORT, sessionId, CONVERSATION_ID))
  {
    MountSatisfiesInv(sessionId, recognitionSupported);
    RunPreservesInv(Mount(sessionId, recognitionSupported), evs);
  }

  // ----------------------------------------------------------- effect logs

  /** The number of final recognition results among `evs`. */
  function FinalResults(evs: seq<Event>): nat
  {
    if evs == [] then 0
    else (if evs[0].RecognitionResult? && evs[0].isFinal then 1 else 0) + FinalResults(evs[1..])
  }

  /** The number of server messages among `evs`. */
  function ServerMessages(evs: seq<Event>): nat
  {
    if evs == [] then 0
    else (if evs[0].SocketMessage? then 1 else 0) + ServerMessages(evs[1..])
  }

  /** Over any run, frames and speak requests are only ever appended, at
      most one frame is sent per final result and at most one speak request
      is issued per server message. */
  lemma {:induction false} EffectsPerEvent(s: Snap, evs: seq<Event>)
    requires Wf(s)
    ensures var r := Run(s, evs);
      && s.sent <= r.sent && |r.sent| <= |s.sent| + FinalResults(evs)
      && s.spoken <= r.spoken && |r.spoken| <= |s.spoken| + ServerMessages(evs)
    decreases |evs|
  {
    if evs != [] {
      StepSendsOnlyFinalResultWhileOpen(s, evs[0]);
      StepSpeaksOnlyServerMessages(s, evs[0]);
      EffectsPerEvent(Step(s, evs[0]), evs[1..]);
    }
  }

  /** The usual turn: click, the socket opens, click, a final result. One
      frame with the heard text goes out on the first socket and the session
      waits in `processing`; the server's reply is spoken and makes it ready. */
  lemma HappyPath(sessionId: nat, heard: string, reply: string)
    ensures var r := Run(Mount(sessionId, true),
                         [UserClick, SocketOpened(0), UserClick, RecognitionResult(heard, true)]);
      && r.sent == [Frame(0, MessageJson(heard))]
      && r.buttonState == PROCESSING
      && r.transcript == heard
      && Step(r, SocketMessage(0, reply)).spoken == [reply]
      && Step(r, SocketMessage(0, reply)).buttonState == READY
  {
    var s0 := Mount(sessionId, true);
    var s1 := Step(s0, UserClick);
    var s2 := Step(s1, SocketOpened(0));
    var s3 := Step(s2, UserClick);
    var s4 := Step(s3, RecognitionResult(heard, true));
    var evs := [UserClick, SocketOpened(0), UserClick, RecognitionResult(heard, true)];
    assert Run(s4, []) == s4;
    assert Run(s3, evs[3..]) == s4;
    assert Run(s2, evs[2..]) == s4 by { assert evs[2..][1..] == evs[3..]; }
    assert Run(s1, evs[1..]) == s4 by { assert evs[1..][1..] == evs[2..]; }
    assert Run(s0, evs) == s4;
  }
}
