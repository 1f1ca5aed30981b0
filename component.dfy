/** The voice button component as an object whose handlers update its fields
    in place. Each handler is specified by the transition of module Session it
    performs on the snapshot `View()`; the properties of those transitions are
    proved in SessionProperties. */
module Component {
  import opened Wrappers
  import opened ButtonStates
  import Session

  class VoiceButton {
    // the component's state
    var buttonState: string
    var transcript: string
    var serverResponse: string
    /** `socketRef.current`: the index of the held socket, or null. */
    var socketRef: Option<nat>
    /** `sessionId`, fixed at mount (its clock value is opaque here). */
    const sessionId: nat
    /** Whether the browser offered a recogniser at mount (`recognition` is not null). */
    const recognitionSupported: bool
    /** The `buttonState` the recogniser's `onend` closure captured at mount. */
    const stateAtMount: string

    // the collaborators' state, as far as the handlers depend on it
    /** Every WebSocket this component created, in creation order. */
    var sockets: seq<Session.WebSocket>
    /** Whether a recognition pass is running. */
    var recognizing: bool

    // the effects issued so far
    var sent: seq<Session.Frame>
    var spoken: seq<string>
    var recognizerCalls: seq<Session.RecognizerCall>

    function View(): Session.Snap
      reads this
    {
      Session.Snap(buttonState, transcript, serverResponse, socketRef, sessionId,
                   recognitionSupported, stateAtMount, sockets, recognizing,
                   sent, spoken, recognizerCalls)
    }

    ghost predicate Valid()
      reads this
    {
      Session.Wf(View())
    }

    /** Mounting: `idle`, empty texts, no socket. */
    constructor (sessionId: nat, recognitionSupported: bool)
      ensures Valid() && View() == Session.Mount(sessionId, recognitionSupported)
    {
      buttonState, transcript, serverResponse := IDLE, "", "";
      socketRef := None;
      this.sessionId := sessionId;
      this.recognitionSupported := recognitionSupported;
      stateAtMount := IDLE;
      sockets, recognizing := [], false;
      sent, spoken, recognizerCalls := [], [], [];
    }

    method ConnectWebSocket()
      requires Valid()
      modifies this
      ensures Valid() && View() == Session.Connect(old(View()))
      ensures old(socketRef).Some? ==> unchanged(this)
      ensures |sockets| <= old(|sockets|) + 1
    {
      if socketRef.Some? {
        return;
      }
      sockets := sockets + [Session.WebSocket(Session.Endpoint(sessionId), Session.Connecting)];
      socketRef := Some(|sockets| - 1);
    }

    /** Socket `id` opens; its `onopen` handler runs. */
    method OnOpen(id: nat)
      requires Valid() && id < |sockets| && sockets[id].readyState == Session.Connecting
      modifies this
      ensures Valid() && View() == Session.OnOpen(old(View()), id)
      ensures buttonState == READY
    {
      sockets := sockets[id := sockets[id].(readyState := Session.Open)];
      buttonState := READY;
    }

    /** A text frame arrives on socket `id`; its `onmessage` handler runs. */
    method OnMessage(id: nat, response: string)
      requires Valid() && id < |sockets| && sockets[id].readyState == Session.Open
      modifies this
      ensures Valid() && View() == Session.OnMessage(old(View()), id, response)
      ensures spoken == old(spoken) + [response] && buttonState == READY
    {
      serverResponse := response;
      SpeakServerResponse(response);
      buttonState := READY;
    }

    /** `speakServerResponse`: one request to the speech synthesiser. */
    method SpeakServerResponse(text: string)
      modifies this`spoken
      ensures spoken == old(spoken) + [text]
    {
      spoken := spoken + [text];
    }

    /** The `onerror` handler of socket `id`. */
    method OnSocketError(id: nat)
      requires Valid() && id < |sockets| && sockets[id].readyState != Session.Closed
      modifies this
      ensures Valid() && View() == Session.OnSocketError(old(View()), id)
      ensures buttonState == IDLE && socketRef == old(socketRef)
    {
      buttonState := IDLE;
    }

    /** Socket `id` closes; its `onclose` handler runs. */
    method OnClose(id: nat)
      requires Valid() && id < |sockets| && sockets[id].readyState != Session.Closed
      modifies this
      ensures Valid() && View() == Session.OnClose(old(View()), id)
      ensures buttonState == IDLE && socketRef == None
    {
      sockets := sockets[id := sockets[id].(readyState := Session.Closed)];
      buttonState := IDLE;
      socketRef := None;
    }

    method DisconnectWebSocket()
      requires Valid()
      modifies this
      ensures Valid() && View() == Session.Disconnect(old(View()))
      ensures buttonState == IDLE && socketRef == None
    {
      if socketRef.Some? {
        var id := socketRef.value;
        if sockets[id].readyState == Session.Connecting || sockets[id].readyState == Session.Open {
          sockets := sockets[id := sockets[id].(readyState := Session.Closing)];
        }
        socketRef := None;
      }
      buttonState := IDLE;
    }

    method SendMessageToServer(message: string)
      requires Valid()
      modifies this
      ensures Valid() && View() == Session.SendMessage(old(View()), message)
      ensures |sent| <= old(|sent|) + 1
    {
      if socketRef.Some? && sockets[socketRef.value].readyState == Session.Open {
        sent := sent + [Session.Frame(socketRef.value, Session.MessageJson(message))];
      }
    }

    /** The recogniser reports a result; its `onresult` handler runs. */
    method OnResult(text: string, isFinal: bool)
      requires Valid() && recognizing
      modifies this
      ensures Valid() && View() == Session.OnResult(old(View()), text, isFinal)
      ensures transcript == text
    {
      transcript := text;
      if isFinal {
        SendMessageToServer(text);
        buttonState := PROCESSING;
      }
    }

    /** The recognition pass ends; the `onend` handler runs. */
    method OnEnd()
      requires Valid() && recognizing
      modifies this
      ensures Valid() && View() == Session.OnEnd(old(View()))
      ensures !recognizing
    {
      recognizing := false;
      if stateAtMount == LISTENING {
        buttonState := PROCESSING;
      }
    }

    /** The recogniser fails; its `onerror` handler runs. */
    method OnRecognitionError()
      requires Valid() && recognizing
      modifies this
      ensures Valid() && View() == Session.OnRecognitionError(old(View()))
      ensures buttonState == READY
    {
      buttonState := READY;
    }

    /** `handleButtonClick`; `error` is the exception it throws, if any. */
    method HandleButtonClick() returns (error: Option<Session.JsError>)
      requires Valid()
      modifies this
      ensures Valid() && View() == Session.Click(old(View()))
      ensures error == Session.ClickError(old(View()))
    {
      error := None;
      if buttonState == IDLE {
        ConnectWebSocket();
      } else if buttonState == READY {
        if !recognitionSupported {
          return Some(Session.TypeError);
        }
        if recognizing {
          return Some(Session.InvalidStateError);
        }
        recognizerCalls, recognizing := recognizerCalls + [Session.Start], true;
        buttonState := LISTENING;
      } else if buttonState == LISTENING {
        if !recognitionSupported {
          return Some(Session.TypeError);
        }
        recognizerCalls := recognizerCalls + [Session.Stop];
        buttonState := PROCESSING;
      } else if buttonState == PROCESSING {
        // waiting for the server's reply
      } else {
        DisconnectWebSocket();
      }
    }
  }
}
