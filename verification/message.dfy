/** The message screen's view-model: the live message list of one room, and
    sending a prompt to the model. */
module Messages {
  import opened KotlinRuntime
  import opened Responses
  import opened Dispatch
  import opened Models

  datatype ChatState = ChatState(
    messages: seq<ChatMessage>,
    isProcessingMessage: bool,
    currentUser: Option<FirebaseUser>)

  /** `ChatState()`: no messages, nothing in flight. */
  const InitialState: ChatState := ChatState([], false, None)

  /** `getMessages` passes only a `stateReducer`, which replaces the list. */
  function GetMessagesHandlers(): Handlers<ChatState, seq<ChatMessage>> {
    WithDefaults((st: ChatState, ms) => Done(st.(messages := ms)))
  }

  /** `getMessages` over one run of the message listener; a `Threw` result is a
      producer exception that escapes the coroutine. */
  function GetMessages(s: ChatState, run: Emissions<seq<ChatMessage>>): (r: Step<ChatState>)
    ensures r.Threw? <==> run.failure.Some?
    ensures r.state.messages == LastSuccess(run.items).GetOr(s.messages)
    ensures r.state.isProcessingMessage == s.isProcessingMessage && r.state.currentUser == s.currentUser
  {
    MessageListResponses(s, run.items);
    CollectAndHandle(GetMessagesHandlers(), s, run)
  }

  /** The list shown is the last `Success`'s list, or the old one when there was
      none; `Loading` and `Error` (default handlers) change nothing. */
  lemma {:induction false} MessageListResponses(st: ChatState, rs: seq<Response<seq<ChatMessage>>>)
    ensures CollectAll(GetMessagesHandlers(), st, rs) == Done(st.(messages := LastSuccess(rs).GetOr(st.messages)))
    decreases |rs|
  {
    if |rs| > 0 {
      var init, last := rs[..|rs| - 1], rs[|rs| - 1];
      assert rs == init + [last];
      MessageListResponses(st, init);
      CollectAllSnoc(GetMessagesHandlers(), st, init, last);
    }
  }

  /** The handlers `sendMessage` passes to `collectAndHandle`. */
  function SendMessageHandlers(): Handlers<ChatState, ()> {
    Handlers(
      (st: ChatState, e) => Done(st.(isProcessingMessage := false)),
      (st: ChatState) => Done(st.(isProcessingMessage := true)),
      (st: ChatState, _) => Done(st.(isProcessingMessage := false)))
  }

  /** `sendMessage` over one run of the send operation; a `Threw` result is a
      producer exception that escapes the coroutine. */
  function SendMessage(s: ChatState, run: Emissions<()>): (r: Step<ChatState>)
    ensures r.Threw? <==> run.failure.Some?
    ensures r.state.messages == s.messages && r.state.currentUser == s.currentUser
    ensures r.state.isProcessingMessage ==
              if |run.items| == 0 then s.isProcessingMessage else run.items[|run.items| - 1].Loading?
  {
    SendResponses(s, run.items);
    CollectAndHandle(SendMessageHandlers(), s, run)
  }

  /** Sending never touches the list; the in-flight flag is on exactly when the
      last response was a `Loading`. */
  lemma {:induction false} SendResponses(st: ChatState, rs: seq<Response<()>>)
    ensures CollectAll(SendMessageHandlers(), st, rs) ==
              Done(st.(isProcessingMessage := if |rs| == 0 then st.isProcessingMessage else rs[|rs| - 1].Loading?))
    decreases |rs|
  {
    if |rs| > 0 {
      var init, last := rs[..|rs| - 1], rs[|rs| - 1];
      assert rs == init + [last];
      SendResponses(st, init);
      CollectAllSnoc(SendMessageHandlers(), st, init, last);
    }
  }

  /** The view-model's subscription to the provider's current user. */
  function CurrentUserChanged(s: ChatState, user: Option<FirebaseUser>): (r: ChatState)
    ensures r.currentUser == user && r.(currentUser := s.currentUser) == s
  {
    s.(currentUser := user)
  }
}
