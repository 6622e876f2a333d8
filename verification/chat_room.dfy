/** The chat-room list screen's view-model: the live room list, and the id of a
    freshly created room. */
module ChatRooms {
  import opened KotlinRuntime
  import opened Responses
  import opened Dispatch
  import opened Models

  datatype ChatRoomState = ChatRoomState(
    chatRooms: seq<ChatRoom>,
    loading: bool,
    errorMsg: Option<string>,
    newChatId: Option<string>,
    currentUse: Option<FirebaseUser>)

  /** `ChatRoomState()`. */
  const InitialState: ChatRoomState := ChatRoomState([], false, None, None, None)

  /** The handlers `initChatRoom` passes to `collectAndHandle`. */
  function ChatRoomHandlers(): Handlers<ChatRoomState, seq<ChatRoom>> {
    Handlers(
      (st: ChatRoomState, e) => Done(st.(errorMsg := MessageOf(e), loading := false)),
      (st: ChatRoomState) => Done(st.(errorMsg := None, loading := true)),
      (st: ChatRoomState, rooms) => Done(st.(chatRooms := rooms, errorMsg := None, loading := false)))
  }

  /** `initChatRoom` over one run of the room-list listener; a `Threw` result is a
      producer exception that escapes the coroutine. */
  function InitChatRoom(s: ChatRoomState, run: Emissions<seq<ChatRoom>>): (r: Step<ChatRoomState>)
    ensures r.Threw? <==> run.failure.Some?
    ensures r.state.newChatId == s.newChatId && r.state.currentUse == s.currentUse
  {
    ChatRoomResponses(s, run.items);
    CollectAndHandle(ChatRoomHandlers(), s, run)
  }

  /** After the room-list responses: the list is the last `Success`'s list (or the
      old one), and the last response alone decides the spinner and the message:
      `Loading` shows the spinner and clears the message, `Error` hides it and
      shows the error's message, `Success` hides it and clears the message. */
  lemma {:induction false} ChatRoomResponses(st: ChatRoomState, rs: seq<Response<seq<ChatRoom>>>)
    ensures CollectAll(ChatRoomHandlers(), st, rs).Done?
    ensures var out := CollectAll(ChatRoomHandlers(), st, rs).state;
            && out.chatRooms == LastSuccess(rs).GetOr(st.chatRooms)
            && out.newChatId == st.newChatId && out.currentUse == st.currentUse
            && (|rs| == 0 ==> out == st)
            && (|rs| > 0 ==>
                  && out.loading == rs[|rs| - 1].Loading?
                  && out.errorMsg == (if rs[|rs| - 1].Error? then MessageOf(rs[|rs| - 1].throwable) else None))
    decreases |rs|
  {
    if |rs| > 0 {
      var init, last := rs[..|rs| - 1], rs[|rs| - 1];
      assert rs == init + [last];
      ChatRoomResponses(st, init);
      CollectAllSnoc(ChatRoomHandlers(), st, init, last);
    }
  }

  /** `resetChatId`. */
  function ResetChatId(s: ChatRoomState): (r: ChatRoomState)
    ensures r.newChatId.None? && r.(newChatId := s.newChatId) == s
  {
    s.(newChatId := None)
  }

  /** `newChatRoom`, given the id the repository returned for the new room (null
      when it could not be created). */
  function NewChatRoom(s: ChatRoomState, createdId: Option<string>): (r: ChatRoomState)
    ensures r.newChatId == createdId && r.(newChatId := s.newChatId) == s
  {
    s.(newChatId := createdId)
  }

  /** Creating a room and then resetting the id restores the state before the creation,
      apart from a pending id, which the reset clears. */
  lemma ResetUndoesNewChatRoom(s: ChatRoomState, createdId: Option<string>)
    ensures ResetChatId(NewChatRoom(s, createdId)) == ResetChatId(s)
  {
  }

  /** The view-model's subscription to the provider's current user. */
  function CurrentUserChanged(s: ChatRoomState, user: Option<FirebaseUser>): (r: ChatRoomState)
    ensures r.currentUse == user && r.(currentUse := s.currentUse) == s
  {
    s.(currentUse := user)
  }
}
