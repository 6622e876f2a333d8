/** The records the repositories hand to the view-models. Identifiers and
    timestamps are inputs here: the application fills their defaults from a
    random UUID and the clock. */
module Models {
  import opened KotlinRuntime

  /** Who wrote a chat message. */
  datatype Participant = UserTurn | ModelTurn | ErrorTurn

  /** A timestamp, as seconds since the epoch. */
  type Timestamp = int

  datatype ChatMessage = ChatMessage(id: string, text: string, participant: Participant, timestamp: Timestamp)

  datatype ChatRoom = ChatRoom(id: string, title: string, timestamp: Timestamp, userId: string)

  /** The title a chat room gets when none is given. */
  const NewChatTitle: string := "New Chat"

  /** A chat room built with every default except the generated id and time. */
  function DefaultChatRoom(id: string, timestamp: Timestamp): (r: ChatRoom)
    ensures r.title == NewChatTitle && r.userId == ""
    ensures r.id == id && r.timestamp == timestamp
  {
    ChatRoom(id, NewChatTitle, timestamp, "")
  }

  /** The signed-in account as the authentication provider reports it. */
  datatype FirebaseUser = FirebaseUser(uid: string, email: Option<string>, isEmailVerified: bool)
}
