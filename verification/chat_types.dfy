/** The records the chat relay exchanges and stores, and the events it emits.
    Identities, socket ids, and message bodies are plain strings. */
module ChatTypes {

  /** A conversation stored by the relay. It is keyed by the ORDERED pair (receiver, sender). */
  datatype Chat = Chat(receiver: string, sender: string, messages: seq<string>)

  /** A binding from a user identity to the socket it joined on. */
  datatype User = User(id: string, socketId: string)

  /** The payload of an `add-message` event. */
  datatype Message = Message(receiver: string, sender: string, body: string)

  /** One entry of a `chat-list` answer: a chat projected to its sender and its log. */
  datatype ChatSummary = ChatSummary(sender: string, messages: seq<string>)

  datatype Option<T> = None | Some(value: T)

  /** Where an emission goes: one socket, or every connected socket. */
  datatype Target = ToSocket(socketId: string) | Broadcast

  datatype Payload =
    | JoinResponse(status: string)
    | ChatListResponse(chats: seq<ChatSummary>)
    | AddMessageResponse(message: Message)

  /** An outbound event: target, event name, payload. */
  datatype Emission = Emission(target: Target, name: string, payload: Payload)

  const JoinResponseName: string := "join-response"
  const ChatListResponseName: string := "chat-list-response"
  const AddMessageResponseName: string := "add-message-response"
  const JoinStatus: string := "Success!"

  /** The `{sender, messages}` projection that `chat-list` applies to each chat. */
  function Summary(c: Chat): ChatSummary
  {
    ChatSummary(c.sender, c.messages)
  }
}
