/** The message shapes shared by the core: prompt messages sent to the model and stored roles. */
module ChatTypes {

  /** The `role` of a prompt message. */
  datatype Role = System | User | Assistant

  /** One prompt message: `{ role, content }`. */
  datatype ChatMessage = ChatMessage(role: Role, content: string)

  /** The stored `MessageRole` enumeration of the message table. */
  datatype StoredRole = USER | ASSISTANT

  /** A stored role as a prompt role: `USER` becomes `user`, anything else `assistant`. */
  function ChatRoleOf(r: StoredRole): (role: Role)
    ensures role == User <==> r == USER
    ensures role != System
  {
    if r == USER then User else Assistant
  }

  /** Where a message came in. */
  datatype Channel = Web | Telegram
}
