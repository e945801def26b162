/** The plain records read from the repository (src/data/model.rs). */
module Model {
  import opened Wrappers

  /** One row of the `v_chat_messages` view: a human message and, once the
      model has answered, the AI message attached to it. */
  datatype ChatMessagePair = ChatMessagePair(
    id: int,
    model: string,
    messageBlockId: int,
    chatId: int,
    humanMessage: string,
    aiMessage: Option<string>,
    blockRank: int,
    blockSize: int)

  /** The request-scoped user (the `User` row of src/main.rs); the password
      and creation time play no part in generation and are left out. */
  datatype User = User(id: int, email: string, openaiApiKey: Option<string>)
}
