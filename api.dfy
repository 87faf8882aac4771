/** Optional values: stands in for Kotlin's nullable types (`String?`). */
module Wrappers {
  datatype Option<+T> = None | Some(value: T)
}

/**
 * The values exchanged with the tutoring service: the data classes of
 * ApiData.kt and the outcome of one asynchronous call.
 */
module Api {

  /** One entry of the conversation, in the chat-completion format: role "user" or "assistant". */
  datatype Message = Message(role: string, content: string)

  /**
   * What one ask-question call carries: the request body (the code context and
   * the whole conversation so far) and the two path parameters.
   */
  datatype Question = Question(code: string, context: seq<Message>, exerciseName: string, moduleName: string)

  /**
   * How one asynchronous call resolves: a 2xx response with its decoded body,
   * a response with a non-2xx status, or a transport failure (no response).
   */
  datatype Response<T> = Ok(body: T) | ServerError | NetworkFailure

  /** The role strings the panel writes into the log. */
  const UserRole := "user"
  const AssistantRole := "assistant"
}
