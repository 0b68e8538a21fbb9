/** Values shared by every service: optional values, the error kinds the
    services raise, and results that carry either a value or such an error. */
module Common {

  datatype Option<T> = None | Some(value: T) {
    /** `d.get(key, default)` once the lookup has been made. */
    function GetOr(default: T): T {
      match this
      case Some(v) => v
      case None => default
    }
  }

  /** The exceptions the core raises. `SessionNotFound`, `InvalidFileType` and
      `FileTooLarge` are the domain errors of `core/exceptions.py`; `StoreFailure`
      is the bare `Exception` raised when a store write reports failure;
      `Upstream` is a failure raised by a foreign pipeline (embedding,
      retrieval, generation, indexing). */
  datatype Error =
    | SessionNotFound(sessionId: string)
    | StoreFailure(detail: string)
    | InvalidFileType
    | FileTooLarge(limit: int)
    | Upstream(detail: string)

  datatype Result<T> = Ok(value: T) | Err(error: Error)

  /** One turn of a conversation, `{"role": ..., "content": ...}`, as the
      sessions store it and the chat history carries it. */
  datatype Message = Message(role: string, content: string)

  /** The content of an uploaded file. */
  type byte = bv8
}
