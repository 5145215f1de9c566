/** Small value types shared by every module of the model. */
module Common {

  /** A value that may be absent: JavaScript's `T | null`. */
  datatype Option<+T> = None | Some(value: T)

  /** The outcome of an operation that either yields a value or throws an `Error` with a message. */
  datatype Result<+T> = Ok(value: T) | Err(message: string)

  /** The outcome of a call that returns nothing useful: a resolved or a rejected `Promise<void>`. */
  datatype Status = Done | Failed(message: string)

  /** What a plugin read or a socket message hands back: some text, or a failure with a message. */
  type Reply = Result<string>

  /**
   * JavaScript's `err.message || 'Unknown error'`: an empty message is replaced by the fallback.
   */
  function MessageOr(message: string, fallback: string): (r: string)
    ensures r == message || r == fallback
    ensures r != "" || fallback == ""
    ensures message != "" ==> r == message
  {
    if message == "" then fallback else message
  }
}
