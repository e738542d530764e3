/** Small value wrappers shared by the modules of the model. */
module Wrappers {

  /** A value that may be absent: JavaScript's `null`/`undefined`. */
  datatype Option<+T> = None | Some(value: T)

  /**
   * What an awaited database call hands back to the code that post-processes
   * it. `Failed` stands for both an `error` in the response and an exception
   * thrown by the call (every function of the model reacts to the two in the
   * same way); `Fetched(None)` is a response whose `data` is `null`.
   */
  datatype Fetch<+T> = Failed | Fetched(data: Option<T>)
}
