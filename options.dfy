/** Optional values and results with an error, for JavaScript's `null`/`undefined` and thrown errors. */
module Options {

  /**
   * `None` stands for an absent value: `null` or `undefined` where the code tests
   * truthiness, and `undefined` only where it tests `typeof … === "undefined"`.
   */
  datatype Option<+T> = None | Some(value: T)

  /** `Err` stands for an exception thrown by the call. */
  datatype Result<+T, +E> = Ok(value: T) | Err(error: E)
}
