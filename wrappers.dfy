/** Option, Result and Checked: the shapes a field validator or a store statement answers with. */
module Wrappers {

  datatype Option<+T> = None | Some(value: T)

  /** A store statement either yields a value or raises with the driver's message. */
  datatype Result<+T> = Ok(value: T) | Err(msg: string)

  /**
   * What a field validator returns: a usable value (a documented sentinel when the input is
   * rejected) and the reason for the rejection, if any.
   */
  datatype Checked<+T> = Checked(value: T, reason: Option<string>)
}
