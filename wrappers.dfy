/** The two failure-carrying shapes the model uses: an optional value and a
    value-or-error result whose error is the message of the thrown Error. */
module Wrappers {

  datatype Option<+T> = None | Some(value: T)

  datatype Result<+T> = Ok(value: T) | Err(message: string)

  /** JavaScript truthiness of `string | undefined`: present and non-empty. */
  predicate Truthy(s: Option<string>) {
    s.Some? && s.value != ""
  }
}
