/** How a JavaScript evaluation ends: normally with a value, or abruptly with a
    thrown error. Rejected network requests are modelled by their own outcome
    types in the tick handler; the throws left here are those of reading the
    fetched response. */
module Completions {

  /** A value that may be absent: `None` stands for a JSON field that is missing,
      which reads as `undefined` at run time. */
  datatype Option<+T> = None | Some(value: T)

  /** A property read or method call on `undefined`. */
  datatype Thrown = TypeError

  datatype Completion<+T> = Normal(value: T) | Abrupt(error: Thrown)
}
