/** Values shared by every module of the model: Python's `None`, the
    reply a prompt loop takes from one line of console input, and the
    exceptions the core can raise. */
module Outcomes {

  /** A Python value that may be `None`. */
  datatype Option<T> = None | Some(value: T)

  /** What a prompt loop makes of one input line: it returns on `Accept`
      and prompts again on `Reject`. When the input runs out while every line
      was rejected, the loop's result is `Reject` as well. */
  datatype Answer<T> = Accept(value: T) | Reject

  /** The Python exceptions the modelled code raises. */
  datatype PyError =
    | KeyError(key: string)   // a dictionary lookup of a missing key
    | ValueError              // `max` of an empty list; unpacking the wrong number of items
    | TypeError               // unpacking `None`

  datatype Result<T> = Ok(value: T) | Err(error: PyError)

  /** Python truthiness of an optional string: `None` and `""` are falsy. */
  predicate Truthy(s: Option<string>) {
    s.Some? && s.value != ""
  }

  /** `str(x)` / `'{}'.format(x)` of an optional string. */
  function ShowOption(s: Option<string>): string {
    match s
    case None => "None"
    case Some(v) => v
  }
}
