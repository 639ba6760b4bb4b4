/** Python runtime notions the preprocessor relies on: optional values,
    the exceptions that can escape it, and the text form of a bool. */
module Python {

  datatype Option<+T> = None | Some(value: T)

  /** The outcome of a Python call: a value, or the exception it raised. */
  datatype Result<+T> = Ok(value: T) | Err(error: PyError)

  /** The exceptions that can escape the preprocessor. */
  datatype PyError =
    | ValueError(message: string)  // a model path without a dot, or an empty module name
    | TypeError                    // `in` or `[...]` on a JSON value without them; a relative module name; `model_dump` on a class
    | AttributeError               // `.get` on a non-object configuration; `__fields__` on a non-model; `model_dump` on a list

  /** `str(b)` for a Python bool. */
  function BoolString(b: bool): (r: string)
    ensures b <==> r == "True"
    ensures !b <==> r == "False"
  {
    if b then "True" else "False"
  }
}
