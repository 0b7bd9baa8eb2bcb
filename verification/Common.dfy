/** Small shared datatypes. */
module Common {
  datatype Option<+T> = None | Some(value: T)

  /** The answer of an operation that may be refused; `code` is the error code of the refusal. */
  datatype Result<+T> = Ok(value: T) | Refused(code: string)
}
