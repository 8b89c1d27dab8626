/** The two result shapes every other module shares. */
module Wrappers {

  /** A nullable column or an optional field. */
  datatype Option<+T> = None | Some(value: T)

  /** A value, or the exception the source throws in its place. */
  datatype Result<+T> = Ok(value: T) | Thrown(message: string)
}
