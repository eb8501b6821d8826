/** Small shared types. */
module Basics {
  datatype Option<+T> = None | Some(value: T)

  datatype Result<+T> = Ok(value: T) | Err

  newtype byte = x: int | 0 <= x < 256

  type Bytes = seq<byte>
}
