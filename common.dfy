/** Values shared by every module: optional values, results with an error, and raw bytes. */
module Common {

  datatype Option<T> = None | Some(value: T)

  /** The (value, error) pair that Go functions return, as one value. */
  datatype Result<T, E> = Ok(value: T) | Err(error: E)

  newtype byte = b: int | 0 <= b < 256

  /** File contents and API replies: opaque bytes. */
  type Bytes = seq<byte>
}
