/** Types shared by every part of the model. */
module Prelude {

  datatype Option<+T> = None | Some(value: T)

  /** One octet of a socket, a file or a memory buffer. */
  type Byte = b: int | 0 <= b < 256

  predicate StartsWith(s: string, prefix: string) {
    prefix <= s
  }
}
