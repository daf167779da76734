/** What several modules use. */
module Prelude {
  datatype Option<T> = None | Some(value: T)

  type Byte = n: int | 0 <= n < 256
}
