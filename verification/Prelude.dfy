/** What several modules share. */
module Prelude {
  datatype Option<+T> = None | Some(value: T)

  type Byte = b: int | 0 <= b < 256

  /** `Number.MAX_SAFE_INTEGER` */
  const MAX_SAFE: int := 9007199254740991
}
