module Bytes {
  newtype byte = b: int | 0 <= b < 256

  const BACKSPACE: byte := 8
  const NEWLINE: byte := 10
}
