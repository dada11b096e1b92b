/** Shared vocabulary of the model: bytes, the erased-cell fill value and an option type. */
module Bytes {

  /** One byte of a `bytearray` or of a bus sample. */
  type Byte = x: int | 0 <= x < 256

  /** The value of an erased, never observed cell (`FLASH_FILL_BYTE`). */
  const FILL: Byte := 0xFF

  datatype Option<+T> = None | Some(value: T)
}
