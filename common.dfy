/** Types shared by every part of the model. */
module Common {

  /** An unsigned 8-bit value (Swift's UInt8). */
  type Byte = x: int | 0 <= x < 256

  /** The conventional Some/None datatype, used for Swift optionals and failed conversions. */
  datatype Option<+T> = None | Some(value: T)

  /** The 8-byte beacon nonce that the broadcaster draws and the scanner extracts. */
  type Nonce = s: seq<Byte> | |s| == 8 witness [0, 0, 0, 0, 0, 0, 0, 0]
}
