/** The unsigned char of the firmware seen as a number, the type its time
    arithmetic, brightness and RTC registers work in. */
module Bytes {

  /** An unsigned char: 0..255. */
  type UInt8 = x: int | 0 <= x < 256
}
