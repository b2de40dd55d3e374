/** The byte encoding of the DS1340 real-time clock registers
    (src/ds_1340.c, src/ds_1340.h): packed BCD and the register masks. The
    I2C transactions themselves are not modelled; only the bytes they carry. */
module Rtc {
  import opened Bytes

  /** The DS1340 bus address, written with the read/write bit clear. */
  const ADDR: UInt8 := 0xD0

  /** The register masks. Each is 2^k - 1, so x & mask keeps the low k bits,
      which for a byte is x % (mask + 1). */
  const SECONDS_MASK: UInt8 := 0x7F
  const MINUTES_MASK: UInt8 := 0x7F
  const HOURS_MASK: UInt8 := 0x3F

  function MaskLow(x: UInt8, mask: UInt8): (r: UInt8)
    requires mask == 0x7F || mask == 0x3F
    ensures r <= mask && r <= x
  {
    x % (mask + 1)
  }

  /** A byte whose two nibbles are both decimal digits. */
  predicate ValidBcd(b: UInt8) {
    b / 16 <= 9 && b % 16 <= 9
  }

  /** convert2bcd: tens in the high nibble, units in the low one; the sum is
      truncated to an unsigned char. */
  function ToBcd(d: UInt8): (r: UInt8)
    ensures d <= 99 ==> r / 16 == d / 10 && r % 16 == d % 10
    ensures d <= 99 ==> ValidBcd(r) && r <= 0x99
  {
    ((d / 10) * 16 + d % 10) % 256
  }

  /** convert2char: high nibble times ten plus low nibble; never above 165,
      so no truncation. */
  function FromBcd(b: UInt8): (r: UInt8)
    ensures r <= 165
    ensures ValidBcd(b) ==> r <= 99 && r / 10 == b / 16 && r % 10 == b % 16
  {
    (b / 16) * 10 + b % 16
  }

  /** Decoding an encoded number in 0..99 gives it back. */
  lemma FromToBcd(d: UInt8)
    requires d <= 99
    ensures FromBcd(ToBcd(d)) == d
  {
    var r := ToBcd(d);
    assert FromBcd(r) == (d / 10) * 10 + d % 10;
  }

  /** Encoding a decoded valid BCD byte gives it back. */
  lemma ToFromBcd(b: UInt8)
    requires ValidBcd(b)
    ensures ToBcd(FromBcd(b)) == b
  {
    var d := FromBcd(b);
    assert ToBcd(d) == (b / 16) * 16 + b % 16;
  }

  /** The minutes and hours readDS1340 decodes from registers 0x01 and 0x02:
      masked, converted, and the hours reduced modulo 12. */
  datatype Reading = Reading(minutes: UInt8, hours: UInt8)

  function ReadTime(minutesReg: UInt8, hoursReg: UInt8): (r: Reading)
    ensures r.hours < 12
  {
    Reading(FromBcd(MaskLow(minutesReg, MINUTES_MASK)),
            FromBcd(MaskLow(hoursReg, HOURS_MASK)) % 12)
  }

  /** The masked minutes register decodes to at most 85 (0x7F read as BCD),
      and a valid BCD minute 0x00..0x59 to its value 0..59. */
  lemma ReadMinutesRange(minutesReg: UInt8, hoursReg: UInt8)
    ensures ReadTime(minutesReg, hoursReg).minutes <= 85
    ensures ValidBcd(minutesReg) && minutesReg <= 0x59 ==>
      ReadTime(minutesReg, hoursReg).minutes == (minutesReg / 16) * 10 + minutesReg % 16 <= 59
  {
    var x := MaskLow(minutesReg, MINUTES_MASK);
    assert x / 16 <= 7 && x % 16 <= 15;
    if ValidBcd(minutesReg) && minutesReg <= 0x59 {
      assert x == minutesReg;
      assert minutesReg / 16 <= 5;
    }
  }

  /** A masked minutes register of 0x00..0x04 decodes to itself. */
  lemma ReadOclockMinutes(minutesReg: UInt8, hoursReg: UInt8)
    requires minutesReg % 128 < 5
    ensures ReadTime(minutesReg, hoursReg).minutes == minutesReg % 128
  {
    var x := MaskLow(minutesReg, MINUTES_MASK);
    assert x / 16 == 0 && x % 16 == x;
  }

  /** The bytes writeDS1340 puts on the bus: the address, register address
      0x00, then seconds (bit 7, the oscillator-disable bit, forced clear so the clock runs),
      minutes and hours in BCD. */
  function WriteBytes(seconds: UInt8, minutes: UInt8, hours: UInt8): (r: seq<UInt8>)
    ensures |r| == 5 && r[0] == ADDR && r[1] == 0x00
    ensures r[2] < 0x80
  {
    [ADDR, 0x00, MaskLow(ToBcd(seconds), SECONDS_MASK), ToBcd(minutes), ToBcd(hours)]
  }

  /** A BCD byte of a number below 60 fits in the low seven bits. */
  lemma BcdFitsMask(d: UInt8)
    requires d < 60
    ensures ToBcd(d) <= 0x59
    ensures MaskLow(ToBcd(d), MINUTES_MASK) == ToBcd(d)
    ensures d < 12 ==> MaskLow(ToBcd(d), HOURS_MASK) == ToBcd(d)
  {
    var b := ToBcd(d);
    assert b == 16 * (b / 16) + b % 16;
  }

  lemma ReadBackMinutes(m: UInt8)
    requires m < 60
    ensures FromBcd(MaskLow(ToBcd(m), MINUTES_MASK)) == m
  {
    BcdFitsMask(m);
    FromToBcd(m);
  }

  lemma ReadBackHours(h: UInt8)
    requires h < 12
    ensures FromBcd(MaskLow(ToBcd(h), HOURS_MASK)) % 12 == h
  {
    BcdFitsMask(h);
    FromToBcd(h);
  }

  /** Writing a valid time and reading the registers back gives the same time. */
  lemma WriteThenRead(seconds: UInt8, minutes: UInt8, hours: UInt8)
    requires minutes < 60 && hours < 12
    ensures var w := WriteBytes(seconds, minutes, hours);
      ReadTime(w[3], w[4]) == Reading(minutes, hours)
  {
    ReadBackMinutes(minutes);
    ReadBackHours(hours);
  }
}
