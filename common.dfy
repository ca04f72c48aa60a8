// Types and helpers shared by the firmware model: the widths of the AVR
// (ATmega2560) integer types the firmware relies on, and an optional value.
module Platform {

  /** A value that may be absent; stands for a float field holding NAN. */
  datatype Option<+T> = None | Some(value: T)

  const TWO_POW_16: int := 0x1_0000
  const TWO_POW_32: int := 0x1_0000_0000

  /** `unsigned int` on the AVR: 16 bits. */
  type uint16 = x: int | 0 <= x < TWO_POW_16

  /** `unsigned long` on the AVR: 32 bits, the type of micros() and millis(). */
  type uint32 = x: int | 0 <= x < TWO_POW_32

  /**
   * `now - earlier` on two `unsigned long` values: the subtraction wraps
   * modulo 2^32, so a clock that rolled over still yields the true
   * elapsed time as long as less than 2^32 ticks went by.
   */
  function WrapSub(now: uint32, earlier: uint32): (r: uint32)
    ensures now >= earlier ==> r == now - earlier
    ensures now < earlier ==> r == now + TWO_POW_32 - earlier
    ensures (earlier + r) % TWO_POW_32 == now
  {
    (now - earlier) % TWO_POW_32
  }
}
