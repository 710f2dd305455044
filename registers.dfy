/** Pin numbers and the bit-level updates `main` applies to the 32-bit GPIO
    registers. A register is a `uint32_t`, modelled as `bv32`; bit `i` of a
    register belongs to pin `i`.
 */
module Registers {

  /** A bit position in a 32-bit register. */
  type Index = i: bv32 | i < 32

  /** The input pin wired to the push button (`BUTTON_PIN`). */
  const ButtonPin: Index := 0

  /** The output pin driving the LED (`LED_PIN`). */
  const LedPin: Index := 1

  /** Whether bit `i` of `w` is 1. */
  predicate Bit(w: bv32, i: Index) {
    (w >> i) & 1 == 1
  }

  /** `1 << pin`, converted to `uint32_t`. */
  function PinMask(pin: Index): bv32 {
    1 << pin
  }

  /** `a` and `b` agree on every bit that is 0 in `mask`. */
  predicate SameOutside(a: bv32, b: bv32, mask: bv32) {
    a & !mask == b & !mask
  }

  /** `w | (1 << pin)`: bit `pin` becomes 1, every other bit keeps its value. */
  function SetPin(w: bv32, pin: Index): (r: bv32)
    ensures Bit(r, pin)
    ensures SameOutside(r, w, PinMask(pin))
  {
    w | PinMask(pin)
  }

  /** `w & ~(1 << pin)`: bit `pin` becomes 0, every other bit keeps its value.
      In C, `~(1 << pin)` is a negative `int` (-2 for pin 0). The `&` of
      `GPIO_DIR = GPIO_DIR & ~(1 << pin)` converts it to `uint32_t` by the
      usual arithmetic conversions, giving `!PinMask(pin)` (sections 6.3.1.3,
      6.3.1.8 and 6.5.16.2 of ISO/IEC 9899:2011). */
  function ClearPin(w: bv32, pin: Index): (r: bv32)
    ensures !Bit(r, pin)
    ensures SameOutside(r, w, PinMask(pin))
  {
    w & !PinMask(pin)
  }

  /** `w ^ (1 << pin)`: bit `pin` flips, every other bit keeps its value. */
  function TogglePin(w: bv32, pin: Index): (r: bv32)
    ensures Bit(r, pin) == !Bit(w, pin)
    ensures SameOutside(r, w, PinMask(pin))
  {
    w ^ PinMask(pin)
  }

  /** The mask of a pin has exactly one bit set: the pin's own. */
  lemma PinMaskBit(pin: Index, i: Index)
    ensures Bit(PinMask(pin), i) <==> i == pin
  {
  }

  /** What `SameOutside` means bit by bit: every bit outside the mask is the same. */
  lemma SameOutsideBits(a: bv32, b: bv32, mask: bv32)
    requires SameOutside(a, b, mask)
    ensures forall i: Index :: !Bit(mask, i) ==> Bit(a, i) == Bit(b, i)
  {
    forall i: Index | !Bit(mask, i)
      ensures Bit(a, i) == Bit(b, i)
    {
      SameOutsideBit(a, b, mask, i);
    }
  }

  lemma SameOutsideBit(a: bv32, b: bv32, mask: bv32, i: Index)
    requires SameOutside(a, b, mask) && !Bit(mask, i)
    ensures Bit(a, i) == Bit(b, i)
  {
  }

  /** Toggling the same pin twice restores the register. */
  lemma TogglePinTwice(w: bv32, pin: Index)
    ensures TogglePin(TogglePin(w, pin), pin) == w
  {
  }
}
