/** The one-slot event mailbox of the button example: the pending-event flag
    `button_flag` (a `uint8_t`) and the two GPIO registers `GPIO_DIR` and
    `GPIO_OUT` (each a `uint32_t`), with the three steps that change them:
    the register configuration at the top of `main`, the interrupt handler
    `BUTTON_ISR`, and one pass of the main loop.
 */
module Mailbox {
  import opened Registers

  /** A snapshot of the program's global state. */
  datatype Globals = Globals(flag: bv8, dir: bv32, out: bv32)

  /** The state at start-up. `button_flag` is initialised to 0; the two
      registers have static storage and no initialiser, so they start at 0
      as well (section 6.7.9, paragraph 10, of ISO/IEC 9899:2011). */
  const Reset: Globals := Globals(0, 0, 0)

  /** An event is waiting: `if (button_flag)` takes its branch. */
  predicate Pending(g: Globals) {
    g.flag != 0
  }

  /** The level driven on the LED pin: bit `LED_PIN` of `GPIO_OUT` is 1.
      Whether a high pin lights the LED depends on the wiring. */
  predicate LedPinHigh(g: Globals) {
    Bit(g.out, LedPin)
  }

  /** `GPIO_DIR |= (1 << LED_PIN);` then `GPIO_DIR &= ~(1 << BUTTON_PIN);`:
      the LED pin becomes an output, the button pin an input, and nothing
      else changes. */
  function AfterConfigure(g: Globals): (r: Globals)
    ensures Bit(r.dir, LedPin) && !Bit(r.dir, ButtonPin)
    ensures SameOutside(r.dir, g.dir, PinMask(LedPin) | PinMask(ButtonPin))
    ensures r.flag == g.flag && r.out == g.out
  {
    g.(dir := ClearPin(SetPin(g.dir, LedPin), ButtonPin))
  }

  /** `BUTTON_ISR`: `button_flag = 1;`. An event is pending afterwards,
      whatever the flag was, and neither register changes. */
  function AfterIsr(g: Globals): (r: Globals)
    ensures Pending(r) && r.flag == 1
    ensures r.dir == g.dir && r.out == g.out
  {
    g.(flag := 1)
  }

  /** One pass of the main loop: if `button_flag` is non-zero, clear it and
      toggle the LED bit of `GPIO_OUT`; otherwise do nothing. */
  function AfterPoll(g: Globals): (r: Globals)
    ensures !Pending(r)
    ensures r.dir == g.dir
    ensures !Pending(g) ==> r == g
    ensures Pending(g) ==> LedPinHigh(r) == !LedPinHigh(g) && SameOutside(r.out, g.out, PinMask(LedPin))
  {
    if g.flag != 0 then
      g.(flag := 0, out := TogglePin(g.out, LedPin))
    else
      g
  }

  /** A second interrupt before the loop has polled changes nothing: events
      are coalesced, not queued. */
  lemma IsrCoalesces(g: Globals)
    ensures AfterIsr(AfterIsr(g)) == AfterIsr(g)
  {
  }

  /** A poll right after a poll finds nothing to do. */
  lemma PollIsIdempotent(g: Globals)
    ensures AfterPoll(AfterPoll(g)) == AfterPoll(g)
  {
  }

  /** One event, delivered: the handler runs, then the loop polls. The flag
      ends cleared, the LED has flipped exactly once, and no other bit of
      either register has changed. */
  lemma DeliverOne(g: Globals)
    ensures !Pending(AfterPoll(AfterIsr(g)))
    ensures AfterPoll(AfterIsr(g)).out == TogglePin(g.out, LedPin)
    ensures AfterPoll(AfterIsr(g)).dir == g.dir
  {
  }

  /** The global variables of the program, updated in place. */
  class Board {
    var flag: bv8
    var dir: bv32
    var out: bv32

    /** The current values of the three globals. */
    function State(): Globals
      reads this
    {
      Globals(flag, dir, out)
    }

    /** Program start: every global is 0. */
    constructor ()
      ensures State() == Reset
    {
      flag, dir, out := 0, 0, 0;
    }

    /** The two register writes at the top of `main`. */
    method Configure()
      modifies this
      ensures State() == AfterConfigure(old(State()))
      ensures Bit(dir, LedPin) && !Bit(dir, ButtonPin)
      ensures flag == old(flag) && out == old(out)
    {
      dir := SetPin(dir, LedPin);
      dir := ClearPin(dir, ButtonPin);
    }

    /** `BUTTON_ISR`, run to completion without being interrupted. */
    method Isr()
      modifies this
      ensures State() == AfterIsr(old(State()))
      ensures flag == 1 && dir == old(dir) && out == old(out)
    {
      flag := 1;
    }

    /** One pass of the `while (1)` loop body, run as one atomic step. */
    method Poll()
      modifies this
      ensures State() == AfterPoll(old(State()))
      ensures flag == 0 && dir == old(dir)
      ensures old(flag) == 0 ==> out == old(out)
      ensures old(flag) != 0 ==> out == TogglePin(old(out), LedPin)
    {
      if flag != 0 {
        flag := 0;
        out := TogglePin(out, LedPin);
      }
    }
  }
}
