# Button interrupt mailbox

This project models the firmware example `Button_interput.c`. An interrupt
service routine (`BUTTON_ISR`) records a button press by setting the one-byte
flag `button_flag`. The main loop polls that flag. When the flag is set, the
loop clears it and toggles the LED bit of the dummy output register
`GPIO_OUT`. Before the loop starts, `main` writes the dummy direction register
`GPIO_DIR`: the LED pin becomes an output and the button pin an input.

The model has three modules, one per layer of the program:

- `Registers` (`registers.dfy`): the pin numbers `BUTTON_PIN = 0` and
  `LED_PIN = 1` and the three bit updates the program applies to a
  `uint32_t` register (`|= 1 << pin`, `&= ~(1 << pin)`, `^= 1 << pin`), on
  `bv32`. Each update is proved to set, clear or flip exactly its own bit and
  to leave every other bit unchanged.
- `Mailbox` (`mailbox.dfy`): the three globals as a value (`Globals`), the
  start-up state (all zero), and the three steps as functions
  (`AfterConfigure`, `AfterIsr`, `AfterPoll`). The class `Board` holds the
  same globals as mutable fields. Its methods `Configure`, `Isr` and `Poll`
  update those fields in place and are proved equal to the step functions.
- `Interleaving` (`interleaving.dfy`): the handler and the loop interleave as
  any finite sequence of atomic steps (`Event`). `Run` gives the state after
  such a sequence and `Toggles` counts the polls that toggled the LED. The
  lemmas show that repeated events are coalesced, an idle
  poll does nothing, the LED has the parity of the delivered events, there are
  no spurious toggles, no event pending at a poll is lost, a handler call landing
  inside a loop pass ends as some atomic run would, and `GPIO_DIR` and
  the bits of `GPIO_OUT` other than the LED bit never change. `Execute` drives
  a `Board` through a sequence of steps and is proved to reach `Run`'s state.

Widths follow the C declarations. `button_flag` is a `uint8_t` (`bv8`), and
`if (button_flag)` tests for a non-zero value. The registers are `uint32_t`
values (`bv32`). In C, `~(1 << BUTTON_PIN)` is the `int` value -2. The
compound assignment `E1 &= E2` means `E1 = E1 & E2` (section 6.5.16.2,
paragraph 3, of ISO/IEC 9899:2011). The usual arithmetic conversions of that
`&` turn -2 into the `uint32_t` value `0xFFFF_FFFE` (sections 6.3.1.8 and
6.3.1.3, paragraph 2, of the same standard). That value is
`!PinMask(ButtonPin)` in the model. The registers have static storage and no
initialiser, so they start at zero (section 6.7.9, paragraph 10, of the same
standard). `button_flag` is initialised to 0 explicitly.

The flag is a byte, not a boolean, because the code stores a `uint8_t`.
`RunKeepsFlagBoolean` proves that it only ever holds 0 or 1. The handler does
not acknowledge any hardware interrupt: the code has no such step, so the
model has none either.

## Model

| member | source | states |
|---|---|---|
| `Registers.SetPin` | Button_interput.c:24 | ORing in `1 << pin` leaves bit `pin` set and agrees with `w` on every other bit |
| `Registers.ClearPin` | Button_interput.c:27 | `w & ~(1 << pin)` has bit `pin` clear and agrees with `w` on every other bit |
| `Registers.TogglePin` | Button_interput.c:37 | `w ^ (1 << pin)` has bit `pin` inverted and agrees with `w` on every other bit |
| `Registers.TogglePinTwice` | Button_interput.c:37 | toggling the same pin twice gives back the original register value |
| `Registers.PinMaskBit` | Button_interput.c:4-37 | the mask `1 << pin` built at lines 24, 27 and 37 from the pin numbers of lines 4-5 has bit `i` set exactly when `i` is `pin` |
| `Registers.SameOutsideBits` | Button_interput.c:24-37 | two words that agree outside a mask agree on every bit the mask leaves clear |
| `Mailbox.AfterConfigure` | Button_interput.c:24-27 | after configuration the LED direction bit is 1 and the button direction bit is 0; bits 2 to 31 of `GPIO_DIR`, the flag and `GPIO_OUT` are unchanged |
| `Mailbox.AfterIsr` | Button_interput.c:15-18 | after the handler the flag is 1, so an event is pending, whatever the flag held before; `GPIO_DIR` and `GPIO_OUT` are unchanged |
| `Mailbox.AfterPoll` | Button_interput.c:34-38 | after a poll the flag is 0 and `GPIO_DIR` is unchanged; with no event pending nothing changes; with an event pending the LED bit flips and every other bit of `GPIO_OUT` is unchanged |
| `Mailbox.IsrCoalesces` | Button_interput.c:17 | running the handler twice gives the same state as running it once |
| `Mailbox.PollIsIdempotent` | Button_interput.c:34-38 | a second poll right after a poll changes nothing |
| `Mailbox.DeliverOne` | Button_interput.c:15-38 | a handler call followed by a poll clears the flag, toggles the LED bit exactly once and keeps `GPIO_DIR` |
| `Mailbox.Board.constructor` | Button_interput.c:8-12 | at start-up the flag and both registers are 0 |
| `Mailbox.Board.Configure` | Button_interput.c:24-27 | the two in-place writes to `GPIO_DIR` produce `AfterConfigure`'s state: LED pin output, button pin input, flag and `GPIO_OUT` untouched |
| `Mailbox.Board.Isr` | Button_interput.c:15-18 | the handler sets the flag to 1 and touches neither register |
| `Mailbox.Board.Poll` | Button_interput.c:34-38 | one loop pass clears the flag; it leaves `GPIO_OUT` as it was when the flag was 0 and toggles its LED bit otherwise; `GPIO_DIR` is untouched |
| `Interleaving.Run` | Button_interput.c:15-38 | the state after a finite sequence of atomic handler calls and loop passes, applied in order: after a run that ends with a handler call an event is pending, and after one that ends with a loop pass none is |
| `Interleaving.Step` | Button_interput.c:15-38 | only a handler call raises the flag; only a poll lowers it; only a poll that finds an event pending changes `GPIO_OUT`; no step changes `GPIO_DIR` |
| `Interleaving.RunKeepsDir` | Button_interput.c:32-38 | no interleaving of handler calls and loop passes changes `GPIO_DIR` |
| `Interleaving.RunKeepsFlagBoolean` | Button_interput.c:12-36 | starting from a flag of 0 or 1, the flag holds 0 or 1 after any interleaving |
| `Interleaving.RunOutValue` | Button_interput.c:32-38 | after any interleaving, `GPIO_OUT` is its start value if the number of toggling polls is even and the start value with the LED bit toggled if it is odd |
| `Interleaving.RunOut` | Button_interput.c:32-38 | after any interleaving every bit of `GPIO_OUT` except the LED bit is unchanged, and the LED bit has flipped exactly when the number of toggling polls is odd |
| `Interleaving.ToggleBound` | Button_interput.c:15-38 | toggles plus a still-pending event never outnumber handler calls plus an event pending at the start (at-most-once delivery) |
| `Interleaving.NoSpuriousToggles` | Button_interput.c:34-37 | from a state with no event pending, the LED toggles at most as often as the handler ran |
| `Interleaving.BurstCoalesces` | Button_interput.c:17 | any n >= 1 handler calls in a row leave the state that one call leaves, with no toggle |
| `Interleaving.Coalescing` | Button_interput.c:15-37 | n >= 1 handler calls followed by one poll toggle the LED bit exactly once, not n times, and leave no event pending |
| `Interleaving.EventReachesNextPoll` | Button_interput.c:34-37 | whatever ran before, a burst of handler calls followed by a poll adds exactly one toggle, so a pending event is never lost at the next poll |
| `Interleaving.DeliveredParity` | Button_interput.c:32-38 | from a state with no event pending, k delivered events (handler call then poll) give exactly k toggles; the LED bit is flipped exactly when k is odd, the flag stays clear and nothing else changes |
| `Interleaving.LedParityFromReset` | Button_interput.c:8-38 | from the zero start state and the configuration, after k delivered events the LED bit of `GPIO_OUT` equals k mod 2 and no event is pending |
| `Interleaving.Scenario` | Button_interput.c:8-38 | from start-up and configuration, one event sets the flag and then drives the LED pin high; two events in a row before a poll are seen once and drive it low again |
| `Interleaving.PreemptedPoll` | Button_interput.c:15-37 | one loop pass with a handler call after the test of line 34 or after the clear of line 36, written statement by statement; with no event pending the handler call runs alone; `GPIO_DIR` is kept, `GPIO_OUT` has its LED bit toggled exactly when an event was pending, and an event stays pending unless the handler call landed after the test of a pending event |
| `Interleaving.PreemptedPollIsAtomic` | Button_interput.c:15-37 | a handler call landing after the test of line 34 or after the clear of line 36 ends in the state of an atomic run: after the test of a pending event it is handler-then-poll, with one toggle for both events and nothing pending; anywhere else it is poll-then-handler, with the new event still pending |
| `Interleaving.Execute` | Button_interput.c:32-38 | driving a `Board` with handler calls and loop passes, in any order, reaches the state `Run` computes |

## Left out

- Preemption inside a single C statement is not modelled. `Run` takes each handler call and each loop pass as one atomic step. `PreemptedPoll` covers a handler call at each statement boundary inside a pass, and `PreemptedPollIsAtomic` proves that each ends in the state of an atomic run. A handler call between the read of `button_flag` at line 34 and its clear at line 36 is therefore the run `[Interrupt, Poll]`: its event is lost by exactly the coalescing that `Coalescing` proves. The read-modify-write of `GPIO_OUT` at line 37 is not split, because the handler does not touch `GPIO_OUT`.
- `volatile` visibility (lines 8-12) is not modelled. Every step reads and writes the globals directly.
- The non-terminating `while (1)` at line 32 is not modelled as a loop. One pass of its body is `Poll`, and `Run` or `Execute` covers any finite prefix of an execution.
- The commented-out interrupt enabling at line 30 is left out. It is hardware specific and has no visible behaviour in the code.
- The "other work or sleep" comment at line 40 is left out. There is no code there.
- Real hardware is left out: the registers are plain variables. Debounce, edge detection and interrupt acknowledgement appear nowhere in the code.
- `Registers.SetPin`, `Registers.ClearPin` and `Registers.TogglePin` accept any bit position 0 to 31. In C, `1 << 31` on an `int` is undefined behaviour. The code only uses pins 0 and 1, where the model and C agree.
