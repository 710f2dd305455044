/** Runs of the program after configuration: the interrupt handler and the
    main loop interleave, and each handler call and each loop pass is taken
    as one atomic step. A run is any finite sequence of such steps. A handler
    call landing between the statements of a loop pass is modelled separately
    and shown to end as one of these runs.
 */
module Interleaving {
  import opened Registers
  import opened Mailbox

  /** One atomic step: the handler runs, or the loop makes one pass. */
  datatype Event = Interrupt | Poll

  /** The effect of one step. Only the handler raises the flag, only a poll
      lowers it, only a poll that finds the flag raised touches `GPIO_OUT`,
      and no step touches `GPIO_DIR`. */
  function Step(g: Globals, e: Event): (r: Globals)
    ensures r.dir == g.dir
    ensures Pending(r) && !Pending(g) ==> e == Interrupt
    ensures !Pending(r) && Pending(g) ==> e == Poll
    ensures r.out != g.out ==> e == Poll && Pending(g)
  {
    match e
    case Interrupt => AfterIsr(g)
    case Poll => AfterPoll(g)
  }

  /** The state after the steps `events`, in order, starting from `g`. The
      last step decides whether an event is pending. */
  function Run(g: Globals, events: seq<Event>): (r: Globals)
    ensures events != [] && events[|events| - 1] == Interrupt ==> Pending(r)
    ensures events != [] && events[|events| - 1] == Poll ==> !Pending(r)
    decreases |events|
  {
    if events == [] then g
    else Step(Run(g, events[..|events| - 1]), events[|events| - 1])
  }

  /** How many steps of `events` toggled the LED: the polls that found an
      event pending. */
  function Toggles(g: Globals, events: seq<Event>): nat
    decreases |events|
  {
    if events == [] then 0
    else
      var before := Run(g, events[..|events| - 1]);
      Toggles(g, events[..|events| - 1])
        + (if events[|events| - 1] == Poll && Pending(before) then 1 else 0)
  }

  /** How many handler calls `events` holds. */
  function Interrupts(events: seq<Event>): nat
    decreases |events|
  {
    if events == [] then 0
    else Interrupts(events[..|events| - 1]) + (if events[|events| - 1] == Interrupt then 1 else 0)
  }

  /** `n` handler calls in a row. */
  function Burst(n: nat): seq<Event> {
    if n == 0 then [] else Burst(n - 1) + [Interrupt]
  }

  /** `k` delivered events: each a handler call followed by one loop pass. */
  function Delivered(k: nat): seq<Event> {
    if k == 0 then [] else Delivered(k - 1) + [Interrupt, Poll]
  }

  /** Extending a run by one step. */
  lemma RunSnoc(g: Globals, events: seq<Event>, e: Event)
    ensures Run(g, events + [e]) == Step(Run(g, events), e)
  {
    assert (events + [e])[..|events|] == events;
  }

  /** Splitting a run: running `a + b` is running `a`, then `b`. */
  lemma {:induction false} RunAppend(g: Globals, a: seq<Event>, b: seq<Event>)
    ensures Run(g, a + b) == Run(Run(g, a), b)
    ensures Toggles(g, a + b) == Toggles(g, a) + Toggles(Run(g, a), b)
    ensures Interrupts(a + b) == Interrupts(a) + Interrupts(b)
    decreases |b|
  {
    if b == [] {
      assert a + b == a;
    } else {
      var b' := b[..|b| - 1];
      assert (a + b)[..|a + b| - 1] == a + b';
      assert (a + b)[|a + b| - 1] == b[|b| - 1];
      RunAppend(g, a, b');
    }
  }

  /** No step of any run touches `GPIO_DIR`. */
  lemma {:induction false} RunKeepsDir(g: Globals, events: seq<Event>)
    ensures Run(g, events).dir == g.dir
    decreases |events|
  {
    if events != [] {
      RunKeepsDir(g, events[..|events| - 1]);
    }
  }

  /** `button_flag` only ever holds 0 or 1. */
  lemma {:induction false} RunKeepsFlagBoolean(g: Globals, events: seq<Event>)
    requires g.flag <= 1
    ensures Run(g, events).flag <= 1
    decreases |events|
  {
    if events != [] {
      RunKeepsFlagBoolean(g, events[..|events| - 1]);
    }
  }

  /** After any run, `GPIO_OUT` is the initial value with the LED bit toggled
      once per toggling poll: only the LED bit can differ, and it differs
      exactly when the number of toggles is odd. */
  lemma RunOut(g: Globals, events: seq<Event>)
    ensures SameOutside(Run(g, events).out, g.out, PinMask(LedPin))
    ensures LedPinHigh(Run(g, events)) == (LedPinHigh(g) != (Toggles(g, events) % 2 == 1))
  {
    RunOutValue(g, events);
  }

  /** `GPIO_OUT` after a run, as a function of the number of toggles. */
  lemma {:induction false} RunOutValue(g: Globals, events: seq<Event>)
    ensures Run(g, events).out ==
            if Toggles(g, events) % 2 == 0 then g.out else TogglePin(g.out, LedPin)
    decreases |events|
  {
    if events != [] {
      var init := events[..|events| - 1];
      var e := events[|events| - 1];
      var h := Run(g, init);
      RunOutValue(g, init);
      assert Run(g, events) == Step(h, e);
      if e == Poll && Pending(h) {
        assert Toggles(g, events) == Toggles(g, init) + 1;
        TogglePinTwice(g.out, LedPin);
      } else {
        assert Run(g, events).out == h.out;
        assert Toggles(g, events) == Toggles(g, init);
      }
    }
  }

  /** At-most-once delivery: a run toggles the LED no more often than the
      handler ran, plus one for an event already pending at the start; an event
      still pending at the end has not been consumed yet. */
  lemma {:induction false} ToggleBound(g: Globals, events: seq<Event>)
    ensures Toggles(g, events) + (if Pending(Run(g, events)) then 1 else 0)
            <= Interrupts(events) + (if Pending(g) then 1 else 0)
    decreases |events|
  {
    if events != [] {
      ToggleBound(g, events[..|events| - 1]);
    }
  }

  /** From a state with nothing pending, no poll toggles the LED unless the
      handler ran: there are no spurious toggles. */
  lemma NoSpuriousToggles(g: Globals, events: seq<Event>)
    requires !Pending(g)
    ensures Toggles(g, events) <= Interrupts(events)
  {
    ToggleBound(g, events);
  }

  /** A burst of `n >= 1` handler calls leaves the state one call leaves. */
  lemma {:induction false} BurstCoalesces(g: Globals, n: nat)
    requires n >= 1
    ensures Run(g, Burst(n)) == AfterIsr(g)
    ensures Toggles(g, Burst(n)) == 0
  {
    assert Burst(n)[..|Burst(n)| - 1] == Burst(n - 1);
    if n > 1 {
      BurstCoalesces(g, n - 1);
    }
  }

  /** Coalescing: `n >= 1` handler calls followed by one poll toggle the LED
      exactly once, not `n` times, and leave nothing pending. */
  lemma Coalescing(g: Globals, n: nat)
    requires n >= 1
    ensures Run(g, Burst(n) + [Poll]) == AfterPoll(AfterIsr(g))
    ensures Toggles(g, Burst(n) + [Poll]) == 1
    ensures Run(g, Burst(n) + [Poll]).out == TogglePin(g.out, LedPin)
    ensures !Pending(Run(g, Burst(n) + [Poll]))
  {
    BurstCoalesces(g, n);
    RunAppend(g, Burst(n), [Poll]);
  }

  /** No event is lost at a poll: whatever ran before, a burst of handler
      calls followed by a poll adds exactly one toggle. */
  lemma EventReachesNextPoll(g: Globals, before: seq<Event>, n: nat)
    requires n >= 1
    ensures Toggles(g, before + Burst(n) + [Poll]) == Toggles(g, before) + 1
  {
    RunAppend(g, before, Burst(n) + [Poll]);
    assert before + Burst(n) + [Poll] == before + (Burst(n) + [Poll]);
    Coalescing(Run(g, before), n);
  }

  /** Toggle parity: from a state with nothing pending, `k` delivered events
      toggle the LED `k` times, so its bit has flipped exactly when `k` is
      odd; the flag is clear and the rest of the state is as before. */
  lemma {:induction false} DeliveredParity(g: Globals, k: nat)
    requires !Pending(g)
    ensures Toggles(g, Delivered(k)) == k
    ensures Run(g, Delivered(k)) ==
            g.(out := if k % 2 == 0 then g.out else TogglePin(g.out, LedPin))
  {
    if k > 0 {
      DeliveredParity(g, k - 1);
      RunAppend(g, Delivered(k - 1), [Interrupt, Poll]);
      var h := Run(g, Delivered(k - 1));
      assert [Interrupt, Poll][..1] == [Interrupt];
      assert Run(h, [Interrupt, Poll]) == AfterPoll(AfterIsr(h));
      TogglePinTwice(g.out, LedPin);
    }
  }

  /** From power-on and configuration, after `k` delivered events the LED
      bit of `GPIO_OUT` equals `k mod 2`. */
  lemma LedParityFromReset(k: nat)
    ensures LedPinHigh(Run(AfterConfigure(Reset), Delivered(k))) == (k % 2 == 1)
    ensures !Pending(Run(AfterConfigure(Reset), Delivered(k)))
  {
    var g := AfterConfigure(Reset);
    DeliveredParity(g, k);
    assert !LedPinHigh(g);
  }

  /** A concrete run from power-on and configuration: one event is seen and
      drives the LED pin high; two events in a row are seen once and drive it low
      again. */
  lemma Scenario()
    ensures Pending(Run(AfterConfigure(Reset), [Interrupt]))
    ensures var g := Run(AfterConfigure(Reset), [Interrupt, Poll]); !Pending(g) && LedPinHigh(g)
    ensures Pending(Run(AfterConfigure(Reset), [Interrupt, Poll, Interrupt, Interrupt]))
    ensures var g := Run(AfterConfigure(Reset), [Interrupt, Poll, Interrupt, Interrupt, Poll]);
            !Pending(g) && !LedPinHigh(g)
  {
    var c := AfterConfigure(Reset);
    assert !Pending(c) && !LedPinHigh(c);
    DeliveredParity(c, 1);
    assert Delivered(1) == [Interrupt, Poll];
    var g2 := Run(c, [Interrupt, Poll]);
    assert [Interrupt, Poll] + Burst(2) == [Interrupt, Poll, Interrupt, Interrupt];
    RunAppend(c, [Interrupt, Poll], Burst(2));
    BurstCoalesces(g2, 2);
    assert [Interrupt, Poll] + (Burst(2) + [Poll]) == [Interrupt, Poll, Interrupt, Interrupt, Poll];
    RunAppend(c, [Interrupt, Poll], Burst(2) + [Poll]);
    Coalescing(g2, 2);
    RunSnoc(c, [], Interrupt);
    assert [] + [Interrupt] == [Interrupt];
    TogglePinTwice(c.out, LedPin);
  }

  /** Where a handler call lands inside one pass of the loop body: after the
      test `if (button_flag)` (Button_interput.c:34), or after the clear
      `button_flag = 0;` (Button_interput.c:36) and before the toggle
      `GPIO_OUT ^= (1 << LED_PIN);` (Button_interput.c:37). */
  datatype Preemption = AfterTest | AfterClear

  /** One loop pass with a handler call landing inside it, statement by
      statement. When the test finds no event the branch is skipped, so the
      handler call runs alone. */
  function PreemptedPoll(g: Globals, at: Preemption): (r: Globals)
    ensures r.dir == g.dir
    ensures r.out == if Pending(g) then TogglePin(g.out, LedPin) else g.out
    ensures Pending(r) <==> !(at == AfterTest && Pending(g))
  {
    if g.flag == 0 then AfterIsr(g)
    else match at
      case AfterTest =>
        var interrupted := AfterIsr(g);
        var cleared := interrupted.(flag := 0);
        cleared.(out := TogglePin(cleared.out, LedPin))
      case AfterClear =>
        var cleared := g.(flag := 0);
        var interrupted := AfterIsr(cleared);
        interrupted.(out := TogglePin(interrupted.out, LedPin))
  }

  /** A handler call inside a loop pass ends in the state of an atomic run.
      Landing after the test of an event that was pending, it is the run
      "handler, then poll": the new event and the pending one are consumed
      by one toggle, which is coalescing, and nothing stays pending.
      Anywhere else it is the run "poll, then handler": the new event stays
      pending for the next pass. */
  lemma PreemptedPollIsAtomic(g: Globals, at: Preemption)
    ensures at == AfterTest && Pending(g) ==> PreemptedPoll(g, at) == Run(g, [Interrupt, Poll])
    ensures !(at == AfterTest && Pending(g)) ==> PreemptedPoll(g, at) == Run(g, [Poll, Interrupt])
    ensures at == AfterTest && Pending(g) ==>
            !Pending(PreemptedPoll(g, at)) && PreemptedPoll(g, at).out == TogglePin(g.out, LedPin)
    ensures !(at == AfterTest && Pending(g)) ==> Pending(PreemptedPoll(g, at))
  {
    assert [Interrupt, Poll][..1] == [Interrupt];
    assert [Poll, Interrupt][..1] == [Poll];
    assert [Interrupt][..0] == [] && [Poll][..0] == [];
    assert Run(g, [Interrupt, Poll]) == AfterPoll(AfterIsr(g));
    assert Run(g, [Poll, Interrupt]) == AfterIsr(AfterPoll(g));
  }

  /** Drives a board through `events`, one atomic step at a time. */
  method Execute(b: Board, events: seq<Event>)
    modifies b
    ensures b.State() == Run(old(b.State()), events)
  {
    for i := 0 to |events|
      invariant b.State() == Run(old(b.State()), events[..i])
    {
      assert events[..i + 1] == events[..i] + [events[i]];
      RunSnoc(old(b.State()), events[..i], events[i]);
      match events[i]
      case Interrupt => b.Isr();
      case Poll => b.Poll();
    }
    assert events[..|events|] == events;
  }
}
