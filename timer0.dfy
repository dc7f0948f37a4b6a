/** The Timer0 overflow interrupt (`low_isr`) and the LED_2 latch bit
    (PORTB.2) it drives.

    The hardware side is abstract: the timer's own counting is not modelled,
    only its overflow, which raises the flag TMR0IF. A run of the timer side
    is a sequence of events, each an overflow or an entry into the handler. */
module Timer0 {

  /** The 16-bit Timer0 register (TMR0H:TMR0L in 16-bit mode). */
  type U16 = x: int | 0 <= x <= 0xFFFF

  /** `TIMER0_DEF_VALUE`: the value written into Timer0 at startup and on
      every serviced overflow. */
  const TIMER0_DEF_VALUE: U16 := 0xF000

  /** What the handler reads and writes: LED_2, the overflow flag, and the
      timer register. */
  datatype TimerState = TimerState(led2: bool, tmr0if: bool, tmr0: U16)

  /** One entry into `low_isr`. If the Timer0 overflow flag is set, it
      toggles LED_2, clears the flag and reloads the timer; otherwise it
      changes nothing. */
  function Isr(t: TimerState): (r: TimerState)
    ensures r.led2 == (t.led2 != t.tmr0if)
    ensures !r.tmr0if
    ensures t.tmr0if ==> r.tmr0 == TIMER0_DEF_VALUE
    ensures !t.tmr0if ==> r == t
  {
    if t.tmr0if then
      TimerState(!t.led2, false, TIMER0_DEF_VALUE)
    else
      t
  }

  /** The hardware's overflow signal: it raises TMR0IF and nothing else. */
  function RaiseFlag(t: TimerState): (r: TimerState)
    ensures r.tmr0if
    ensures r.led2 == t.led2 && r.tmr0 == t.tmr0
  {
    t.(tmr0if := true)
  }

  /** An event on the timer side. */
  datatype Event = Overflow | Interrupt

  function Apply(t: TimerState, e: Event): TimerState {
    match e
    case Overflow => RaiseFlag(t)
    case Interrupt => Isr(t)
  }

  /** The timer side's state after a sequence of events. The `tmr0` field is
      the value last written into the register (the hardware's counting
      between writes is not modelled), so it is either its initial value or
      the reload constant: nothing but the handler writes it. */
  function Run(t: TimerState, evs: seq<Event>): (r: TimerState)
    ensures r.tmr0 == t.tmr0 || r.tmr0 == TIMER0_DEF_VALUE
  {
    if evs == [] then t
    else Apply(Run(t, evs[..|evs| - 1]), evs[|evs| - 1])
  }

  /** How many handler entries in `evs` found the overflow flag set, that
      is, how many overflows were serviced. */
  function Serviced(t: TimerState, evs: seq<Event>): nat {
    if evs == [] then 0
    else
      var before := Run(t, evs[..|evs| - 1]);
      Serviced(t, evs[..|evs| - 1])
        + (if evs[|evs| - 1] == Interrupt && before.tmr0if then 1 else 0)
  }

  predicate Odd(n: nat) {
    n % 2 == 1
  }

  /** After any sequence of events, LED_2 equals its initial value XOR
      "an odd number of overflows were serviced". */
  lemma {:induction false} Led2Parity(t: TimerState, evs: seq<Event>)
    ensures Run(t, evs).led2 == (t.led2 != Odd(Serviced(t, evs)))
  {
    if evs != [] {
      Led2Parity(t, evs[..|evs| - 1]);
    }
  }

  /** `n` overflows, each serviced by the handler before the next. */
  function Pairs(n: nat): seq<Event> {
    if n == 0 then [] else Pairs(n - 1) + [Overflow, Interrupt]
  }

  /** When each of `n` overflows is followed by an entry into the handler,
      all `n` are serviced: LED_2 has toggled `n` times, the flag is clear,
      and (once one overflow was serviced) the timer holds the reload value. */
  lemma {:induction false} ServicedPairs(t: TimerState, n: nat)
    ensures Serviced(t, Pairs(n)) == n
    ensures Run(t, Pairs(n)).led2 == (t.led2 != Odd(n))
    ensures n > 0 ==> !Run(t, Pairs(n)).tmr0if && Run(t, Pairs(n)).tmr0 == TIMER0_DEF_VALUE
  {
    if n > 0 {
      ServicedPairs(t, n - 1);
      var evs := Pairs(n);
      var prefix := Pairs(n - 1);
      assert evs[..|evs| - 1] == prefix + [Overflow];
      assert (prefix + [Overflow])[..|prefix|] == prefix;
      assert Run(t, prefix + [Overflow]) == RaiseFlag(Run(t, prefix));
      assert Serviced(t, prefix + [Overflow]) == n - 1;
    }
    Led2Parity(t, Pairs(n));
  }
}
