/** The whole firmware: the microcontroller state that `main` and `low_isr`
    act on, as an object whose fields the two update in place, and the runs
    in which their actions interleave. */
module Firmware {
  import Heartbeat
  import Timer0

  /** Something that can happen next: an iteration of the main loop, or an
      event on the timer side (an overflow, or the interrupt handler
      running). The handler may preempt the loop between any two iterations;
      since the two share no state, finer interleavings are not modelled. */
  datatype Event = Iteration | Timer(ev: Timer0.Event)

  /** The state of the whole board. */
  datatype McuState = McuState(loop: Heartbeat.LoopState, timer: Timer0.TimerState)

  function Apply(b: McuState, e: Event): McuState {
    match e
    case Iteration => b.(loop := Heartbeat.Step(b.loop))
    case Timer(ev) => b.(timer := Timer0.Apply(b.timer, ev))
  }

  /** The board's state after a sequence of events. */
  function Exec(b: McuState, evs: seq<Event>): McuState {
    if evs == [] then b
    else Apply(Exec(b, evs[..|evs| - 1]), evs[|evs| - 1])
  }

  /** The number of main-loop iterations in `evs`. */
  function Iterations(evs: seq<Event>): nat {
    if evs == [] then 0
    else Iterations(evs[..|evs| - 1]) + (if evs[|evs| - 1] == Iteration then 1 else 0)
  }

  /** The timer-side events of `evs`, in order. */
  function TimerEvents(evs: seq<Event>): seq<Timer0.Event> {
    if evs == [] then []
    else
      TimerEvents(evs[..|evs| - 1])
        + (match evs[|evs| - 1] case Iteration => [] case Timer(ev) => [ev])
  }

  /** However interrupts interleave with the main loop, the counter and
      LED_1 are exactly those of the loop run alone for as many iterations. */
  lemma {:induction false} LoopIgnoresTimer(b: McuState, evs: seq<Event>)
    ensures Exec(b, evs).loop == Heartbeat.Iterate(b.loop, Iterations(evs))
  {
    if evs != [] {
      LoopIgnoresTimer(b, evs[..|evs| - 1]);
    }
  }

  /** However the main loop interleaves, LED_2, the overflow flag and the
      timer register are exactly those of the timer side run alone. */
  lemma {:induction false} TimerIgnoresLoop(b: McuState, evs: seq<Event>)
    ensures Exec(b, evs).timer == Timer0.Run(b.timer, TimerEvents(evs))
  {
    if evs != [] {
      var init := evs[..|evs| - 1];
      TimerIgnoresLoop(b, init);
      match evs[|evs| - 1]
      case Iteration =>
        assert TimerEvents(evs) == TimerEvents(init) + [] == TimerEvents(init);
        assert Exec(b, evs) == Apply(Exec(b, init), Iteration);
      case Timer(ev) =>
        var tes := TimerEvents(init) + [ev];
        assert tes[..|tes| - 1] == TimerEvents(init);
    }
  }

  /** The board: the main loop's counter `hbeat`, the latch bits LATB1
      (LED_1) and LATB2 (LED_2), the Timer0 overflow flag INTCONbits.TMR0IF
      and the Timer0 register. */
  class Mcu {
    var hbeat: Heartbeat.ULong
    var led1: bool
    var led2: bool
    var tmr0if: bool
    var tmr0: Timer0.U16

    function Loop(): Heartbeat.LoopState
      reads this
    {
      Heartbeat.LoopState(hbeat, led1)
    }

    function TimerSide(): Timer0.TimerState
      reads this
    {
      Timer0.TimerState(led2, tmr0if, tmr0)
    }

    function State(): McuState
      reads this
    {
      McuState(Loop(), TimerSide())
    }

    /** The counter is within the range the main loop keeps it in. */
    ghost predicate Valid()
      reads this
    {
      Heartbeat.InRange(Loop())
    }

    /** Startup as `main` does it before the loop: `hbeat` starts at 0, the
        timer is loaded with the reload value and the overflow flag is
        cleared. The LED latches are not written, so their levels are
        parameters. */
    constructor (led1Init: bool, led2Init: bool)
      ensures Loop() == Heartbeat.Start(led1Init)
      ensures TimerSide() == Timer0.TimerState(led2Init, false, Timer0.TIMER0_DEF_VALUE)
      ensures Valid()
    {
      hbeat := 0;
      led1 := led1Init;
      led2 := led2Init;
      new;
      WriteTimer0(Timer0.TIMER0_DEF_VALUE);
      tmr0if := false;
    }

    /** The effect of the peripheral library's `WriteTimer0` as used here:
        it sets the timer register. */
    method WriteTimer0(value: Timer0.U16)
      modifies this`tmr0
      ensures tmr0 == value
    {
      tmr0 := value;
    }

    /** One iteration of the `while(1)` loop. It writes only the counter
        and LED_1. */
    method Step()
      modifies this`hbeat, this`led1
      ensures Loop() == Heartbeat.Step(old(Loop()))
      ensures old(Valid()) ==> Valid()
    {
      if hbeat == Heartbeat.ON_AT {
        led1 := true;
        hbeat := Heartbeat.Inc(hbeat);
      } else if hbeat == Heartbeat.OFF_AT {
        led1 := false;
        hbeat := Heartbeat.Inc(hbeat);
      } else if hbeat == Heartbeat.RESET_AT {
        hbeat := 0;
      } else {
        hbeat := Heartbeat.Inc(hbeat);
      }
    }

    /** `n` iterations of the main loop. */
    method Run(n: nat)
      modifies this`hbeat, this`led1
      ensures Loop() == Heartbeat.Iterate(old(Loop()), n)
      ensures old(Valid()) ==> Valid()
    {
      var i := 0;
      while i < n
        invariant i <= n
        invariant Loop() == Heartbeat.Iterate(old(Loop()), i)
      {
        Step();
        i := i + 1;
      }
    }

    /** The hardware's Timer0 overflow: it raises TMR0IF. */
    method Overflow()
      modifies this`tmr0if
      ensures TimerSide() == Timer0.RaiseFlag(old(TimerSide()))
      ensures old(Valid()) ==> Valid()
    {
      tmr0if := true;
    }

    /** `low_isr`. It writes only LED_2, the flag and the timer register. */
    method Isr()
      modifies this`led2, this`tmr0if, this`tmr0
      ensures TimerSide() == Timer0.Isr(old(TimerSide()))
      ensures old(Valid()) ==> Valid()
    {
      if tmr0if {
        led2 := !led2;
        tmr0if := false;
        WriteTimer0(Timer0.TIMER0_DEF_VALUE);
      }
    }

    /** Carries out a sequence of events in order. */
    method Execute(evs: seq<Event>)
      modifies this
      ensures State() == Exec(old(State()), evs)
      ensures old(Valid()) ==> Valid()
    {
      var i := 0;
      while i < |evs|
        invariant i <= |evs|
        invariant State() == Exec(old(State()), evs[..i])
      {
        match evs[i] {
          case Iteration => Step();
          case Timer(ev) => if ev.Overflow? { Overflow(); } else { Isr(); }
        }
        assert evs[..i + 1][..i] == evs[..i];
        i := i + 1;
      }
      assert evs[..|evs|] == evs;
      LoopIgnoresTimer(old(State()), evs);
    }
  }
}
