/** The busy-wait heartbeat of the firmware's main loop: a free-running
    counter `hbeat` compared once per iteration against three literal
    thresholds, driving the LED_1 latch bit (PORTB.1).

    This module holds the specification of one iteration as a pure function
    on the loop's own state, and what follows from it over many iterations:
    the counter's range, the exact cycle length, and LED_1 as a function of
    the counter. The state it speaks about holds only `hbeat` and LED_1, so
    by construction an iteration neither reads nor writes LED_2, the Timer0
    overflow flag or the timer register. */
module Heartbeat {

  /** XC8's `unsigned long`: 32 bits. */
  const ULONG_MAX: int := 0xFFFF_FFFF
  type ULong = x: int | 0 <= x <= ULONG_MAX

  /** The three thresholds the loop compares `hbeat` against. */
  const ON_AT: ULong := 0x17FF
  const OFF_AT: ULong := 0x8FFF
  const RESET_AT: ULong := 0x4FFFF

  /** Number of iterations from `hbeat == 0` back to `hbeat == 0`. */
  const CYCLE: nat := RESET_AT + 1

  /** The state the loop body reads and writes: the counter and LED_1. */
  datatype LoopState = LoopState(hbeat: ULong, led1: bool)

  /** The state at the top of the first iteration: `hbeat` is declared as 0;
      LED_1 is never written before the loop, so it is whatever the latch holds. */
  function Start(led1: bool): LoopState {
    LoopState(0, led1)
  }

  /** `hbeat++` on an unsigned long: adds one, modulo 2^32. */
  function Inc(x: ULong): (r: ULong)
    ensures x < ULONG_MAX ==> r == x + 1
    ensures x == ULONG_MAX ==> r == 0
  {
    (x + 1) % (ULONG_MAX + 1)
  }

  /** The four arms of the loop body's if / else-if chain. */
  datatype Branch = SetLed | ClearLed | Reset | Count

  /** Which arm of the chain runs for a given counter value. The arms are
      tried in order, but because the three thresholds are distinct each
      arm is taken exactly when its own guard holds, whatever the order. */
  function BranchOf(hbeat: ULong): (b: Branch)
    ensures b == SetLed <==> hbeat == ON_AT
    ensures b == ClearLed <==> hbeat == OFF_AT
    ensures b == Reset <==> hbeat == RESET_AT
    ensures b == Count <==> hbeat != ON_AT && hbeat != OFF_AT && hbeat != RESET_AT
  {
    if hbeat == ON_AT then SetLed
    else if hbeat == OFF_AT then ClearLed
    else if hbeat == RESET_AT then Reset
    else Count
  }

  /** The counter stays within the range the loop is designed for. */
  ghost predicate InRange(s: LoopState) {
    s.hbeat <= RESET_AT
  }

  /** LED_1 is lit exactly while the counter is in 0x1800..0x8FFF: the
      relation that holds once the LED_1-on arm has run. */
  ghost predicate Synced(s: LoopState) {
    InRange(s) && s.led1 == (ON_AT < s.hbeat <= OFF_AT)
  }

  /** One iteration of the main loop. */
  function Step(s: LoopState): (r: LoopState)
    // the counter either goes up by exactly one or, at 0x4FFFF only, returns to 0
    ensures InRange(s) ==> InRange(r)
    ensures InRange(s) ==> (r.hbeat == 0 <==> s.hbeat == RESET_AT)
    ensures InRange(s) && s.hbeat != RESET_AT ==> r.hbeat == s.hbeat + 1
    // LED_1 is driven high at 0x17FF, low at 0x8FFF, and left alone otherwise
    ensures s.hbeat == ON_AT ==> r.led1
    ensures s.hbeat == OFF_AT ==> !r.led1
    ensures r.led1 != s.led1 ==> s.hbeat == ON_AT || s.hbeat == OFF_AT
    // running the LED_1-on arm establishes Synced, and Synced is kept
    ensures InRange(s) && s.hbeat == ON_AT ==> Synced(r)
    ensures Synced(s) ==> Synced(r)
  {
    match BranchOf(s.hbeat)
    case SetLed => LoopState(Inc(s.hbeat), true)
    case ClearLed => LoopState(Inc(s.hbeat), false)
    case Reset => LoopState(0, s.led1)
    case Count => LoopState(Inc(s.hbeat), s.led1)
  }

  /** The state after `n` iterations. */
  function Iterate(s: LoopState, n: nat): (r: LoopState)
    ensures InRange(s) ==> InRange(r)
    ensures Synced(s) ==> Synced(r)
  {
    if n == 0 then s else Step(Iterate(s, n - 1))
  }

  /** Running `m` iterations and then `n` more is running `m + n`. */
  lemma {:induction false} IterateAdd(s: LoopState, m: nat, n: nat)
    ensures Iterate(s, m + n) == Iterate(Iterate(s, m), n)
  {
    if n > 0 {
      IterateAdd(s, m, n - 1);
    }
  }

  /** From the start of the program, for the first 0x4FFFF iterations the
      counter equals the number of iterations done; LED_1 keeps its power-on
      value up to and including iteration 0x17FF, is lit from 0x1800 to
      0x8FFF and dark from 0x9000 on. */
  lemma {:induction false} CountsUp(led1: bool, k: nat)
    requires k <= RESET_AT
    ensures Iterate(Start(led1), k) == LoopState(k, if k <= ON_AT then led1 else k <= OFF_AT)
  {
    if k > 0 {
      CountsUp(led1, k - 1);
      var prev := Iterate(Start(led1), k - 1);
      assert Iterate(Start(led1), k) == Step(prev);
      assert prev.hbeat == k - 1 < RESET_AT;
      if k - 1 == ON_AT {
        assert Step(prev) == LoopState(k, true);
      } else if k - 1 == OFF_AT {
        assert Step(prev) == LoopState(k, false);
      } else {
        assert Step(prev) == LoopState(k, prev.led1);
      }
    }
  }

  /** Exactly 0x50000 iterations bring the counter from 0 back to 0: it is
      not 0 at any iteration in between, and after the first cycle LED_1 is
      dark whatever its power-on value was. */
  lemma CycleLength(led1: bool)
    ensures Iterate(Start(led1), CYCLE) == Start(false)
    ensures forall k :: 0 < k < CYCLE ==> Iterate(Start(led1), k).hbeat == k
  {
    CountsUp(led1, RESET_AT);
    forall k | 0 < k < CYCLE
      ensures Iterate(Start(led1), k).hbeat == k
    {
      CountsUp(led1, k);
    }
  }

  /** The pattern is periodic with period 0x50000: after the first cycle
      the program runs from the state `Start(false)`, and from there every
      0x50000 iterations repeat the previous ones. */
  lemma Periodic(led1: bool, n: nat)
    ensures Iterate(Start(led1), CYCLE + n) == Iterate(Start(false), n)
    ensures Iterate(Start(false), CYCLE + n) == Iterate(Start(false), n)
  {
    CycleLength(led1);
    CycleLength(false);
    IterateAdd(Start(led1), CYCLE, n);
    IterateAdd(Start(false), CYCLE, n);
  }

  /** Once the LED_1-on arm has run (at iteration `m`), LED_1 is lit at the
      top of every later iteration exactly when 0x1800 <= hbeat <= 0x8FFF. */
  lemma {:induction false} SyncedAfterSetLed(s: LoopState, m: nat, n: nat)
    requires Iterate(s, m).hbeat == ON_AT
    requires m < n
    ensures Iterate(s, n).led1 <==> 0x1800 <= Iterate(s, n).hbeat <= 0x8FFF
    ensures Iterate(s, n).hbeat <= RESET_AT
  {
    assert Synced(Iterate(s, m + 1));
    IterateAdd(s, m + 1, n - (m + 1));
  }
}
