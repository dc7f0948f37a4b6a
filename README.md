# PIC18 heartbeat firmware, modelled in Dafny

The firmware blinks two LEDs on a PIC18Fxxkxx board.

- **LED_1 (LATB1).** `main` drives it from a free-running busy-wait counter, `hbeat`. Each pass of the `while(1)` loop compares `hbeat` with three literal thresholds:
  - at `0x17FF` it switches LED_1 on;
  - at `0x8FFF` it switches LED_1 off;
  - at `0x4FFFF` it sets `hbeat` back to 0;
  - in every other case it only increments.
- **LED_2 (LATB2).** The Timer0 overflow interrupt `low_isr` drives it. When the overflow flag `TMR0IF` is set, the handler:
  - toggles LED_2;
  - clears the flag;
  - reloads the timer with `TIMER0_DEF_VALUE` (`0xF000`).

The project has three files:

- `heartbeat.dfy` (module `Heartbeat`) specifies one loop iteration as a pure function on the state it touches: the counter and LED_1. It proves:
  - the counter stays in range;
  - the four branches are mutually exclusive;
  - the cycle length is exactly 0x50000 and the pattern repeats with that period;
  - LED_1 is a function of the counter once the "on" branch has run.
- `timer0.dfy` (module `Timer0`) specifies the handler and the hardware's overflow signal. It proves that LED_2 equals its initial value XOR "an odd number of overflows were serviced".
- `firmware.dfy` (module `Firmware`) holds the class `Mcu`. Its fields are the ones the firmware updates in place:
  - `hbeat`;
  - the two latch bits;
  - `TMR0IF`;
  - the Timer0 register.

  `Step`, `Run`, `Isr`, `Overflow` and `Execute` are each proved against the pure specifications. Their `modifies` clauses show that the main loop writes only `hbeat` and LED_1, and that the handler writes only LED_2, the flag and the timer register. The module also models interleaved runs of loop iterations and timer events. It proves that each side's state depends only on its own events.

`unsigned long` is 32 bits under XC8. So `hbeat++` is modelled as addition modulo 2^32 (`Heartbeat.Inc`). Starting from 0, the counter never gets near the wrap. The C statement `LED_2 = ~LED_2` writes into a one-bit field, and its effect is negation, so the latch bits are modelled as `bool`.

The loop's period is 0x50000 iterations, not 0x4FFFF: the reset to 0 takes an iteration of its own (`Heartbeat.CycleLength`). LED_1 is lit for 0x7800 of those iterations, from `hbeat == 0x1800` to `hbeat == 0x8FFF` at the top of the loop.

## Model

| member | source | states |
|---|---|---|
| `Heartbeat.Inc` | main.c:191 | `hbeat++` on a 32-bit unsigned long adds one below 0xFFFFFFFF and wraps to 0 at it |
| `Heartbeat.BranchOf` | main.c:179-192 | each arm of the if/else-if chain is taken exactly when its own equality guard holds; the chain's order does not matter, and exactly one arm fires |
| `Heartbeat.Step` | main.c:178-193 | one iteration keeps hbeat in 0..0x4FFFF; it goes to 0 exactly at 0x4FFFF and otherwise increases by exactly 1; LED_1 becomes 1 at 0x17FF, becomes 0 at 0x8FFF, and changes nowhere else; the "on" branch establishes, and every step keeps, "LED_1 lit iff 0x1800 <= hbeat <= 0x8FFF" |
| `Heartbeat.Iterate` | main.c:178-193 | any number of iterations keeps hbeat within 0..0x4FFFF, and keeps the LED_1/counter relation once it holds |
| `Heartbeat.IterateAdd` | main.c:178-193 | m iterations followed by n more are m + n iterations |
| `Heartbeat.CountsUp` | main.c:135-193 | from hbeat = 0, after k <= 0x4FFFF iterations hbeat == k; LED_1 keeps its power-on level up to k = 0x17FF, is 1 for 0x1800..0x8FFF and 0 from 0x9000 |
| `Heartbeat.CycleLength` | main.c:187-189 | from hbeat = 0, exactly 0x50000 iterations bring hbeat back to 0 (it is nonzero at every count in between), with LED_1 off |
| `Heartbeat.Periodic` | main.c:178-193 | after the first cycle the run continues as from (0, LED_1 off), and from there it repeats with period 0x50000 |
| `Heartbeat.SyncedAfterSetLed` | main.c:179-186 | once the hbeat == 0x17FF branch has run, at the top of every later iteration LED_1 is 1 exactly when 0x1800 <= hbeat <= 0x8FFF |
| `Timer0.Isr` | main.c:199-208 | with TMR0IF set: LED_2 is negated, TMR0IF is cleared and the timer is set to 0xF000; with TMR0IF clear nothing changes; the flag is clear afterwards either way |
| `Timer0.RaiseFlag` | main.c:201 | a hardware overflow sets TMR0IF and leaves LED_2 and the timer register alone |
| `Timer0.Run` | main.c:199-208 | in any sequence of overflows and handler entries, the value last written into the timer register is either its initial value or 0xF000 (the register's counting between writes is not modelled) |
| `Timer0.Led2Parity` | main.c:203 | after any sequence of timer events, LED_2 == initial LED_2 XOR (the number of serviced overflows is odd) |
| `Timer0.ServicedPairs` | main.c:201-207 | when each of N overflows is followed by a handler entry, all N are serviced and LED_2 == initial XOR (N odd); for N > 0 the flag is clear and the timer register was last written with 0xF000 |
| `Firmware.LoopIgnoresTimer` | main.c:178-193 | in any interleaving of loop iterations and timer events, hbeat and LED_1 are those of the loop run alone for the same number of iterations |
| `Firmware.TimerIgnoresLoop` | main.c:199-208 | in any interleaving, LED_2, TMR0IF and the timer register are those of the timer events run alone |
| `Firmware.Mcu.constructor` | main.c:135-163 | startup: hbeat = 0, timer register = 0xF000, TMR0IF = 0; LED_1 and LED_2 keep their given power-on levels |
| `Firmware.Mcu.WriteTimer0` | main.c:160 | sets the timer register to the given value and nothing else |
| `Firmware.Mcu.Step` | main.c:178-193 | one loop iteration updates (hbeat, LED_1) as `Heartbeat.Step` and writes no other field |
| `Firmware.Mcu.Run` | main.c:178-193 | n loop iterations update (hbeat, LED_1) as `Heartbeat.Iterate` and keep the counter's range |
| `Firmware.Mcu.Overflow` | main.c:201 | the hardware overflow sets TMR0IF only |
| `Firmware.Mcu.Isr` | main.c:199-208 | `low_isr` updates (LED_2, TMR0IF, timer register) as `Timer0.Isr` and does not touch hbeat or LED_1 |
| `Firmware.Mcu.Execute` | main.c:166 | carrying out an interleaving of iterations and timer events in order yields `Firmware.Exec` of the events, and keeps hbeat within 0..0x4FFFF |

## Left out

- Oscillator and PLL setup (main.c:140-148) and the TRIS direction writes (main.c:175-176) are one-time register writes with no logic.
- `OpenTimer0` (main.c:157) is a peripheral-library call whose code is not part of this model. Only `WriteTimer0`'s effect, setting the timer register, is modelled.
- How Timer0 counts and when it overflows is hardware behaviour. `Overflow` only raises TMR0IF. It does not model the register counting up or wrapping to 0, so no timing is claimed.
- Timer0.Isr: the handler runs atomically with respect to Timer0 overflows (and so does `Firmware.Mcu.Isr`). An overflow while the handler runs is not modelled. One between the test of TMR0IF (main.c:201) and its clear (main.c:205) would be lost. One between the clear and the reload (main.c:205-207) would leave TMR0IF set, which `ensures !r.tmr0if` does not allow. With prescale 1:256 and reload 0xF000, the next overflow is 0x1000 × 256 instruction cycles after the reload, but that timing is not proved.
- `ei()` (main.c:166) enables preemption at any instruction boundary. The loop and the handler share no state, so the model lets timer events fall only between whole loop iterations.
- The infinite `while(1)` is not modelled. `Run(n)` and `Execute` run finite prefixes of it.
- The wall-clock periods in the header comment (main.c:16) and `MCU_FREQ` (main.c:82) depend on clock speed and instruction timing, so they are not modelled.
- The bootloader and linker offset notes, `Config_Bits.h` and the unused standard includes are build configuration, not logic.
