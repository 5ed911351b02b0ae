# pypowermate in Dafny

A verified model of the small Python driver for the Griffin PowerMate USB
knob, and of the example program that drives the knob's LED from the knob.

- `bits.dfy` (module `Bits`): Python's integer operations on non-negative
  values: `<<`, `>>`, `|`, and extracting a bit field. Python integers are
  unbounded, so these are defined on `nat` and nothing wraps around.
- `powermate.dfy` (module `Powermate`): the `Powermate` class of
  `pypowermate/powermate.py`.
  - `set_cfg` packs five LED fields into one control word. It is modelled by
    `SetCfg`, which has the same default arguments.
  - `set_steady_led` and `set_pulse` are modelled by `SetSteadyLed` and
    `SetPulse`.
  - `Decode` reads the fields back by the same bit layout. It is the inverse
    of `SetCfg` on the documented ranges, and the round-trip lemmas use it.
  - The loop in `read_event` turns raw input events into `rotate` and
    `button` events. It is modelled by `ReadEvents`, a method over a finite
    sequence of raw events. Each raw event is classified by `Classify`, and
    the method is proved against the filter function `ClassifyAll`.
- `pulse_and_brightness.dfy` (module `PulseAndBrightness`): the loop of
  `examples/pulse_and_brightness.py`.
  - The class `Knob` holds the program's three variables. Its `Step` method
    handles one event and returns the control word it would write.
  - `Run` runs the whole program over a finite stream of raw events.
  - `Next`, `Final` and `Writes` are the pure functions that specify the
    loop, and the lemmas are stated about them.

The methods write nothing to a device. `SetCfg`, `SetSteadyLed` and
`SetPulse` return the word that `dev.write(EV_MSC, MSC_PULSELED, value)`
would send. `Knob.Step` and `Run` return the words, in order.

`set_cfg` does not clamp its arguments (pypowermate/powermate.py:85-91);
the model follows the code. The documented ranges are brightness 0-255, speed
0-510 and pulse table 0-2. They are preconditions of `SetCfg`, `SetSteadyLed`
and `SetPulse`. The example program clamps its own values before each call,
and `Next` proves that its calls always meet these preconditions.

## Model

| member | source | states |
|---|---|---|
| Bits.BitOrBits | pypowermate/powermate.py:85-91 | `BitOr` is the bitwise or: a bit of the or of `a` and `b` is set exactly when it is set in `a` or in `b` |
| Bits.BitOrDisjoint | pypowermate/powermate.py:85-91 | a value below bit k or-ed with a value shifted left by k equals their sum, because the two share no bits |
| Bits.SplitAt | pypowermate/powermate.py:85-91 | the low k bits of `a + (b << k)` are `a` (when `a < 2^k`), and shifting it right by k gives `b` |
| Powermate.SetCfg | pypowermate/powermate.py:74-92 | for arguments in the documented ranges, the or of the five shifted fields (shifts 8, 17, 19, 20) equals `brightness + speed*2^8 + table*2^17 + asleep*2^19 + awake*2^20`, and it is below 2^21 |
| Powermate.DecodeSetCfg | pypowermate/powermate.py:74-91 | round trip: bits 0-7, 8-16, 17-18, 19 and 20 of the written word are exactly brightness, speed, table, asleep and awake |
| Powermate.SetCfgDecode | pypowermate/powermate.py:85-91 | the converse: a word below 2^21 whose speed field is at most 510 and whose table field is at most 2 is what `set_cfg` writes for its own decoded fields |
| Powermate.SetCfgDefaults | pypowermate/powermate.py:74 | `set_cfg(b, s)` with its defaults writes table 0, asleep bit clear, awake bit set, and b and s in their fields |
| Powermate.SetSteadyLed | pypowermate/powermate.py:95-101 | `set_steady_led(b)` writes exactly the word `b` |
| Powermate.DecodeSteadyLed | pypowermate/powermate.py:95-101 | the word `set_steady_led(b)` writes has brightness b, speed 0, table 0 and both pulse flags clear |
| Powermate.SetPulse | pypowermate/powermate.py:103-110 | `set_pulse(s)` writes `s*2^8 + 2^19 + 2^20` |
| Powermate.DecodePulse | pypowermate/powermate.py:103-110 | the word `set_pulse(s)` writes has brightness 0, speed s, table 0 and bits 19 and 20 both set |
| Powermate.ClassifyAll | pypowermate/powermate.py:68-72 | the loop yields at most as many events as it reads raw events |
| Powermate.ReadEvents | pypowermate/powermate.py:52-72 | the read loop, classifying each raw event in turn, yields exactly `ClassifyAll` of a finite raw stream |
| Powermate.ClassifyAllFilters | pypowermate/powermate.py:68-72 | the output is an order-preserving subsequence: it pairs one to one, in order, with the positions of the `EV_REL` and `EV_KEY` events; every such event appears; timestamp and value pass through; `EV_REL` becomes `rotate` and `EV_KEY` becomes `button` |
| Powermate.ClassifyAllAppend | pypowermate/powermate.py:68-72 | classifying a stream in two pieces gives the concatenation of the two results, so no state is kept between raw events |
| Powermate.ClassifyAllEmpty | pypowermate/powermate.py:68-72 | nothing is yielded if and only if no raw event is an `EV_REL` or `EV_KEY` event |
| PulseAndBrightness.Clamp | examples/pulse_and_brightness.py:32 | `min(max(x, lo), hi)` lies in [lo, hi]; it is x when x is in range, lo below it and hi above it |
| PulseAndBrightness.Next | examples/pulse_and_brightness.py:21-39 | one turn of the loop keeps speed in [0, 510] and brightness in [0, 255] |
| PulseAndBrightness.Final | examples/pulse_and_brightness.py:21-39 | after any sequence of events, speed is in [0, 510] and brightness is in [0, 255] |
| PulseAndBrightness.ButtonStep | examples/pulse_and_brightness.py:22-28 | a button event with value 0 selects speed mode and any other value selects brightness mode; speed and brightness are unchanged and nothing is written |
| PulseAndBrightness.RotateStep | examples/pulse_and_brightness.py:29-39 | a rotation in speed mode sets speed to `clamp(speed + val, 0, 510)` and leaves brightness alone; in brightness mode it sets brightness to `clamp(brightness + val, 0, 255)` and leaves speed alone; the mode is unchanged; the written word decodes to the new brightness and speed, table 0, and both flags equal to the mode (`set_cfg(b, s, True, True)` in speed mode, `set_cfg(b, s, False, False)` otherwise) |
| PulseAndBrightness.WritesPerRotation | examples/pulse_and_brightness.py:29-39 | the number of words written is the number of rotation events: one per rotation, none per button event |
| PulseAndBrightness.WritesPrefix | examples/pulse_and_brightness.py:21-39 | the words written for a prefix of the events are a prefix of the words written for all of them, so a later event never changes an earlier write |
| PulseAndBrightness.WriteOfRotation | examples/pulse_and_brightness.py:29-39 | the rotation at position i writes the word numbered by the rotations before it, and that word decodes to the speed and brightness after the rotation, table 0, and both flags equal to the mode at that time |
| PulseAndBrightness.WritesWellFormed | examples/pulse_and_brightness.py:29-39 | every word the program writes is below 2^21 and decodes to brightness at most 255, speed at most 510, table 0 and equal asleep and awake flags |
| PulseAndBrightness.ModeFollowsLastButton | examples/pulse_and_brightness.py:22-28 | after any events, speed mode is the one set by the last button event, or the starting mode if there was none |
| PulseAndBrightness.Knob.constructor | examples/pulse_and_brightness.py:14-16 | the program starts in speed mode with speed 255 and brightness 255 |
| PulseAndBrightness.Knob.Step | examples/pulse_and_brightness.py:21-39 | updates the three variables in place, as `Next` says, keeps them in range, and returns the word written, if any |
| PulseAndBrightness.Run | examples/pulse_and_brightness.py:21-39 | the whole program, fed a finite raw stream through `read_event`, writes exactly `Writes(Initial, ClassifyAll(raws))` |

## Left out

- Opening the device (`InputDevice(path)`) is not modelled. It is I/O through the evdev library.
- The blocking `read_loop()` generator is not modelled. The raw events it would produce are a finite sequence given as input.
- The write `dev.write(EV_MSC, MSC_PULSELED, value)` is not modelled. Each word is returned instead.
- The numeric values of the evdev event-type codes are not modelled. `EV_REL`, `EV_KEY` and every other type are distinct tags.
- Timestamps are floating point values from `event.timestamp()`. They are an opaque type parameter that is passed through and never inspected.
- Negative or out-of-range arguments to `set_cfg`, `set_steady_led` and `set_pulse` are excluded by preconditions. The source accepts them, and they would spill into neighbouring bit fields. Negative Python integers, whose `|` and `<<` act on an infinite two's-complement form, are outside `nat`.
- Read timeouts, polling and a timeout exception are not modelled: `read_event` (pypowermate/powermate.py:52) takes no timeout argument and `PowermateTimeoutException` is not defined in powermate.py; only `tests/test_powermate.py` uses them, and it needs real hardware.
- The argument check, `sys.exit` and the `print` calls of the example program are not modelled. They are console I/O only.
- `setup.py` is not modelled. It is packaging only.
