/** The example program that drives the LED from the knob: turning the knob
    changes the pulse speed, turning it while it is pressed changes the
    brightness, and every turn writes a new LED configuration. */
module PulseAndBrightness {
  import opened Bits
  import opened Powermate

  // The program's own bounds for speed and brightness.
  const SpeedLimit: int := 510
  const BrightnessLimit: int := 255

  /** The program's three variables. Speed and brightness are Python ints,
      so they may leave their ranges for a moment before being clamped. */
  datatype KnobState = KnobState(speedMode: bool, speed: int, brightness: int)

  /** Speed and brightness are within what `set_cfg` accepts. */
  predicate ValidState(s: KnobState)
  {
    0 <= s.speed <= SpeedLimit && 0 <= s.brightness <= BrightnessLimit
  }

  /** The values the program starts with. */
  const Initial := KnobState(true, 255, 255)

  function Min(a: int, b: int): int { if a <= b then a else b }
  function Max(a: int, b: int): int { if a >= b then a else b }

  /** `min(max(x, lo), hi)`: x moved into [lo, hi] by the least amount. */
  function Clamp(x: int, lo: int, hi: int): (r: int)
    requires lo <= hi
    ensures lo <= r <= hi
    ensures lo <= x <= hi ==> r == x
    ensures x < lo ==> r == lo
    ensures x > hi ==> r == hi
  {
    Min(Max(x, lo), hi)
  }

  /** One turn of the program's loop: the new values of its variables and
      the control word it writes, if it writes one. */
  function Next<T>(s: KnobState, ev: Event<T>): (r: (KnobState, Option<nat>))
    requires ValidState(s)
    ensures ValidState(r.0)
  {
    match ev.kind
    case Button =>
      (s.(speedMode := ev.value == 0), None)
    case Rotate =>
      if s.speedMode then
        var speed := Clamp(s.speed + ev.value, 0, SpeedLimit);
        (s.(speed := speed), Some(SetCfg(s.brightness, speed, true, true)))
      else
        var brightness := Clamp(s.brightness + ev.value, 0, BrightnessLimit);
        (s.(brightness := brightness), Some(SetCfg(brightness, s.speed, false, false)))
  }

  /** The variables after the loop has handled `events`. */
  function Final<T>(s: KnobState, events: seq<Event<T>>): (r: KnobState)
    requires ValidState(s)
    ensures ValidState(r)
  {
    if events == [] then s
    else Next(Final(s, events[..|events| - 1]), events[|events| - 1]).0
  }

  /** The control words the loop writes while handling `events`, in order. */
  function Writes<T>(s: KnobState, events: seq<Event<T>>): seq<nat>
    requires ValidState(s)
  {
    if events == [] then []
    else
      var last := Next(Final(s, events[..|events| - 1]), events[|events| - 1]);
      Writes(s, events[..|events| - 1]) + match last.1 case Some(w) => [w] case None => []
  }

  /** A button event sets speed mode when the knob is released (value 0)
      and brightness mode otherwise; it writes nothing and leaves speed and
      brightness alone. */
  lemma ButtonStep<T>(s: KnobState, ev: Event<T>)
    requires ValidState(s) && ev.kind == Button
    ensures var (s', w) := Next(s, ev);
      && (s'.speedMode <==> ev.value == 0)
      && s'.speed == s.speed && s'.brightness == s.brightness
      && w == None
  {
  }

  /** A rotation in speed mode moves the speed by the rotation, clamped to
      [0, 510], and writes speed and brightness with pulsing on both asleep and
      awake; in brightness mode it moves the brightness, clamped to [0, 255],
      and writes them with pulsing off. Either way the mode is unchanged, only
      the one value moves, and the word written decodes to the new values. */
  lemma RotateStep<T>(s: KnobState, ev: Event<T>)
    requires ValidState(s) && ev.kind == Rotate
    ensures var (s', w) := Next(s, ev);
      && s'.speedMode == s.speedMode
      && (s.speedMode ==> s'.speed == Clamp(s.speed + ev.value, 0, SpeedLimit) && s'.brightness == s.brightness)
      && (!s.speedMode ==> s'.brightness == Clamp(s.brightness + ev.value, 0, BrightnessLimit) && s'.speed == s.speed)
      && w.Some?
      && Decode(w.value) == LedConfig(s'.brightness, s'.speed, s.speedMode, s.speedMode, 0)
  {
    var (s', w) := Next(s, ev);
    DecodeSetCfg(s'.brightness, s'.speed, s.speedMode, s.speedMode, 0);
  }

  /** The number of rotation events. */
  function Rotations<T>(events: seq<Event<T>>): nat
  {
    if events == [] then 0
    else Rotations(events[..|events| - 1]) + if events[|events| - 1].kind == Rotate then 1 else 0
  }

  /** Exactly one word is written per rotation; button events write none. */
  lemma {:induction false} WritesPerRotation<T>(s: KnobState, events: seq<Event<T>>)
    requires ValidState(s)
    ensures |Writes(s, events)| == Rotations(events)
  {
    if events != [] {
      WritesPerRotation(s, events[..|events| - 1]);
    }
  }

  /** The words written for a prefix of the events begin the words written
      for all of them: later events never change an earlier write. */
  lemma {:induction false} WritesPrefix<T>(s: KnobState, events: seq<Event<T>>, k: nat)
    requires ValidState(s) && k <= |events|
    ensures Writes(s, events[..k]) <= Writes(s, events)
  {
    if k < |events| {
      var init := events[..|events| - 1];
      assert init[..k] == events[..k];
      WritesPrefix(s, init, k);
    } else {
      assert events[..k] == events;
    }
  }

  /** The rotation at position i writes the word numbered by the rotations
      before it; that word decodes to the speed and brightness after the
      rotation, pulse table 0, and both pulse flags equal to the mode the
      rotation happened in. */
  lemma WriteOfRotation<T>(s: KnobState, events: seq<Event<T>>, i: nat)
    requires ValidState(s) && i < |events| && events[i].kind == Rotate
    ensures var j, before, after := Rotations(events[..i]), Final(s, events[..i]), Final(s, events[..i + 1]);
      && j < |Writes(s, events)|
      && Decode(Writes(s, events)[j]) == LedConfig(after.brightness, after.speed, before.speedMode, before.speedMode, 0)
  {
    var prefix := events[..i + 1];
    assert prefix[..i] == events[..i];
    WritesPrefix(s, events, i + 1);
    WritesPerRotation(s, events[..i]);
    RotateStep(Final(s, events[..i]), events[i]);
  }

  /** Every word the program writes is below bit 21 and decodes to a speed
      within [0, 510], a brightness within [0, 255], pulse table 0 and equal
      asleep and awake flags. */
  lemma {:induction false} WritesWellFormed<T>(s: KnobState, events: seq<Event<T>>)
    requires ValidState(s)
    ensures forall w :: w in Writes(s, events) ==>
      var c := Decode(w);
      && w < Pow2(WordBits)
      && c.brightness <= BrightnessLimit && c.pulseSpeed <= SpeedLimit && c.pulseTable == 0
      && c.asleep == c.awake
  {
    if events != [] {
      var init := events[..|events| - 1];
      WritesWellFormed(s, init);
      var last := events[|events| - 1];
      var before := Final(s, init);
      if last.kind == Rotate {
        RotateStep(before, last);
      }
    }
  }

  /** After any events, the mode is the one set by the last button event, or
      the starting mode if there was none. */
  lemma {:induction false} ModeFollowsLastButton<T>(s: KnobState, events: seq<Event<T>>)
    requires ValidState(s)
    ensures (forall i :: 0 <= i < |events| ==> events[i].kind != Button) ==> Final(s, events).speedMode == s.speedMode
    ensures forall i :: 0 <= i < |events| && events[i].kind == Button
                        && (forall j :: i < j < |events| ==> events[j].kind != Button)
                        ==> (Final(s, events).speedMode <==> events[i].value == 0)
  {
    if events != [] {
      var init := events[..|events| - 1];
      ModeFollowsLastButton(s, init);
      assert forall i :: 0 <= i < |init| ==> init[i] == events[i];
    }
  }

  /** The program's variables, updated in place as its loop runs. */
  class Knob {
    var speedMode: bool
    var speed: int
    var brightness: int

    function State(): KnobState
      reads this
    {
      KnobState(speedMode, speed, brightness)
    }

    predicate Valid()
      reads this
    {
      ValidState(State())
    }

    /** Speed mode, speed 255 and brightness 255. */
    constructor ()
      ensures Valid() && State() == Initial
    {
      speed := 255;
      brightness := 255;
      speedMode := true;
    }

    /** Handles one event and returns the control word it writes, if any. */
    method Step<T>(ev: Event<T>) returns (write: Option<nat>)
      requires Valid()
      modifies this
      ensures Valid()
      ensures (State(), write) == Next(old(State()), ev)
    {
      if ev.kind == Button {
        if ev.value == 0 {
          speedMode := true;
        } else {
          speedMode := false;
        }
        write := None;
      } else if speedMode {
        speed := speed + ev.value;
        speed := Min(Max(speed, 0), SpeedLimit);
        write := Some(SetCfg(brightness, speed, true, true));
      } else {
        brightness := brightness + ev.value;
        brightness := Min(Max(brightness, 0), BrightnessLimit);
        write := Some(SetCfg(brightness, speed, false, false));
      }
    }
  }

  /** Handling one more event takes one more step of `Next`. */
  lemma ExtendRun<T>(s: KnobState, events: seq<Event<T>>, i: nat)
    requires ValidState(s) && i < |events|
    ensures var (s', w) := Next(Final(s, events[..i]), events[i]);
      && Final(s, events[..i + 1]) == s'
      && Writes(s, events[..i + 1]) == Writes(s, events[..i]) + match w case Some(x) => [x] case None => []
  {
    assert events[..i + 1][..i] == events[..i];
  }

  /** The whole program over a finite stream of raw events: the control
      words it writes, in order. */
  method Run<T>(raws: seq<RawEvent<T>>) returns (writes: seq<nat>)
    ensures writes == Writes(Initial, ClassifyAll(raws))
  {
    var events := ReadEvents(raws);
    var knob := new Knob();
    writes := [];
    for i := 0 to |events|
      invariant knob.Valid()
      invariant knob.State() == Final(Initial, events[..i])
      invariant writes == Writes(Initial, events[..i])
    {
      ExtendRun(Initial, events, i);
      var w := knob.Step(events[i]);
      if w.Some? {
        writes := writes + [w.value];
      }
    }
    assert events[..|events|] == events;
  }
}
