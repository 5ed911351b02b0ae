/** The driver layer of the Griffin PowerMate USB knob: the LED control word
    written by `set_cfg` and its two shortcuts, and the classification of raw
    input events into knob rotations and button presses. The device itself
    (opening it, reading raw events, writing the word) is not modelled: the
    raw events are a finite sequence given as input and every write is the
    word the function returns. */
module Powermate {
  import opened Bits

  // Bit positions of the fields of the control word, as in the Linux
  // PowerMate driver; brightness occupies the bits below SpeedShift.
  const SpeedShift: nat := 8
  const PulseShift: nat := 17
  const AsleepShift: nat := 19
  const AwakeShift: nat := 20
  /** Every field lies below this bit. */
  const WordBits: nat := AwakeShift + 1

  // The largest argument values the driver documents.
  const MaxBrightness: nat := 255
  const MaxPulseSpeed: nat := 510
  const MaxPulseTable: nat := 2

  /** The five fields of an LED configuration, in the order `set_cfg` takes them. */
  datatype LedConfig = LedConfig(brightness: nat, pulseSpeed: nat, asleep: bool, awake: bool, pulseTable: nat)

  /** The ranges the driver documents for its arguments: brightness 0-255,
      pulse speed 0-510, pulse table 0, 1 or 2. */
  predicate InRange(brightness: nat, pulseSpeed: nat, pulseTable: nat)
  {
    brightness <= MaxBrightness && pulseSpeed <= MaxPulseSpeed && pulseTable <= MaxPulseTable
  }

  /** The powers of two at the field boundaries and field widths. */
  lemma Pow2Boundaries()
    ensures Pow2(1) == 2 && Pow2(2) == 4 && Pow2(9) == 512
    ensures Pow2(SpeedShift) == 256 && Pow2(PulseShift) == 131072 && Pow2(AsleepShift) == 524288
    ensures Pow2(AwakeShift) == 1048576 && Pow2(WordBits) == 2097152
  {
  }

  /** Python's `int(flag)`. */
  function Bit(flag: bool): nat
  {
    if flag then 1 else 0
  }

  /** The control word `set_cfg` writes: the five fields or-ed together at
      their shifts. Nothing is clamped, so the documented ranges are required
      of the caller; within them the fields do not overlap and the or is a sum. */
  function SetCfg(brightness: nat, pulseSpeed: nat, asleep: bool := false, awake: bool := true, pulseTable: nat := 0): (w: nat)
    requires InRange(brightness, pulseSpeed, pulseTable)
    ensures w == brightness + pulseSpeed * Pow2(SpeedShift) + pulseTable * Pow2(PulseShift) + Bit(asleep) * Pow2(AsleepShift) + Bit(awake) * Pow2(AwakeShift)
    ensures w < Pow2(WordBits)
  {
    Pow2Boundaries();
    OrOfFields(brightness, pulseSpeed, asleep, awake, pulseTable);
    BitOr(BitOr(BitOr(BitOr(brightness, ShiftLeft(pulseSpeed, SpeedShift)),
                      ShiftLeft(pulseTable, PulseShift)),
                ShiftLeft(Bit(asleep), AsleepShift)),
          ShiftLeft(Bit(awake), AwakeShift))
  }

  /** Within the documented ranges each field lies below the next one's
      shift, so each `|` of `set_cfg` adds a field without touching the others. */
  lemma OrOfFields(brightness: nat, pulseSpeed: nat, asleep: bool, awake: bool, pulseTable: nat)
    requires InRange(brightness, pulseSpeed, pulseTable)
    ensures BitOr(BitOr(BitOr(BitOr(brightness, ShiftLeft(pulseSpeed, SpeedShift)),
                              ShiftLeft(pulseTable, PulseShift)),
                        ShiftLeft(Bit(asleep), AsleepShift)),
                  ShiftLeft(Bit(awake), AwakeShift))
         == brightness + pulseSpeed * Pow2(SpeedShift) + pulseTable * Pow2(PulseShift) + Bit(asleep) * Pow2(AsleepShift) + Bit(awake) * Pow2(AwakeShift)
  {
    Pow2Boundaries();
    var speedBits := ShiftLeft(pulseSpeed, SpeedShift);
    var tableBits := ShiftLeft(pulseTable, PulseShift);
    var asleepBits := ShiftLeft(Bit(asleep), AsleepShift);
    var awakeBits := ShiftLeft(Bit(awake), AwakeShift);
    ShiftLeftIsMul(pulseSpeed, SpeedShift);
    ShiftLeftIsMul(pulseTable, PulseShift);
    ShiftLeftIsMul(Bit(asleep), AsleepShift);
    ShiftLeftIsMul(Bit(awake), AwakeShift);
    assert speedBits == pulseSpeed * 256 && tableBits == pulseTable * 131072;
    assert asleepBits == Bit(asleep) * 524288 && awakeBits == Bit(awake) * 1048576;
    BitOrDisjoint(brightness, pulseSpeed, SpeedShift);
    BitOrDisjoint(brightness + speedBits, pulseTable, PulseShift);
    BitOrDisjoint(brightness + speedBits + tableBits, Bit(asleep), AsleepShift);
    BitOrDisjoint(brightness + speedBits + tableBits + asleepBits, Bit(awake), AwakeShift);
  }

  /** Reads the five fields back out of a control word, by the same bit layout. */
  function Decode(w: nat): LedConfig
  {
    LedConfig(
      Field(w, 0, SpeedShift),
      Field(w, SpeedShift, PulseShift - SpeedShift),
      TestBit(w, AsleepShift),
      TestBit(w, AwakeShift),
      Field(w, PulseShift, AsleepShift - PulseShift))
  }

  /** `set_steady_led`: a steady LED at the given brightness. */
  function SetSteadyLed(brightness: nat): (w: nat)
    requires brightness <= MaxBrightness
    ensures w == brightness
  {
    SetCfg(brightness, 0, false, false)
  }

  /** `set_pulse`: a pulsing LED at the given speed, both when the host is
      asleep and when it is awake. */
  function SetPulse(speed: nat): (w: nat)
    requires speed <= MaxPulseSpeed
    ensures w == speed * Pow2(SpeedShift) + Pow2(AsleepShift) + Pow2(AwakeShift)
  {
    SetCfg(0, speed, true, true)
  }

  /** A word built field by field, each field shifted past the one below it. */
  ghost function Layout(brightness: nat, pulseSpeed: nat, asleep: nat, awake: nat, pulseTable: nat): nat
  {
    brightness + ShiftLeft(pulseSpeed + ShiftLeft(pulseTable + ShiftLeft(asleep + ShiftLeft(awake, 1), 2), 9), 8)
  }

  /** The layout adds up to the fields times the powers of two at their shifts. */
  lemma LayoutValue(brightness: nat, pulseSpeed: nat, asleep: nat, awake: nat, pulseTable: nat)
    ensures Layout(brightness, pulseSpeed, asleep, awake, pulseTable)
         == brightness + pulseSpeed * Pow2(SpeedShift) + pulseTable * Pow2(PulseShift) + asleep * Pow2(AsleepShift) + awake * Pow2(AwakeShift)
  {
    var r4 := asleep + ShiftLeft(awake, 1);
    var r3 := pulseTable + ShiftLeft(r4, 2);
    var r1 := pulseSpeed + ShiftLeft(r3, 9);
    ShiftLeftIsMul(awake, 1);
    ShiftLeftIsMul(r4, 2);
    ShiftLeftIsMul(r3, 9);
    ShiftLeftIsMul(r1, 8);
    Pow2Boundaries();
  }

  /** Decoding a layout of fields that fit their widths gives the fields back. */
  lemma DecodeLayout(brightness: nat, pulseSpeed: nat, asleep: nat, awake: nat, pulseTable: nat)
    requires brightness < Pow2(8) && pulseSpeed < Pow2(9) && pulseTable < Pow2(2)
    requires asleep < Pow2(1) && awake < Pow2(1)
    ensures Decode(Layout(brightness, pulseSpeed, asleep, awake, pulseTable))
         == LedConfig(brightness, pulseSpeed, asleep == 1, awake == 1, pulseTable)
  {
    var w := Layout(brightness, pulseSpeed, asleep, awake, pulseTable);
    var r4 := asleep + ShiftLeft(awake, 1);
    var r3 := pulseTable + ShiftLeft(r4, 2);
    var r1 := pulseSpeed + ShiftLeft(r3, 9);
    assert Field(w, 0, SpeedShift) == brightness && ShiftRight(w, 8) == r1 by {
      SplitAt(brightness, r1, 8);
    }
    assert Field(w, SpeedShift, PulseShift - SpeedShift) == pulseSpeed && ShiftRight(w, 17) == r3 by {
      SplitAt(pulseSpeed, r3, 9);
      ShiftRightAdd(w, 8, 9);
    }
    assert Field(w, PulseShift, AsleepShift - PulseShift) == pulseTable && ShiftRight(w, 19) == r4 by {
      SplitAt(pulseTable, r4, 2);
      ShiftRightAdd(w, 17, 2);
    }
    assert TestBit(w, AsleepShift) == (asleep == 1) && ShiftRight(w, 20) == awake by {
      SplitAt(asleep, awake, 1);
      ShiftRightAdd(w, 19, 1);
    }
  }

  /** Round trip: for arguments in the documented ranges, every field of the
      word `set_cfg` writes reads back as the argument that was passed. */
  lemma DecodeSetCfg(brightness: nat, pulseSpeed: nat, asleep: bool, awake: bool, pulseTable: nat)
    requires InRange(brightness, pulseSpeed, pulseTable)
    ensures Decode(SetCfg(brightness, pulseSpeed, asleep, awake, pulseTable))
         == LedConfig(brightness, pulseSpeed, asleep, awake, pulseTable)
  {
    var w := SetCfg(brightness, pulseSpeed, asleep, awake, pulseTable);
    assert w == Layout(brightness, pulseSpeed, Bit(asleep), Bit(awake), pulseTable) by {
      LayoutValue(brightness, pulseSpeed, Bit(asleep), Bit(awake), pulseTable);
    }
    assert brightness < Pow2(8) && pulseSpeed < Pow2(9) && pulseTable < Pow2(2) && Pow2(1) == 2 by {
      Pow2Boundaries();
    }
    DecodeLayout(brightness, pulseSpeed, Bit(asleep), Bit(awake), pulseTable);
  }

  /** Every word is its decoded fields laid out again, plus whatever lies at
      bit 21 and above. */
  lemma LayoutDecode(w: nat)
    ensures var c := Decode(w);
      w == Layout(c.brightness, c.pulseSpeed, Bit(c.asleep), Bit(c.awake), c.pulseTable) + ShiftLeft(ShiftRight(w, WordBits), WordBits)
  {
    var c := Decode(w);
    Pow2Boundaries();
    var r1 := ShiftRight(w, 8);
    var r2 := ShiftRight(w, 17);
    var r3 := ShiftRight(w, 19);
    var r4 := ShiftRight(w, 20);
    var r5 := ShiftRight(w, WordBits);
    assert w == c.brightness + 256 * r1 by {
      Recompose(w, 8);
      ShiftLeftIsMul(r1, 8);
    }
    assert r1 == c.pulseSpeed + 512 * r2 by {
      Recompose(r1, 9);
      ShiftRightAdd(w, 8, 9);
      ShiftLeftIsMul(r2, 9);
    }
    assert r2 == c.pulseTable + 4 * r3 by {
      Recompose(r2, 2);
      ShiftRightAdd(w, 17, 2);
      ShiftLeftIsMul(r3, 2);
    }
    assert r3 == Bit(c.asleep) + 2 * r4 by {
      Recompose(r3, 1);
      ShiftRightAdd(w, 19, 1);
      ShiftLeftIsMul(r4, 1);
    }
    assert r4 == Bit(c.awake) + 2 * r5 by {
      Recompose(r4, 1);
      ShiftRightAdd(w, 20, 1);
      ShiftLeftIsMul(r5, 1);
    }
    ShiftLeftIsMul(r5, WordBits);
    LayoutValue(c.brightness, c.pulseSpeed, Bit(c.asleep), Bit(c.awake), c.pulseTable);
  }

  /** The converse: a word below bit 21 whose speed and table fields are in
      the documented ranges is exactly what `set_cfg` writes for its fields. */
  lemma SetCfgDecode(w: nat)
    requires w < Pow2(WordBits)
    requires Decode(w).pulseSpeed <= MaxPulseSpeed && Decode(w).pulseTable <= MaxPulseTable
    ensures var c := Decode(w);
      SetCfg(c.brightness, c.pulseSpeed, c.asleep, c.awake, c.pulseTable) == w
  {
    var c := Decode(w);
    LayoutDecode(w);
    SplitAt(w, 0, WordBits);
    ShiftLeftIsMul(0, WordBits);
    LayoutValue(c.brightness, c.pulseSpeed, Bit(c.asleep), Bit(c.awake), c.pulseTable);
  }

  /** `set_cfg(b, s)` with its default flags pulses while awake, not while
      asleep, and uses pulse table 0. */
  lemma SetCfgDefaults(brightness: nat, pulseSpeed: nat)
    requires brightness <= MaxBrightness && pulseSpeed <= MaxPulseSpeed
    ensures Decode(SetCfg(brightness, pulseSpeed)) == LedConfig(brightness, pulseSpeed, false, true, 0)
  {
    DecodeSetCfg(brightness, pulseSpeed, false, true, 0);
  }

  /** `set_steady_led(b)` configures brightness b with no pulsing at all. */
  lemma DecodeSteadyLed(brightness: nat)
    requires brightness <= MaxBrightness
    ensures Decode(SetSteadyLed(brightness)) == LedConfig(brightness, 0, false, false, 0)
  {
    DecodeSetCfg(brightness, 0, false, false, 0);
  }

  /** `set_pulse(s)` configures brightness 0, speed s, pulse table 0 and
      pulsing both asleep and awake. */
  lemma DecodePulse(speed: nat)
    requires speed <= MaxPulseSpeed
    ensures Decode(SetPulse(speed)) == LedConfig(0, speed, true, true, 0)
  {
    DecodeSetCfg(0, speed, true, true, 0);
  }

  // Event classification

  datatype Option<T> = None | Some(value: T)

  /** The type of a raw input event. Only relative-axis and key events
      matter here; every other kind is one opaque tag. */
  datatype EventType = EvRel | EvKey | EvOther(code: nat)

  /** A raw input event from the device: its timestamp (never inspected),
      its type and its value. */
  datatype RawEvent<T> = RawEvent(ts: T, etype: EventType, value: int)

  /** The two event kinds the driver reports, `'rotate'` and `'button'`. */
  datatype EventKind = Rotate | Button

  /** The `(ts, event, value)` tuple `read_event` yields. */
  datatype Event<T> = Event(ts: T, kind: EventKind, value: int)

  predicate Qualifies<T>(r: RawEvent<T>)
  {
    r.etype == EvRel || r.etype == EvKey
  }

  /** What `read_event` yields for one raw event, if anything. */
  function Classify<T>(r: RawEvent<T>): Option<Event<T>>
  {
    match r.etype
    case EvRel => Some(Event(r.ts, Rotate, r.value))
    case EvKey => Some(Event(r.ts, Button, r.value))
    case EvOther(_) => None
  }

  /** The events `read_event` yields while the device produces `raws`. */
  function ClassifyAll<T>(raws: seq<RawEvent<T>>): (events: seq<Event<T>>)
    ensures |events| <= |raws|
  {
    if raws == [] then []
    else
      var last := raws[|raws| - 1];
      ClassifyAll(raws[..|raws| - 1]) + match Classify(last) case Some(e) => [e] case None => []
  }

  /** The read loop of `read_event` over a finite stream of raw events,
      collecting what it yields. */
  method ReadEvents<T>(raws: seq<RawEvent<T>>) returns (events: seq<Event<T>>)
    ensures events == ClassifyAll(raws)
  {
    events := [];
    for i := 0 to |raws|
      invariant events == ClassifyAll(raws[..i])
    {
      assert raws[..i + 1][..i] == raws[..i];
      match Classify(raws[i])
      case Some(e) =>
        events := events + [e];
      case None =>
    }
    assert raws[..|raws|] == raws;
  }

  /** The indices of the qualifying raw events, in increasing order. */
  ghost function QualifyingIndices<T>(raws: seq<RawEvent<T>>): seq<nat>
  {
    if raws == [] then []
    else
      QualifyingIndices(raws[..|raws| - 1]) + if Qualifies(raws[|raws| - 1]) then [|raws| - 1] else []
  }

  /** Classification is a filter: the yielded events are, in order, the
      qualifying raw events and no others, each with its timestamp and value
      passed through and its kind given by its type. */
  lemma {:induction false} ClassifyAllFilters<T>(raws: seq<RawEvent<T>>)
    ensures var events, idx := ClassifyAll(raws), QualifyingIndices(raws);
      && |events| == |idx|
      && (forall j :: 0 <= j < |idx| ==> idx[j] < |raws| && Qualifies(raws[idx[j]]))
      && (forall j, k :: 0 <= j < k < |idx| ==> idx[j] < idx[k])
      && (forall i :: 0 <= i < |raws| && Qualifies(raws[i]) ==> i in idx)
      && (forall j :: 0 <= j < |idx| ==>
            && events[j].ts == raws[idx[j]].ts
            && events[j].value == raws[idx[j]].value
            && (events[j].kind == Rotate <==> raws[idx[j]].etype == EvRel))
  {
    if raws != [] {
      var init := raws[..|raws| - 1];
      ClassifyAllFilters(init);
      var events, idx := ClassifyAll(raws), QualifyingIndices(raws);
      forall j | 0 <= j < |QualifyingIndices(init)|
        ensures idx[j] == QualifyingIndices(init)[j] && raws[idx[j]] == init[idx[j]]
      {
      }
    }
  }

  /** Classifying a stream in two pieces yields the same events as
      classifying it whole: the loop keeps no state between raw events. */
  lemma {:induction false} ClassifyAllAppend<T>(a: seq<RawEvent<T>>, b: seq<RawEvent<T>>)
    ensures ClassifyAll(a + b) == ClassifyAll(a) + ClassifyAll(b)
    decreases |b|
  {
    if b != [] {
      var b' := b[..|b| - 1];
      assert (a + b)[..|a + b| - 1] == a + b';
      ClassifyAllAppend(a, b');
    } else {
      assert a + b == a;
    }
  }

  /** Nothing is yielded exactly when no raw event is a relative-axis or key event. */
  lemma {:induction false} ClassifyAllEmpty<T>(raws: seq<RawEvent<T>>)
    ensures ClassifyAll(raws) == [] <==> forall i :: 0 <= i < |raws| ==> !Qualifies(raws[i])
  {
    if raws != [] {
      var init := raws[..|raws| - 1];
      ClassifyAllEmpty(init);
      if ClassifyAll(raws) == [] {
        assert ClassifyAll(init) == [];
        forall i | 0 <= i < |raws| ensures !Qualifies(raws[i]) {
          if i < |init| {
            assert raws[i] == init[i];
          }
        }
      } else {
        assert forall i :: 0 <= i < |init| ==> raws[i] == init[i];
      }
    }
  }
}
