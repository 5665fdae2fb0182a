/** The Wii/GameCube joystick driver: open, the per-frame update handlers for
    Wii remotes (with nunchuk or classic expansion) and GameCube pads, rumble,
    close, and the device name and GUID. WPAD and PAD readings are inputs;
    the floating-point stick, orientation and shoulder computations are taken
    as the integers they produce. */
module WiiJoystick {
  import opened Ints
  import opened Wrappers
  import opened JoyEvents

  const MaxGcAxes: int := 6
  const MaxGcButtons: int := 8
  const MaxGcHats: int := 1
  const MaxWiiAxes: int := 9
  const MaxWiiButtons: int := 20
  const MaxWiiHats: int := 1

  const AxisMin: s16 := -32768
  const AxisMax: s16 := 32767

  /** The driver's static switches `__jswpad_enabled`, `__jspad_enabled`,
      `__numwiijoysticks` and `__numgcjoysticks`. */
  datatype Config = Config(wpadEnabled: bool, padEnabled: bool, numWiiJoysticks: int, numGcJoysticks: int)

  /** Their values in the driver: never changed after initialisation. */
  const Defaults: Config := Config(true, true, 4, 4)

  /** The WPAD and PAD bit masks, which come from the SDK headers: the two
      button tables (`sdl_buttons_wii`, `sdl_buttons_gc`) and the d-pad bits. */
  datatype Masks = Masks(
    wiiButtons: seq<bv32>,
    gcButtons: seq<bv32>,
    wiimoteUp: bv32, wiimoteDown: bv32, wiimoteLeft: bv32, wiimoteRight: bv32,
    classicUp: bv32, classicDown: bv32, classicLeft: bv32, classicRight: bv32,
    padUp: Bits16, padDown: Bits16, padLeft: Bits16, padRight: Bits16)

  /** Table sizes as in the driver; the PAD masks are 16-bit values kept
      zero-extended so both tables share the button loop. */
  predicate WellFormed(m: Masks) {
    && |m.wiiButtons| == MaxWiiButtons
    && |m.gcButtons| == MaxGcButtons
    && forall i :: 0 <= i < |m.gcButtons| ==> m.gcButtons[i] < 0x1_0000
  }

  /** `joystick_paddata`: the last GameCube readings reported. */
  datatype PadData = PadData(
    prevButtons: Bits16,
    stickX: s8, stickY: s8, substickX: s8, substickY: s8,
    triggerL: u8, triggerR: u8)

  /** `joystick_wpaddata`: the last Wii readings reported. */
  datatype WpadData = WpadData(
    prevButtons: bv32,
    nunchukStickX: s8, nunchukStickY: s8,
    classicLStickX: s8, classicLStickY: s8,
    classicRStickX: s8, classicRStickY: s8,
    classicTriggerL: u8, classicTriggerR: u8,
    pitch: s8, roll: s8, yaw: s8)

  /** `struct joystick_hwdata`. The C union of the two views is kept as two
      fields: a device only ever uses the view its `kind` (the C `type`) selects. */
  datatype Hwdata = Hwdata(index: int, kind: int, gamecube: PadData, wiimote: WpadData)

  /** The SDL_Joystick fields the driver touches; `hwdata` is None when NULL. */
  datatype Joystick = Joystick(hwdata: Option<Hwdata>, nbuttons: int, naxes: int, nhats: int)

  const ZeroPad: PadData := PadData(0, 0, 0, 0, 0, 0, 0)
  const ZeroWpad: WpadData := WpadData(0, 0, 0, 0, 0, 0, 0, 0, 0, 0, 0, 0)
  /** hwdata right after the memset in open. */
  const ZeroHwdata: Hwdata := Hwdata(0, 0, ZeroPad, ZeroWpad)

  /** The expansion WPAD_Probe reports. */
  datatype Expansion = ExpNone | ExpNunchuk | ExpClassic | ExpOther

  /** One frame of GameCube pad readings (PAD_ButtonsHeld, PAD_StickX, ...). */
  datatype PadReading = PadReading(
    buttons: Bits16,
    stickX: s8, stickY: s8, substickX: s8, substickY: s8,
    triggerL: u8, triggerR: u8)

  /** One frame of Wii readings: the held buttons, the probe result, the
      integers WPAD_Stick returns for the left (`right == 0`) and right stick,
      the truncated `shoulder * 255` values, and WPAD_Pitch/Roll/Yaw. */
  datatype WiiReading = WiiReading(
    buttons: bv32,
    probeFailed: bool,
    expansion: Expansion,
    leftStickX: s16, leftStickY: s16,
    rightStickX: s16, rightStickY: s16,
    rightShoulder: int, leftShoulder: int,
    pitch: s16, roll: s16, yaw: s16)

  datatype Step<S> = Step(events: seq<Event>, state: S)

  /** SDK calls the driver issues. */
  datatype JoyCall =
    | WpadScanPads
    | PadScanPads
    | WpadRumble(channel: int, on: bool)
    | PadControlMotor(channel: int, on: bool)
    | FreeHwdata

  // ----- shared axis scaling -----

  /** The clamped stick scaling: full scale at either end, `axis << 8` between. */
  function StickValue(axis: int): (v: s16)
    ensures AxisMin <= axis * 256 <= AxisMax ==> v == axis * 256
    ensures axis * 256 > AxisMax ==> v == AxisMax
    ensures axis * 256 < AxisMin ==> v == AxisMin
  {
    if axis >= 128 then AxisMax
    else if axis <= -128 then AxisMin
    else axis * 256
  }

  /** A signed 8-bit field after `if (field != axis) field = axis;`. Storing
      only on change leaves the same value as always storing the narrowed
      reading. */
  function StoreS8(stored: s8, reading: int): (v: s8)
    ensures v == ToS8(reading)
  {
    if stored != reading then ToS8(reading) else stored
  }

  /** The same for an unsigned 8-bit field. */
  function StoreU8(stored: u8, reading: int): (v: u8)
    ensures v == ToU8(reading)
  {
    if stored != reading then ToU8(reading) else stored
  }

  // ----- _HandleGCJoystickUpdate -----

  function GcDpad(m: Masks): bv32 {
    m.padLeft | m.padRight | m.padDown | m.padUp
  }

  /** The hat event when a d-pad bit changed, directions mapped directly. */
  function GcHatEvents(m: Masks, changed: bv32, held: bv32): (es: seq<Event>)
    ensures |es| <= 1 && forall e :: e in es ==> e.HatEvent? && e.hat == 0
    ensures es != [] <==> Hits(changed, GcDpad(m))
    ensures forall e :: e in es ==>
      e == HatEvent(0, HatValue(Hits(held, m.padUp), Hits(held, m.padDown),
                                Hits(held, m.padLeft), Hits(held, m.padRight)))
  {
    if Hits(changed, GcDpad(m)) then
      [HatEvent(0, HatValue(Hits(held, m.padUp), Hits(held, m.padDown),
                            Hits(held, m.padLeft), Hits(held, m.padRight)))]
    else []
  }

  /** The six GameCube axes: sticks shifted by 8 with Y negated before the
      shift, triggers shifted by 7; each reported only when it changed. */
  function GcAxisEvents(prev: PadData, r: PadReading): (es: seq<Event>)
    ensures forall e :: e in es ==> e.AxisEvent? && 0 <= e.axis < MaxGcAxes
    ensures Select(es, Axis(0)) == AxisIfChanged(0, prev.stickX, r.stickX, ToS16(r.stickX * 256))
    ensures Select(es, Axis(1)) == AxisIfChanged(1, prev.stickY, r.stickY, ToS16((-(r.stickY as int)) * 256))
    ensures Select(es, Axis(2)) == AxisIfChanged(2, prev.substickX, r.substickX, ToS16(r.substickX * 256))
    ensures Select(es, Axis(3)) == AxisIfChanged(3, prev.substickY, r.substickY, ToS16((-(r.substickY as int)) * 256))
    ensures Select(es, Axis(4)) == AxisIfChanged(4, prev.triggerL, r.triggerL, ToS16(r.triggerL * 128))
    ensures Select(es, Axis(5)) == AxisIfChanged(5, prev.triggerR, r.triggerR, ToS16(r.triggerR * 128))
  {
    var us := [
      AxisUpdate(0, prev.stickX, r.stickX, ToS16(r.stickX * 256)),
      AxisUpdate(1, prev.stickY, r.stickY, ToS16((-(r.stickY as int)) * 256)),
      AxisUpdate(2, prev.substickX, r.substickX, ToS16(r.substickX * 256)),
      AxisUpdate(3, prev.substickY, r.substickY, ToS16((-(r.substickY as int)) * 256)),
      AxisUpdate(4, prev.triggerL, r.triggerL, ToS16(r.triggerL * 128)),
      AxisUpdate(5, prev.triggerR, r.triggerR, ToS16(r.triggerR * 128))];
    AxisEventsWithin(us, 0, 5);
    SelectAxisEvents(us, 0);
    SelectAxisEvents(us, 1);
    SelectAxisEvents(us, 2);
    SelectAxisEvents(us, 3);
    SelectAxisEvents(us, 4);
    SelectAxisEvents(us, 5);
    AxisEvents(us)
  }

  /** Every event names a hat, button or axis below the counts open declared. */
  predicate WithinCounts(es: seq<Event>, nbuttons: int, naxes: int, nhats: int) {
    forall e :: e in es ==>
      && (e.HatEvent? ==> e.hat < nhats)
      && (e.ButtonEvent? ==> e.button < nbuttons)
      && (e.AxisEvent? ==> e.axis < naxes)
  }

  /** One GameCube update: hat, then buttons in table order, then axes; the
      new state holds this frame's readings. Storing only on change leaves the
      same values as storing always, since readings and fields have one type. */
  function GcStep(prev: PadData, r: PadReading, m: Masks): (s: Step<PadData>)
    requires WellFormed(m)
    ensures s.state == PadData(r.buttons, r.stickX, r.stickY, r.substickX, r.substickY, r.triggerL, r.triggerR)
    ensures WithinCounts(s.events, MaxGcButtons, MaxGcAxes, MaxGcHats)
  {
    var changed := r.buttons ^ prev.prevButtons;
    var hat := GcHatEvents(m, changed, r.buttons);
    var buttons := ButtonEvents(m.gcButtons, changed, r.buttons, AllButtons, 0);
    var axes := GcAxisEvents(prev, r);
    Step(hat + buttons + axes,
         PadData(r.buttons, r.stickX, r.stickY, r.substickX, r.substickY, r.triggerL, r.triggerR))
  }

  // ----- _HandleWiiJoystickUpdate -----

  /** A failed probe counts as no expansion. */
  function ProbedExpansion(r: WiiReading): (x: Expansion)
    ensures r.probeFailed ==> x == ExpNone
    ensures !r.probeFailed ==> x == r.expansion
  {
    if r.probeFailed then ExpNone else r.expansion
  }

  function FilterFor(x: Expansion): (f: ButtonFilter)
    ensures x == ExpClassic <==> f == SkipNunchuk
    ensures x == ExpNunchuk <==> f == SkipClassic
  {
    match x
    case ExpClassic => SkipNunchuk
    case ExpNunchuk => SkipClassic
    case _ => AllButtons
  }

  function ClassicDpad(m: Masks): bv32 {
    m.classicLeft | m.classicRight | m.classicDown | m.classicUp
  }

  function WiimoteDpad(m: Masks): bv32 {
    m.wiimoteLeft | m.wiimoteRight | m.wiimoteDown | m.wiimoteUp
  }

  /** The hat event: the classic controller's d-pad maps directly; the bare
      remote, held sideways, maps UP to LEFT, DOWN to RIGHT, LEFT to DOWN and
      RIGHT to UP. */
  function WiiHatEvents(m: Masks, x: Expansion, changed: bv32, held: bv32): (es: seq<Event>)
    ensures |es| <= 1 && forall e :: e in es ==> e.HatEvent? && e.hat == 0
    ensures x == ExpClassic ==>
      && (es != [] <==> Hits(changed, ClassicDpad(m)))
      && forall e :: e in es ==>
           e == HatEvent(0, HatValue(Hits(held, m.classicUp), Hits(held, m.classicDown),
                                     Hits(held, m.classicLeft), Hits(held, m.classicRight)))
    ensures x != ExpClassic ==>
      && (es != [] <==> Hits(changed, WiimoteDpad(m)))
      && forall e :: e in es ==>
           e == HatEvent(0, HatValue(Hits(held, m.wiimoteRight), Hits(held, m.wiimoteLeft),
                                     Hits(held, m.wiimoteUp), Hits(held, m.wiimoteDown)))
  {
    if x == ExpClassic then
      if Hits(changed, ClassicDpad(m)) then
        [HatEvent(0, HatValue(Hits(held, m.classicUp), Hits(held, m.classicDown),
                              Hits(held, m.classicLeft), Hits(held, m.classicRight)))]
      else []
    else
      if Hits(changed, WiimoteDpad(m)) then
        [HatEvent(0, HatValue(Hits(held, m.wiimoteRight), Hits(held, m.wiimoteLeft),
                              Hits(held, m.wiimoteUp), Hits(held, m.wiimoteDown)))]
      else []
  }

  /** Classic controller axes 0-5: left stick clamped, right stick shifted
      without a clamp, Y axes negated, shoulders shifted by 7. */
  function ClassicAxes(prev: WpadData, r: WiiReading): (s: Step<WpadData>)
    ensures forall e :: e in s.events ==> e.AxisEvent? && 0 <= e.axis <= 5
    ensures Select(s.events, Axis(0)) == AxisIfChanged(0, prev.classicLStickX, r.leftStickX, StickValue(r.leftStickX))
    ensures Select(s.events, Axis(1)) == AxisIfChanged(1, prev.classicLStickY, r.leftStickY, ToS16(-(StickValue(r.leftStickY) as int)))
    ensures Select(s.events, Axis(2)) == AxisIfChanged(2, prev.classicRStickX, r.rightStickX, ToS16(r.rightStickX * 256))
    ensures Select(s.events, Axis(3)) == AxisIfChanged(3, prev.classicRStickY, r.rightStickY, ToS16(-(r.rightStickY * 256)))
    ensures Select(s.events, Axis(4)) == AxisIfChanged(4, prev.classicTriggerR, r.rightShoulder, ToS16(r.rightShoulder * 128))
    ensures Select(s.events, Axis(5)) == AxisIfChanged(5, prev.classicTriggerL, r.leftShoulder, ToS16(r.leftShoulder * 128))
    ensures s.state == prev.(
      classicLStickX := StoreS8(prev.classicLStickX, r.leftStickX),
      classicLStickY := StoreS8(prev.classicLStickY, r.leftStickY),
      classicRStickX := StoreS8(prev.classicRStickX, r.rightStickX),
      classicRStickY := StoreS8(prev.classicRStickY, r.rightStickY),
      classicTriggerR := StoreU8(prev.classicTriggerR, r.rightShoulder),
      classicTriggerL := StoreU8(prev.classicTriggerL, r.leftShoulder))
  {
    var us := [
      AxisUpdate(0, prev.classicLStickX, r.leftStickX, StickValue(r.leftStickX)),
      AxisUpdate(1, prev.classicLStickY, r.leftStickY, ToS16(-(StickValue(r.leftStickY) as int))),
      AxisUpdate(2, prev.classicRStickX, r.rightStickX, ToS16(r.rightStickX * 256)),
      AxisUpdate(3, prev.classicRStickY, r.rightStickY, ToS16(-(r.rightStickY * 256))),
      AxisUpdate(4, prev.classicTriggerR, r.rightShoulder, ToS16(r.rightShoulder * 128)),
      AxisUpdate(5, prev.classicTriggerL, r.leftShoulder, ToS16(r.leftShoulder * 128))];
    AxisEventsWithin(us, 0, 5);
    SelectAxisEvents(us, 0);
    SelectAxisEvents(us, 1);
    SelectAxisEvents(us, 2);
    SelectAxisEvents(us, 3);
    SelectAxisEvents(us, 4);
    SelectAxisEvents(us, 5);
    Step(AxisEvents(us), prev.(
      classicLStickX := StoreS8(prev.classicLStickX, r.leftStickX),
      classicLStickY := StoreS8(prev.classicLStickY, r.leftStickY),
      classicRStickX := StoreS8(prev.classicRStickX, r.rightStickX),
      classicRStickY := StoreS8(prev.classicRStickY, r.rightStickY),
      classicTriggerR := StoreU8(prev.classicTriggerR, r.rightShoulder),
      classicTriggerL := StoreU8(prev.classicTriggerL, r.leftShoulder)))
  }

  /** Nunchuk axes 0-1: the stick, clamped, Y negated. */
  function NunchukAxes(prev: WpadData, r: WiiReading): (s: Step<WpadData>)
    ensures forall e :: e in s.events ==> e.AxisEvent? && 0 <= e.axis <= 1
    ensures Select(s.events, Axis(0)) == AxisIfChanged(0, prev.nunchukStickX, r.leftStickX, StickValue(r.leftStickX))
    ensures Select(s.events, Axis(1)) == AxisIfChanged(1, prev.nunchukStickY, r.leftStickY, ToS16(-(StickValue(r.leftStickY) as int)))
    ensures s.state == prev.(
      nunchukStickX := StoreS8(prev.nunchukStickX, r.leftStickX),
      nunchukStickY := StoreS8(prev.nunchukStickY, r.leftStickY))
  {
    var us := [
      AxisUpdate(0, prev.nunchukStickX, r.leftStickX, StickValue(r.leftStickX)),
      AxisUpdate(1, prev.nunchukStickY, r.leftStickY, ToS16(-(StickValue(r.leftStickY) as int)))];
    AxisEventsWithin(us, 0, 1);
    SelectAxisEvents(us, 0);
    SelectAxisEvents(us, 1);
    Step(AxisEvents(us), prev.(
      nunchukStickX := StoreS8(prev.nunchukStickX, r.leftStickX),
      nunchukStickY := StoreS8(prev.nunchukStickY, r.leftStickY)))
  }

  /** Remote orientation axes 6-8: pitch negated, all shifted by 8. */
  function OrientAxes(prev: WpadData, r: WiiReading): (s: Step<WpadData>)
    ensures forall e :: e in s.events ==> e.AxisEvent? && 6 <= e.axis <= 8
    ensures Select(s.events, Axis(6)) == AxisIfChanged(6, prev.pitch, r.pitch, ToS16(-(r.pitch * 256)))
    ensures Select(s.events, Axis(7)) == AxisIfChanged(7, prev.roll, r.roll, ToS16(r.roll * 256))
    ensures Select(s.events, Axis(8)) == AxisIfChanged(8, prev.yaw, r.yaw, ToS16(r.yaw * 256))
    ensures s.state == prev.(
      pitch := StoreS8(prev.pitch, r.pitch),
      roll := StoreS8(prev.roll, r.roll),
      yaw := StoreS8(prev.yaw, r.yaw))
  {
    var us := [
      AxisUpdate(6, prev.pitch, r.pitch, ToS16(-(r.pitch * 256))),
      AxisUpdate(7, prev.roll, r.roll, ToS16(r.roll * 256)),
      AxisUpdate(8, prev.yaw, r.yaw, ToS16(r.yaw * 256))];
    AxisEventsWithin(us, 6, 8);
    SelectAxisEvents(us, 0);
    SelectAxisEvents(us, 1);
    SelectAxisEvents(us, 2);
    Step(AxisEvents(us), prev.(
      pitch := StoreS8(prev.pitch, r.pitch),
      roll := StoreS8(prev.roll, r.roll),
      yaw := StoreS8(prev.yaw, r.yaw)))
  }

  /** The expansion's axes, if any. */
  function ExpansionAxes(prev: WpadData, r: WiiReading, x: Expansion): (s: Step<WpadData>)
    ensures forall e :: e in s.events ==> e.AxisEvent? && e.axis <= 5
    ensures x == ExpClassic ==> s == ClassicAxes(prev, r)
    ensures x == ExpNunchuk ==> s == NunchukAxes(prev, r)
    ensures x != ExpClassic && x != ExpNunchuk ==> s == Step([], prev)
  {
    if x == ExpClassic then ClassicAxes(prev, r)
    else if x == ExpNunchuk then NunchukAxes(prev, r)
    else Step([], prev)
  }

  /** One Wii update: hat, buttons in table order (filtered by expansion),
      expansion axes, orientation axes. The expansion and orientation parts
      touch disjoint fields of the stored state. */
  function WiiStep(prev: WpadData, r: WiiReading, m: Masks): (s: Step<WpadData>)
    requires WellFormed(m)
    ensures WithinCounts(s.events, MaxWiiButtons, MaxWiiAxes, MaxWiiHats)
    ensures s.state.prevButtons == r.buttons
    ensures s.state.pitch == StoreS8(prev.pitch, r.pitch)
    ensures s.state.roll == StoreS8(prev.roll, r.roll)
    ensures s.state.yaw == StoreS8(prev.yaw, r.yaw)
  {
    var x := ProbedExpansion(r);
    var changed := r.buttons ^ prev.prevButtons;
    var hat := WiiHatEvents(m, x, changed, r.buttons);
    var buttons := ButtonEvents(m.wiiButtons, changed, r.buttons, FilterFor(x), 0);
    var ex := ExpansionAxes(prev, r, x);
    var or := OrientAxes(prev, r);
    Step(hat + buttons + (ex.events + or.events),
         ex.state.(prevButtons := r.buttons, pitch := or.state.pitch, roll := or.state.roll, yaw := or.state.yaw))
  }

  // ----- Wii_JoystickOpen -----

  datatype OpenResult = OpenResult(ret: int, joystick: Joystick)

  /** Classify `deviceIndex`: indices below 4 are Wii remotes, 4 to 7 GameCube
      pads (stored as `deviceIndex - 4`); anything else keeps the zeroed hwdata
      and the caller's counts. Only a failed allocation returns -1. */
  function JoystickOpen(j: Joystick, deviceIndex: int, gotMemory: bool, cfg: Config): (r: OpenResult)
    ensures r.ret == 0 || r.ret == -1
    ensures r.ret == -1 <==> !gotMemory
    ensures !gotMemory ==> r.joystick == j.(hwdata := None)
    ensures gotMemory ==> r.joystick.hwdata.Some?
  {
    if !gotMemory then OpenResult(-1, j.(hwdata := None))
    else if deviceIndex < 4 && cfg.wpadEnabled then
      if deviceIndex < cfg.numWiiJoysticks then
        OpenResult(0, Joystick(Some(ZeroHwdata.(index := deviceIndex, kind := 0)),
                               MaxWiiButtons, MaxWiiAxes, MaxWiiHats))
      else OpenResult(0, j.(hwdata := Some(ZeroHwdata)))
    else if deviceIndex < 8 && cfg.padEnabled then
      if deviceIndex < cfg.numGcJoysticks + 4 then
        OpenResult(0, Joystick(Some(ZeroHwdata.(index := deviceIndex - 4, kind := 1)),
                               MaxGcButtons, MaxGcAxes, MaxGcHats))
      else OpenResult(0, j.(hwdata := Some(ZeroHwdata)))
    else OpenResult(0, j.(hwdata := Some(ZeroHwdata)))
  }

  // ----- Wii_JoystickUpdate -----

  datatype UpdateResult = UpdateResult(joystick: Option<Joystick>, events: seq<Event>, calls: seq<JoyCall>)

  /** Poll both SDKs, then run the handler the hwdata `kind` selects. `wii` and
      `pad` give the readings of each WPAD / PAD channel. The GameCube handler
      is passed the stored index and subtracts 4 again before reading. Only the
      hwdata view of the selected kind changes. */
  function JoystickUpdate(js: Option<Joystick>, cfg: Config, m: Masks,
                          wii: int -> WiiReading, pad: int -> PadReading): (r: UpdateResult)
    requires WellFormed(m)
    ensures js.None? || js.value.hwdata.None? ==> r.joystick == js && r.events == [] && r.calls == []
    ensures js.Some? && js.value.hwdata.Some? ==>
      var hw := js.value.hwdata.value;
      && r.calls == [WpadScanPads, PadScanPads]
      && r.joystick.Some? && r.joystick.value.hwdata.Some?
      && var hw' := r.joystick.value.hwdata.value;
      && r.joystick.value.nbuttons == js.value.nbuttons
      && r.joystick.value.naxes == js.value.naxes
      && r.joystick.value.nhats == js.value.nhats
      && hw'.index == hw.index && hw'.kind == hw.kind
      && (!(hw.kind == 0 && cfg.wpadEnabled) && !(hw.kind == 1 && cfg.padEnabled) ==>
            r.events == [] && r.joystick == js)
  {
    if js.None? || js.value.hwdata.None? then UpdateResult(js, [], [])
    else
      var j := js.value;
      var hw := j.hwdata.value;
      var calls := [WpadScanPads, PadScanPads];
      if hw.kind == 0 && cfg.wpadEnabled then
        var s := WiiStep(hw.wiimote, wii(hw.index), m);
        UpdateResult(Some(j.(hwdata := Some(hw.(wiimote := s.state)))), s.events, calls)
      else if hw.kind == 1 && cfg.padEnabled then
        var s := GcStep(hw.gamecube, pad(PadChannel(hw.index)), m);
        UpdateResult(Some(j.(hwdata := Some(hw.(gamecube := s.state)))), s.events, calls)
      else
        UpdateResult(js, [], calls)
  }

  /** The PAD channel the GameCube handler reads for a stored index: it
      takes 4 off the index it is given. */
  function PadChannel(index: int): (c: int)
    ensures c + 4 == index
  {
    index - 4
  }

  // ----- Wii_JoystickRumble -----

  datatype RumbleResult = RumbleResult(ret: int, calls: seq<JoyCall>)

  /** Turn the motor on iff either strength is non-zero. The channel is chosen
      by range-testing the stored index with the same tests open uses on the
      device index. */
  function JoystickRumble(j: Joystick, low: u16, high: u16, cfg: Config): (r: RumbleResult)
    ensures r.ret == 0
    ensures |r.calls| <= 1
    ensures j.hwdata.None? ==> r.calls == []
    ensures forall c :: c in r.calls ==> (c.WpadRumble? || c.PadControlMotor?) && c.on == (low > 0 || high > 0)
    ensures forall c :: c in r.calls && c.WpadRumble? ==>
      c.channel == j.hwdata.value.index && c.channel < 4 && c.channel < cfg.numWiiJoysticks
    ensures forall c :: c in r.calls && c.PadControlMotor? ==>
      c.channel == j.hwdata.value.index - 4 && c.channel < 4 && c.channel < cfg.numGcJoysticks
  {
    if j.hwdata.None? then RumbleResult(0, [])
    else
      var index := j.hwdata.value.index;
      var on := low > 0 || high > 0;
      if index < 4 && cfg.wpadEnabled then
        RumbleResult(0, if index < cfg.numWiiJoysticks then [WpadRumble(index, on)] else [])
      else if index < 8 && cfg.padEnabled then
        RumbleResult(0, if index < cfg.numGcJoysticks + 4 then [PadControlMotor(index - 4, on)] else [])
      else
        RumbleResult(0, [])
  }

  // ----- Wii_JoystickClose -----

  /** Free hwdata unless the joystick or its hwdata is already NULL. */
  function JoystickClose(js: Option<Joystick>): (calls: seq<JoyCall>)
    ensures calls == [] <==> js.None? || js.value.hwdata.None?
    ensures calls != [] ==> calls == [FreeHwdata]
  {
    if js.None? || js.value.hwdata.None? then [] else [FreeHwdata]
  }

  // ----- Wii_JoystickGetDeviceName / GUID -----

  /** The WPAD channel numbers the name switch tests. */
  const WpadChanAll: int := -1
  const WpadBalanceBoard: int := 4

  function DeviceName(deviceIndex: int): (name: string)
    ensures 0 < |name| <= 17
    ensures forall k :: 0 <= k < |name| ==> 0 < name[k] as int < 128
  {
    match deviceIndex
    case -1 => "<all>"
    case 0 => "WII Remote #1"
    case 1 => "WII Remote #2"
    case 2 => "WII Remote #3"
    case 3 => "WII Remote #4"
    case 4 => "WII Balance board"
    case _ => "WII Remote"
  }

  /** C string length: up to the first NUL. */
  function Strlen(s: string): (n: nat)
    ensures n <= |s|
    ensures forall k :: 0 <= k < n ==> s[k] != '\0'
    ensures n < |s| ==> s[n] == '\0'
  {
    if s == [] || s[0] == '\0' then 0 else 1 + Strlen(s[1..])
  }

  const GuidSize: nat := 16

  /** A zeroed 16-byte GUID with the first `min(16, strlen(name))` bytes of the name copied in. */
  function DeviceGuid(deviceIndex: int): (g: seq<u8>)
    ensures |g| == GuidSize
    ensures forall k :: 0 <= k < GuidSize ==>
      g[k] == if k < |DeviceName(deviceIndex)| then DeviceName(deviceIndex)[k] as int else 0
  {
    var name := DeviceName(deviceIndex);
    var n := Min(GuidSize, Strlen(name));
    seq(GuidSize, k requires 0 <= k < GuidSize => if k < n then name[k] as int else 0)
  }
}
