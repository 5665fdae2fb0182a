/** Properties of the Wii/GameCube joystick model: what each update reports on
    each channel, that reports happen only on change, that a repeated frame
    is silent, how devices are classified and rumbled, and the GUID layout. */
module WiiJoystickProperties {
  import opened Ints
  import opened Wrappers
  import opened JoyEvents
  import opened WiiJoystick

  // ----- what each update reports, channel by channel -----

  /** What a GameCube update reports on each channel: the hat event if a
      d-pad bit changed, the button loop over the changed masks, and the axis
      events of the six readings. */
  lemma GcStepChannels(prev: PadData, r: PadReading, m: Masks)
    requires WellFormed(m)
    ensures Select(GcStep(prev, r, m).events, Hats) == GcHatEvents(m, r.buttons ^ prev.prevButtons, r.buttons)
    ensures Select(GcStep(prev, r, m).events, Buttons)
         == ButtonEvents(m.gcButtons, r.buttons ^ prev.prevButtons, r.buttons, AllButtons, 0)
    ensures forall k: nat :: Select(GcStep(prev, r, m).events, Axis(k)) == Select(GcAxisEvents(prev, r), Axis(k))
  {
    var changed := r.buttons ^ prev.prevButtons;
    SelectParts(GcHatEvents(m, changed, r.buttons),
                ButtonEvents(m.gcButtons, changed, r.buttons, AllButtons, 0),
                GcAxisEvents(prev, r));
  }

  /** The button channel alone, for proofs that need nothing else. */
  lemma GcStepButtons(prev: PadData, r: PadReading, m: Masks)
    requires WellFormed(m)
    ensures Select(GcStep(prev, r, m).events, Buttons)
         == ButtonEvents(m.gcButtons, r.buttons ^ prev.prevButtons, r.buttons, AllButtons, 0)
  {
    GcStepChannels(prev, r, m);
  }

  /** A Wii update's events are the hat part, the button part, then the axes. */
  lemma WiiStepParts(prev: WpadData, r: WiiReading, m: Masks)
    requires WellFormed(m)
    ensures var x := ProbedExpansion(r);
      var changed := r.buttons ^ prev.prevButtons;
      WiiStep(prev, r, m).events
         == WiiHatEvents(m, x, changed, r.buttons)
            + ButtonEvents(m.wiiButtons, changed, r.buttons, FilterFor(x), 0)
            + (ExpansionAxes(prev, r, x).events + OrientAxes(prev, r).events)
  {
  }

  lemma WiiAxesAreAxes(prev: WpadData, r: WiiReading)
    ensures forall e :: e in ExpansionAxes(prev, r, ProbedExpansion(r)).events + OrientAxes(prev, r).events ==>
      e.AxisEvent?
  {
    var ex := ExpansionAxes(prev, r, ProbedExpansion(r)).events;
    var or := OrientAxes(prev, r).events;
    assert forall e :: e in ex ==> e.AxisEvent?;
    assert forall e :: e in or ==> e.AxisEvent?;
  }

  /** A Wii update reports on the hat the event for the expansion's d-pad. */
  lemma WiiStepHat(prev: WpadData, r: WiiReading, m: Masks)
    requires WellFormed(m)
    ensures Select(WiiStep(prev, r, m).events, Hats)
         == WiiHatEvents(m, ProbedExpansion(r), r.buttons ^ prev.prevButtons, r.buttons)
  {
    var x := ProbedExpansion(r);
    var changed := r.buttons ^ prev.prevButtons;
    WiiAxesAreAxes(prev, r);
    SelectParts(WiiHatEvents(m, x, changed, r.buttons),
                ButtonEvents(m.wiiButtons, changed, r.buttons, FilterFor(x), 0),
                ExpansionAxes(prev, r, x).events + OrientAxes(prev, r).events);
    WiiStepParts(prev, r, m);
  }

  /** A Wii update reports on the buttons the button loop filtered by the expansion. */
  lemma WiiStepButtons(prev: WpadData, r: WiiReading, m: Masks)
    requires WellFormed(m)
    ensures Select(WiiStep(prev, r, m).events, Buttons)
         == ButtonEvents(m.wiiButtons, r.buttons ^ prev.prevButtons, r.buttons, FilterFor(ProbedExpansion(r)), 0)
  {
    var x := ProbedExpansion(r);
    var changed := r.buttons ^ prev.prevButtons;
    WiiAxesAreAxes(prev, r);
    SelectParts(WiiHatEvents(m, x, changed, r.buttons),
                ButtonEvents(m.wiiButtons, changed, r.buttons, FilterFor(x), 0),
                ExpansionAxes(prev, r, x).events + OrientAxes(prev, r).events);
    WiiStepParts(prev, r, m);
  }

  /** What a Wii update reports on the axes: axes 0-5 come from the expansion,
      axes 6-8 from the remote's orientation. */
  lemma WiiStepAxes(prev: WpadData, r: WiiReading, m: Masks, k: nat)
    requires WellFormed(m)
    ensures k <= 5 ==>
      Select(WiiStep(prev, r, m).events, Axis(k)) == Select(ExpansionAxes(prev, r, ProbedExpansion(r)).events, Axis(k))
    ensures k >= 6 ==> Select(WiiStep(prev, r, m).events, Axis(k)) == Select(OrientAxes(prev, r).events, Axis(k))
  {
    var x := ProbedExpansion(r);
    var changed := r.buttons ^ prev.prevButtons;
    AxesOfParts(WiiHatEvents(m, x, changed, r.buttons),
                ButtonEvents(m.wiiButtons, changed, r.buttons, FilterFor(x), 0),
                ExpansionAxes(prev, r, x).events, OrientAxes(prev, r).events, k);
    WiiStepParts(prev, r, m);
  }

  /** In hat events, then button events, then axes 0-5, then axes 6 on, each
      axis channel selects from its own group. */
  lemma AxesOfParts(hat: seq<Event>, buttons: seq<Event>, ex: seq<Event>, or: seq<Event>, k: nat)
    requires forall e :: e in hat ==> e.HatEvent?
    requires forall e :: e in buttons ==> e.ButtonEvent?
    requires forall e :: e in ex ==> e.AxisEvent? && e.axis <= 5
    requires forall e :: e in or ==> e.AxisEvent? && 6 <= e.axis
    ensures k <= 5 ==> Select(hat + buttons + (ex + or), Axis(k)) == Select(ex, Axis(k))
    ensures k >= 6 ==> Select(hat + buttons + (ex + or), Axis(k)) == Select(or, Axis(k))
  {
    SelectParts(hat, buttons, ex + or);
    SelectAppend(ex, or, Axis(k));
    if k <= 5 {
      SelectNone(or, Axis(k));
    } else {
      SelectNone(ex, Axis(k));
    }
  }

  // ----- GameCube pads -----

  /** Button membership in a sequence whose button channel is the button loop. */
  lemma ButtonReportedIn(es: seq<Event>, masks: seq<bv32>, changed: bv32, held: bv32, f: ButtonFilter,
                         k: nat, pressed: bool)
    requires k < |masks|
    requires Select(es, Buttons) == ButtonEvents(masks, changed, held, f, 0)
    ensures ButtonEvent(k, pressed) in es
        <==> !Skipped(f, k) && Hits(changed, masks[k]) && pressed == Hits(held, masks[k])
  {
    ButtonEventsExact(masks, changed, held, f, 0, k, pressed);
    SelectMember(es, Buttons, ButtonEvent(k, pressed));
  }

  /** GameCube button `k` is reported, with state `pressed`, exactly when its
      mask touches a bit that changed since the last frame, and `pressed` says
      whether the mask is held now. */
  lemma GcButtonReported(prev: PadData, r: PadReading, m: Masks, k: nat, pressed: bool)
    requires WellFormed(m) && k < MaxGcButtons
    ensures ButtonEvent(k, pressed) in GcStep(prev, r, m).events
        <==> Hits(r.buttons ^ prev.prevButtons, m.gcButtons[k]) && pressed == Hits(r.buttons, m.gcButtons[k])
  {
    GcStepButtons(prev, r, m);
    ButtonReportedIn(GcStep(prev, r, m).events, m.gcButtons, r.buttons ^ prev.prevButtons, r.buttons,
                     AllButtons, k, pressed);
  }

  /** GameCube button events come in table order, each button at most once. */
  lemma GcButtonsOrdered(prev: PadData, r: PadReading, m: Masks)
    requires WellFormed(m)
    ensures ButtonsIncreasing(Select(GcStep(prev, r, m).events, Buttons))
  {
    ButtonEventsOrdered(m.gcButtons, r.buttons ^ prev.prevButtons, r.buttons, AllButtons, 0);
    GcStepChannels(prev, r, m);
  }

  /** The hat value's direction bits for held d-pad bits `up`, `down`, `left`, `right`. */
  predicate HatShows(e: Event, up: bool, down: bool, left: bool, right: bool)
    requires e.HatEvent?
  {
    && (e.direction & HatUp != 0) == up
    && (e.direction & HatDown != 0) == down
    && (e.direction & HatLeft != 0) == left
    && (e.direction & HatRight != 0) == right
  }

  lemma HatEventShows(up: bool, down: bool, left: bool, right: bool)
    ensures HatShows(HatEvent(0, HatValue(up, down, left, right)), up, down, left, right)
  {
    HatValueBits(up, down, left, right);
  }

  /** The GameCube hat event, when there is one, shows the held d-pad directions. */
  lemma GcHatShows(m: Masks, changed: bv32, held: bv32)
    ensures forall e :: e in GcHatEvents(m, changed, held) ==>
      e.HatEvent? && HatShows(e, Hits(held, m.padUp), Hits(held, m.padDown), Hits(held, m.padLeft), Hits(held, m.padRight))
  {
    HatEventShows(Hits(held, m.padUp), Hits(held, m.padDown), Hits(held, m.padLeft), Hits(held, m.padRight));
  }

  /** The GameCube hat is reported at most once, exactly when a d-pad bit
      changed, and each hat direction is set iff the same d-pad direction is held. */
  lemma GcHatReported(prev: PadData, r: PadReading, m: Masks)
    requires WellFormed(m)
    ensures var hats := Select(GcStep(prev, r, m).events, Hats);
      && |hats| <= 1
      && (hats != [] <==> Hits(r.buttons ^ prev.prevButtons, GcDpad(m)))
      && forall e :: e in hats ==>
           e.HatEvent? && e.hat == 0
           && HatShows(e, Hits(r.buttons, m.padUp), Hits(r.buttons, m.padDown),
                       Hits(r.buttons, m.padLeft), Hits(r.buttons, m.padRight))
  {
    GcHatShows(m, r.buttons ^ prev.prevButtons, r.buttons);
    GcStepChannels(prev, r, m);
  }

  /** The stored value of GameCube axis `k` and the reading it is compared with. */
  function PadAxis(p: PadData, k: nat): int {
    match k
    case 0 => p.stickX
    case 1 => p.stickY
    case 2 => p.substickX
    case 3 => p.substickY
    case 4 => p.triggerL
    case 5 => p.triggerR
    case _ => 0
  }

  function PadReadingAxis(r: PadReading, k: nat): int {
    match k
    case 0 => r.stickX
    case 1 => r.stickY
    case 2 => r.substickX
    case 3 => r.substickY
    case 4 => r.triggerL
    case 5 => r.triggerR
    case _ => 0
  }

  /** Each GameCube axis gets at most one event, exactly when its reading
      differs from the stored one, and afterwards the reading is stored. */
  lemma GcAxisChangeOnly(prev: PadData, r: PadReading, m: Masks, k: nat)
    requires WellFormed(m) && k < MaxGcAxes
    ensures |Select(GcStep(prev, r, m).events, Axis(k))| <= 1
    ensures Select(GcStep(prev, r, m).events, Axis(k)) != [] <==> PadAxis(prev, k) != PadReadingAxis(r, k)
    ensures PadAxis(GcStep(prev, r, m).state, k) == PadReadingAxis(r, k)
  {
    var es := GcStep(prev, r, m).events;
    GcStepChannels(prev, r, m);
    var ax := Select(es, Axis(k));
    assert ax == Select(GcAxisEvents(prev, r), Axis(k));
    if k == 0 {
      assert ax == AxisIfChanged(0, prev.stickX, r.stickX, ToS16(r.stickX * 256));
    } else if k == 1 {
      assert ax == AxisIfChanged(1, prev.stickY, r.stickY, ToS16((-(r.stickY as int)) * 256));
    } else if k == 2 {
      assert ax == AxisIfChanged(2, prev.substickX, r.substickX, ToS16(r.substickX * 256));
    } else if k == 3 {
      assert ax == AxisIfChanged(3, prev.substickY, r.substickY, ToS16((-(r.substickY as int)) * 256));
    } else if k == 4 {
      assert ax == AxisIfChanged(4, prev.triggerL, r.triggerL, ToS16(r.triggerL * 128));
    } else {
      assert k == 5;
      assert ax == AxisIfChanged(5, prev.triggerR, r.triggerR, ToS16(r.triggerR * 128));
    }
  }

  /** GameCube axes beyond the sixth are never reported. */
  lemma GcAxisBeyond(prev: PadData, r: PadReading, m: Masks, k: nat)
    requires WellFormed(m) && k >= MaxGcAxes
    ensures Select(GcStep(prev, r, m).events, Axis(k)) == []
  {
    SelectNone(GcAxisEvents(prev, r), Axis(k));
    GcStepChannels(prev, r, m);
  }

  /** Feeding the same readings twice: the second GameCube update reports nothing. */
  lemma GcRepeatSilent(prev: PadData, r: PadReading, m: Masks)
    requires WellFormed(m)
    ensures GcStep(GcStep(prev, r, m).state, r, m).events == []
  {
    var p := GcStep(prev, r, m).state;
    var es := GcStep(p, r, m).events;
    assert r.buttons ^ p.prevButtons == 0;
    ButtonEventsQuiet(m.gcButtons, r.buttons, AllButtons, 0);
    assert !Hits(0, GcDpad(m));
    forall k: nat ensures Select(es, Axis(k)) == [] {
      if k < MaxGcAxes {
        GcAxisChangeOnly(p, r, m, k);
      } else {
        GcAxisBeyond(p, r, m, k);
      }
    }
    GcStepChannels(p, r, m);
    SilentEverywhere(es);
  }

  /** The trigger axes report the reading times 128, which always fits in 16
      bits; the X sticks report the reading times 256. */
  lemma GcAxisValuesUnwrapped(prev: PadData, r: PadReading, m: Masks)
    requires WellFormed(m)
    ensures forall e :: e in Select(GcStep(prev, r, m).events, Axis(0)) ==> e.value == r.stickX * 256
    ensures forall e :: e in Select(GcStep(prev, r, m).events, Axis(2)) ==> e.value == r.substickX * 256
    ensures forall e :: e in Select(GcStep(prev, r, m).events, Axis(4)) ==> e.value == r.triggerL * 128
    ensures forall e :: e in Select(GcStep(prev, r, m).events, Axis(5)) ==> e.value == r.triggerR * 128
  {
    GcStepChannels(prev, r, m);
  }

  /** A Y stick reading is negated before the shift, so every reading but the
      most negative one reports its exact negation. */
  lemma GcStickYNegated(prev: PadData, r: PadReading, m: Masks)
    requires WellFormed(m) && r.stickY > -128
    ensures forall e :: e in Select(GcStep(prev, r, m).events, Axis(1)) ==> e.value == -(r.stickY as int) * 256
  {
    GcStepChannels(prev, r, m);
  }

  /** The most negative Y reading, -128, negates to 32768, which wraps to
      -32768 in the 16-bit axis value: the stick held fully down is reported
      as fully up. */
  lemma GcStickYWraps(prev: PadData, r: PadReading, m: Masks)
    requires WellFormed(m) && r.stickY == -128 && prev.stickY != -128
    ensures Select(GcStep(prev, r, m).events, Axis(1)) == [AxisEvent(1, AxisMin)]
  {
    assert ToS16((-(r.stickY as int)) * 256) == ToS16(32768) == AxisMin;
    GcStepChannels(prev, r, m);
  }

  // ----- Wii remotes -----

  /** Wii button `k` is reported, with state `pressed`, exactly when the
      attached expansion does not skip it, its mask touches a changed bit, and
      `pressed` says whether the mask is held now. */
  lemma WiiButtonReported(prev: WpadData, r: WiiReading, m: Masks, k: nat, pressed: bool)
    requires WellFormed(m) && k < MaxWiiButtons
    ensures ButtonEvent(k, pressed) in WiiStep(prev, r, m).events
        <==> && !Skipped(FilterFor(ProbedExpansion(r)), k)
             && Hits(r.buttons ^ prev.prevButtons, m.wiiButtons[k])
             && pressed == Hits(r.buttons, m.wiiButtons[k])
  {
    WiiStepButtons(prev, r, m);
    ButtonReportedIn(WiiStep(prev, r, m).events, m.wiiButtons, r.buttons ^ prev.prevButtons, r.buttons,
                     FilterFor(ProbedExpansion(r)), k, pressed);
  }

  /** With a classic controller attached the nunchuk's Z and C (positions 7
      and 8) are never reported; with a nunchuk attached no classic button
      (position 9 on) is. */
  lemma WiiExpansionFilter(prev: WpadData, r: WiiReading, m: Masks)
    requires WellFormed(m)
    ensures forall e :: e in WiiStep(prev, r, m).events && e.ButtonEvent? ==>
      && (ProbedExpansion(r) == ExpClassic ==> !IsNunchukButton(e.button))
      && (ProbedExpansion(r) == ExpNunchuk ==> !IsClassicButton(e.button))
  {
    var x := ProbedExpansion(r);
    WiiStepButtons(prev, r, m);
    UnskippedIn(WiiStep(prev, r, m).events, m.wiiButtons, r.buttons ^ prev.prevButtons, r.buttons, FilterFor(x));
  }

  /** No button event in a sequence whose button channel is the button loop
      names a skipped position. */
  lemma UnskippedIn(es: seq<Event>, masks: seq<bv32>, changed: bv32, held: bv32, f: ButtonFilter)
    requires Select(es, Buttons) == ButtonEvents(masks, changed, held, f, 0)
    ensures forall e :: e in es && e.ButtonEvent? ==> !Skipped(f, e.button)
  {
    forall e | e in es && e.ButtonEvent? ensures !Skipped(f, e.button) {
      SelectMember(es, Buttons, e);
    }
  }

  /** Wii button events come in table order, each button at most once. */
  lemma WiiButtonsOrdered(prev: WpadData, r: WiiReading, m: Masks)
    requires WellFormed(m)
    ensures ButtonsIncreasing(Select(WiiStep(prev, r, m).events, Buttons))
  {
    ButtonEventsOrdered(m.wiiButtons, r.buttons ^ prev.prevButtons, r.buttons, FilterFor(ProbedExpansion(r)), 0);
    WiiStepButtons(prev, r, m);
  }

  lemma WiiHatShows(m: Masks, x: Expansion, changed: bv32, held: bv32)
    ensures x == ExpClassic ==> forall e :: e in WiiHatEvents(m, x, changed, held) ==>
      e.HatEvent? && HatShows(e, Hits(held, m.classicUp), Hits(held, m.classicDown),
                              Hits(held, m.classicLeft), Hits(held, m.classicRight))
    ensures x != ExpClassic ==> forall e :: e in WiiHatEvents(m, x, changed, held) ==>
      e.HatEvent? && HatShows(e, Hits(held, m.wiimoteRight), Hits(held, m.wiimoteLeft),
                              Hits(held, m.wiimoteUp), Hits(held, m.wiimoteDown))
  {
    HatEventShows(Hits(held, m.classicUp), Hits(held, m.classicDown), Hits(held, m.classicLeft), Hits(held, m.classicRight));
    HatEventShows(Hits(held, m.wiimoteRight), Hits(held, m.wiimoteLeft), Hits(held, m.wiimoteUp), Hits(held, m.wiimoteDown));
  }

  /** With a classic controller the hat is reported when its d-pad changed and
      shows its directions as they are. */
  lemma WiiClassicHat(prev: WpadData, r: WiiReading, m: Masks)
    requires WellFormed(m) && ProbedExpansion(r) == ExpClassic
    ensures var hats := Select(WiiStep(prev, r, m).events, Hats);
      && |hats| <= 1
      && (hats != [] <==> Hits(r.buttons ^ prev.prevButtons, ClassicDpad(m)))
      && forall e :: e in hats ==>
           e.HatEvent? && e.hat == 0
           && HatShows(e, Hits(r.buttons, m.classicUp), Hits(r.buttons, m.classicDown),
                       Hits(r.buttons, m.classicLeft), Hits(r.buttons, m.classicRight))
  {
    WiiHatShows(m, ExpClassic, r.buttons ^ prev.prevButtons, r.buttons);
    WiiStepHat(prev, r, m);
  }

  /** Otherwise the hat follows the remote's own d-pad: it is reported at
      most once, exactly when that d-pad changed. */
  lemma WiiRemoteHatWhen(prev: WpadData, r: WiiReading, m: Masks)
    requires WellFormed(m) && ProbedExpansion(r) != ExpClassic
    ensures var hats := Select(WiiStep(prev, r, m).events, Hats);
      && |hats| <= 1
      && (hats != [] <==> Hits(r.buttons ^ prev.prevButtons, WiimoteDpad(m)))
  {
    WiiStepHat(prev, r, m);
    RemoteHatIn(Select(WiiStep(prev, r, m).events, Hats), m, ProbedExpansion(r), r.buttons ^ prev.prevButtons, r.buttons);
  }

  /** The remote is held sideways: the hat shows UP when RIGHT is held, DOWN
      for LEFT, LEFT for UP and RIGHT for DOWN. */
  lemma WiiRemoteHat(prev: WpadData, r: WiiReading, m: Masks)
    requires WellFormed(m) && ProbedExpansion(r) != ExpClassic
    ensures forall e :: e in Select(WiiStep(prev, r, m).events, Hats) ==>
      e.HatEvent? && e.hat == 0
      && HatShows(e, Hits(r.buttons, m.wiimoteRight), Hits(r.buttons, m.wiimoteLeft),
                  Hits(r.buttons, m.wiimoteUp), Hits(r.buttons, m.wiimoteDown))
  {
    WiiStepHat(prev, r, m);
    RemoteHatIn(Select(WiiStep(prev, r, m).events, Hats), m, ProbedExpansion(r), r.buttons ^ prev.prevButtons, r.buttons);
  }

  lemma RemoteHatIn(hats: seq<Event>, m: Masks, x: Expansion, changed: bv32, held: bv32)
    requires x != ExpClassic && hats == WiiHatEvents(m, x, changed, held)
    ensures && |hats| <= 1
      && (hats != [] <==> Hits(changed, WiimoteDpad(m)))
      && forall e :: e in hats ==>
           e.HatEvent? && e.hat == 0
           && HatShows(e, Hits(held, m.wiimoteRight), Hits(held, m.wiimoteLeft),
                       Hits(held, m.wiimoteUp), Hits(held, m.wiimoteDown))
  {
    WiiHatShows(m, x, changed, held);
  }

  /** The stored value of classic axis `k` and the reading it is compared with. */
  function ClassicStored(p: WpadData, k: nat): int {
    match k
    case 0 => p.classicLStickX
    case 1 => p.classicLStickY
    case 2 => p.classicRStickX
    case 3 => p.classicRStickY
    case 4 => p.classicTriggerR
    case 5 => p.classicTriggerL
    case _ => 0
  }

  function ClassicReading(r: WiiReading, k: nat): int {
    match k
    case 0 => r.leftStickX
    case 1 => r.leftStickY
    case 2 => r.rightStickX
    case 3 => r.rightStickY
    case 4 => r.rightShoulder
    case 5 => r.leftShoulder
    case _ => 0
  }

  function NunchukStored(p: WpadData, k: nat): int {
    if k == 0 then p.nunchukStickX else p.nunchukStickY
  }

  function OrientStored(p: WpadData, k: nat): int {
    if k == 6 then p.pitch else if k == 7 then p.roll else p.yaw
  }

  function OrientReading(r: WiiReading, k: nat): int {
    if k == 6 then r.pitch else if k == 7 then r.roll else r.yaw
  }

  /** The change test of one axis: at most one event, present exactly when the
      stored value differs from the reading. */
  predicate ChangeOnly(ax: seq<Event>, stored: int, reading: int) {
    |ax| <= 1 && (ax != [] <==> stored != reading)
  }

  lemma ClassicAxisIn(ax: seq<Event>, prev: WpadData, r: WiiReading, k: nat)
    requires k <= 5 && ax == Select(ClassicAxes(prev, r).events, Axis(k))
    ensures ChangeOnly(ax, ClassicStored(prev, k), ClassicReading(r, k))
  {
    var s := ClassicAxes(prev, r);
    if k == 0 {
      assert ax == AxisIfChanged(0, prev.classicLStickX, r.leftStickX, StickValue(r.leftStickX));
    } else if k == 1 {
      assert ax == AxisIfChanged(1, prev.classicLStickY, r.leftStickY, ToS16(-(StickValue(r.leftStickY) as int)));
    } else if k == 2 {
      assert ax == AxisIfChanged(2, prev.classicRStickX, r.rightStickX, ToS16(r.rightStickX * 256));
    } else if k == 3 {
      assert ax == AxisIfChanged(3, prev.classicRStickY, r.rightStickY, ToS16(-(r.rightStickY * 256)));
    } else if k == 4 {
      assert ax == AxisIfChanged(4, prev.classicTriggerR, r.rightShoulder, ToS16(r.rightShoulder * 128));
    } else {
      assert k == 5;
      assert ax == AxisIfChanged(5, prev.classicTriggerL, r.leftShoulder, ToS16(r.leftShoulder * 128));
    }
  }

  lemma NunchukAxisIn(ax: seq<Event>, prev: WpadData, r: WiiReading, k: nat)
    requires k <= 1 && ax == Select(NunchukAxes(prev, r).events, Axis(k))
    ensures ChangeOnly(ax, NunchukStored(prev, k), ClassicReading(r, k))
  {
  }

  lemma OrientAxisIn(ax: seq<Event>, prev: WpadData, r: WiiReading, k: nat)
    requires 6 <= k <= 8 && ax == Select(OrientAxes(prev, r).events, Axis(k))
    ensures ChangeOnly(ax, OrientStored(prev, k), OrientReading(r, k))
  {
    if k == 8 {
      assert ax == AxisIfChanged(8, prev.yaw, r.yaw, ToS16(r.yaw * 256));
    }
  }

  /** With a classic controller each of axes 0-5 is reported only when its
      reading differs from the stored classic value. */
  lemma WiiClassicAxis(prev: WpadData, r: WiiReading, m: Masks, k: nat)
    requires WellFormed(m) && ProbedExpansion(r) == ExpClassic && k <= 5
    ensures ChangeOnly(Select(WiiStep(prev, r, m).events, Axis(k)), ClassicStored(prev, k), ClassicReading(r, k))
  {
    WiiStepAxes(prev, r, m, k);
    ClassicAxisIn(Select(WiiStep(prev, r, m).events, Axis(k)), prev, r, k);
  }

  /** With a nunchuk the stick gives axes 0 and 1, each reported only on
      change; axes 2-5 stay silent. */
  lemma WiiNunchukAxis(prev: WpadData, r: WiiReading, m: Masks, k: nat)
    requires WellFormed(m) && ProbedExpansion(r) == ExpNunchuk && k <= 5
    ensures k <= 1 ==> ChangeOnly(Select(WiiStep(prev, r, m).events, Axis(k)), NunchukStored(prev, k), ClassicReading(r, k))
    ensures k >= 2 ==> Select(WiiStep(prev, r, m).events, Axis(k)) == []
  {
    WiiStepAxes(prev, r, m, k);
    if k <= 1 {
      NunchukAxisIn(Select(WiiStep(prev, r, m).events, Axis(k)), prev, r, k);
    } else {
      SelectNone(NunchukAxes(prev, r).events, Axis(k));
    }
  }

  /** Without a classic controller or nunchuk, axes 0-5 are never reported. */
  lemma WiiBareAxis(prev: WpadData, r: WiiReading, m: Masks, k: nat)
    requires WellFormed(m) && ProbedExpansion(r) != ExpClassic && ProbedExpansion(r) != ExpNunchuk && k <= 5
    ensures Select(WiiStep(prev, r, m).events, Axis(k)) == []
  {
    WiiStepAxes(prev, r, m, k);
  }

  /** The orientation axes 6-8 are reported, whatever the expansion, only when
      the reading differs from the stored one; no axis beyond 8 is reported. */
  lemma WiiOrientAxis(prev: WpadData, r: WiiReading, m: Masks, k: nat)
    requires WellFormed(m) && k >= 6
    ensures k <= 8 ==> ChangeOnly(Select(WiiStep(prev, r, m).events, Axis(k)), OrientStored(prev, k), OrientReading(r, k))
    ensures k > 8 ==> Select(WiiStep(prev, r, m).events, Axis(k)) == []
  {
    WiiStepAxes(prev, r, m, k);
    if k <= 8 {
      OrientAxisIn(Select(WiiStep(prev, r, m).events, Axis(k)), prev, r, k);
    } else {
      SelectNone(OrientAxes(prev, r).events, Axis(k));
    }
  }

  // ----- what a Wii update stores -----

  /** With a classic controller the six classic fields store their readings
      (narrowed to 8 bits) when they changed; the nunchuk fields keep theirs. */
  lemma WiiClassicState(prev: WpadData, r: WiiReading, m: Masks)
    requires WellFormed(m) && ProbedExpansion(r) == ExpClassic
    ensures var p := WiiStep(prev, r, m).state;
      && p.classicLStickX == StoreS8(prev.classicLStickX, r.leftStickX)
      && p.classicLStickY == StoreS8(prev.classicLStickY, r.leftStickY)
      && p.classicRStickX == StoreS8(prev.classicRStickX, r.rightStickX)
      && p.classicRStickY == StoreS8(prev.classicRStickY, r.rightStickY)
      && p.classicTriggerR == StoreU8(prev.classicTriggerR, r.rightShoulder)
      && p.classicTriggerL == StoreU8(prev.classicTriggerL, r.leftShoulder)
      && p.nunchukStickX == prev.nunchukStickX && p.nunchukStickY == prev.nunchukStickY
  {
  }

  /** With a nunchuk the two nunchuk fields store the stick; the classic fields keep theirs. */
  lemma WiiNunchukState(prev: WpadData, r: WiiReading, m: Masks)
    requires WellFormed(m) && ProbedExpansion(r) == ExpNunchuk
    ensures var p := WiiStep(prev, r, m).state;
      && p.nunchukStickX == StoreS8(prev.nunchukStickX, r.leftStickX)
      && p.nunchukStickY == StoreS8(prev.nunchukStickY, r.leftStickY)
      && p.classicLStickX == prev.classicLStickX && p.classicLStickY == prev.classicLStickY
      && p.classicRStickX == prev.classicRStickX && p.classicRStickY == prev.classicRStickY
      && p.classicTriggerR == prev.classicTriggerR && p.classicTriggerL == prev.classicTriggerL
  {
  }

  /** Otherwise only the buttons and the orientation are stored. */
  lemma WiiBareState(prev: WpadData, r: WiiReading, m: Masks)
    requires WellFormed(m) && ProbedExpansion(r) != ExpClassic && ProbedExpansion(r) != ExpNunchuk
    ensures WiiStep(prev, r, m).state
         == prev.(prevButtons := r.buttons, pitch := StoreS8(prev.pitch, r.pitch),
                  roll := StoreS8(prev.roll, r.roll), yaw := StoreS8(prev.yaw, r.yaw))
  {
  }

  // ----- a repeated Wii frame -----

  /** Readings that fit the 8-bit fields they are stored in: sticks and
      orientation in -128..127, shoulders in 0..255. */
  predicate ReadingsFit(r: WiiReading) {
    && -128 <= r.leftStickX < 128 && -128 <= r.leftStickY < 128
    && -128 <= r.rightStickX < 128 && -128 <= r.rightStickY < 128
    && 0 <= r.rightShoulder < 256 && 0 <= r.leftShoulder < 256
    && -128 <= r.pitch < 128 && -128 <= r.roll < 128 && -128 <= r.yaw < 128
  }

  /** The stored state already holds the readings: the buttons, the
      orientation, and the fields of the attached expansion. */
  predicate Settled(p: WpadData, r: WiiReading) {
    && p.prevButtons == r.buttons
    && p.pitch == r.pitch && p.roll == r.roll && p.yaw == r.yaw
    && (ProbedExpansion(r) == ExpClassic ==>
          && p.classicLStickX == r.leftStickX && p.classicLStickY == r.leftStickY
          && p.classicRStickX == r.rightStickX && p.classicRStickY == r.rightStickY
          && p.classicTriggerR == r.rightShoulder && p.classicTriggerL == r.leftShoulder)
    && (ProbedExpansion(r) == ExpNunchuk ==>
          p.nunchukStickX == r.leftStickX && p.nunchukStickY == r.leftStickY)
  }

  /** An update with fitting readings leaves a state that holds them. */
  lemma WiiSettles(prev: WpadData, r: WiiReading, m: Masks)
    requires WellFormed(m) && ReadingsFit(r)
    ensures Settled(WiiStep(prev, r, m).state, r)
  {
    if ProbedExpansion(r) == ExpClassic {
      WiiClassicState(prev, r, m);
    } else if ProbedExpansion(r) == ExpNunchuk {
      WiiNunchukState(prev, r, m);
    }
  }

  /** From a settled state no axis is reported. */
  lemma SettledAxisSilent(p: WpadData, r: WiiReading, m: Masks, k: nat)
    requires WellFormed(m) && Settled(p, r)
    ensures Select(WiiStep(p, r, m).events, Axis(k)) == []
  {
    var x := ProbedExpansion(r);
    if k >= 6 {
      WiiOrientAxis(p, r, m, k);
    } else if x == ExpClassic {
      WiiClassicAxis(p, r, m, k);
    } else if x == ExpNunchuk {
      WiiNunchukAxis(p, r, m, k);
    } else {
      WiiBareAxis(p, r, m, k);
    }
  }

  /** From a settled state no hat or button is reported. */
  lemma SettledHatButtonsSilent(p: WpadData, r: WiiReading, m: Masks)
    requires WellFormed(m) && Settled(p, r)
    ensures Select(WiiStep(p, r, m).events, Hats) == []
    ensures Select(WiiStep(p, r, m).events, Buttons) == []
  {
    assert r.buttons ^ p.prevButtons == 0;
    assert !Hits(0, ClassicDpad(m)) && !Hits(0, WiimoteDpad(m));
    ButtonEventsQuiet(m.wiiButtons, r.buttons, FilterFor(ProbedExpansion(r)), 0);
    WiiStepHat(p, r, m);
    WiiStepButtons(p, r, m);
  }

  /** A settled state is a fixed point: the update reports nothing. */
  lemma WiiSettledSilent(p: WpadData, r: WiiReading, m: Masks)
    requires WellFormed(m) && Settled(p, r)
    ensures WiiStep(p, r, m).events == []
  {
    forall k: nat ensures Select(WiiStep(p, r, m).events, Axis(k)) == [] {
      SettledAxisSilent(p, r, m, k);
    }
    SettledHatButtonsSilent(p, r, m);
    SilentEverywhere(WiiStep(p, r, m).events);
  }

  /** Feeding the same fitting readings twice: the second Wii update reports nothing. */
  lemma WiiRepeatSilent(prev: WpadData, r: WiiReading, m: Masks)
    requires WellFormed(m) && ReadingsFit(r)
    ensures WiiStep(WiiStep(prev, r, m).state, r, m).events == []
  {
    WiiSettles(prev, r, m);
    WiiSettledSilent(WiiStep(prev, r, m).state, r, m);
  }

  // ----- 8-bit stores and 16-bit values at full scale -----

  /** The clamped stick value never decreases as the reading grows. */
  lemma StickValueMonotone(a: int, b: int)
    requires a <= b
    ensures StickValue(a) <= StickValue(b)
  {
  }

  /** A classic left-stick Y reading of 128 is reported on axis 1 as the
      negated clamp, -32767, when the field holds -128, which is what the
      8-bit field stores for 128. */
  lemma ClassicYAtFullScale(p: WpadData, r: WiiReading, m: Masks)
    requires WellFormed(m) && ProbedExpansion(r) == ExpClassic
    requires r.leftStickY == 128 && p.classicLStickY == -128
    ensures Select(WiiStep(p, r, m).events, Axis(1)) == [AxisEvent(1, -32767)]
  {
    WiiStepAxes(p, r, m, 1);
    assert ToS16(-(StickValue(r.leftStickY) as int)) == -32767;
  }

  /** A full-scale left-stick Y reading of 128 never settles: it is stored as
      -128, so every later frame with the stick still held reports axis 1 again. */
  lemma WiiFullScaleRepeats(prev: WpadData, r: WiiReading, m: Masks)
    requires WellFormed(m) && ProbedExpansion(r) == ExpClassic && r.leftStickY == 128
    ensures WiiStep(prev, r, m).state.classicLStickY == -128
    ensures Select(WiiStep(WiiStep(prev, r, m).state, r, m).events, Axis(1)) == [AxisEvent(1, -32767)]
  {
    var p := WiiStep(prev, r, m).state;
    StoredFullScale(prev, r, m);
    ClassicYAtFullScale(p, r, m);
  }

  /** A classic left-stick Y reading of 128 is stored as -128. */
  lemma StoredFullScale(prev: WpadData, r: WiiReading, m: Masks)
    requires WellFormed(m) && ProbedExpansion(r) == ExpClassic && r.leftStickY == 128
    ensures WiiStep(prev, r, m).state.classicLStickY == -128
  {
    WiiClassicState(prev, r, m);
    StoreFullScale(prev.classicLStickY);
  }

  /** 128 does not fit an `s8` field and wraps to -128. */
  lemma StoreFullScale(stored: s8)
    ensures StoreS8(stored, 128) == -128
  {
    assert ToS8(128) == -128;
  }

  /** The classic right stick is shifted without a clamp: a full-scale reading
      of 128 shifts to 32768, which wraps to -32768, so full right is
      reported as full left. */
  lemma WiiRightStickWraps(prev: WpadData, r: WiiReading, m: Masks)
    requires WellFormed(m) && ProbedExpansion(r) == ExpClassic && r.rightStickX == 128
    ensures Select(WiiStep(prev, r, m).events, Axis(2)) == [AxisEvent(2, AxisMin)]
  {
    WiiStepAxes(prev, r, m, 2);
    RightStickWrapsIn(Select(WiiStep(prev, r, m).events, Axis(2)), prev, r);
  }

  lemma RightStickWrapsIn(ax: seq<Event>, prev: WpadData, r: WiiReading)
    requires r.rightStickX == 128 && ax == Select(ClassicAxes(prev, r).events, Axis(2))
    ensures ax == [AxisEvent(2, AxisMin)]
  {
    assert ToS16(r.rightStickX * 256) == ToS16(32768) == AxisMin;
  }
}
