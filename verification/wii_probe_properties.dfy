/** The expansion probe: a failed probe is reported exactly as a remote with
    nothing plugged in. */
module WiiProbeProperties {
  import opened JoyEvents
  import opened WiiJoystick
  import opened WiiJoystickProperties

  /** A failed expansion probe makes the whole frame that of a bare remote:
      the same events and the same stored state as a reading that reports no
      expansion, whatever expansion type the failed probe left behind. */
  lemma FailedProbeIsBare(prev: WpadData, r: WiiReading, m: Masks)
    requires WellFormed(m)
    ensures r.probeFailed ==>
      WiiStep(prev, r, m) == WiiStep(prev, r.(probeFailed := false, expansion := ExpNone), m)
  {
    if r.probeFailed {
      var bare := r.(probeFailed := false, expansion := ExpNone);
      FailedProbeEvents(prev, r, bare, m);
      FailedProbeState(prev, r, bare, m);
    }
  }

  /** The events half of FailedProbeIsBare. */
  lemma FailedProbeEvents(prev: WpadData, r: WiiReading, bare: WiiReading, m: Masks)
    requires WellFormed(m) && r.probeFailed && bare == r.(probeFailed := false, expansion := ExpNone)
    ensures WiiStep(prev, r, m).events == WiiStep(prev, bare, m).events
  {
    assert ProbedExpansion(r) == ExpNone == ProbedExpansion(bare);
    OrientSame(prev, r, bare);
    assert ExpansionAxes(prev, r, ExpNone) == Step([], prev) == ExpansionAxes(prev, bare, ExpNone);
    WiiStepParts(prev, r, m);
    WiiStepParts(prev, bare, m);
    EventsFromParts(prev, r, bare, m, WiiStep(prev, r, m).events, WiiStep(prev, bare, m).events);
  }

  /**
   * A Wii update's events depend on the reading only through the probed
   * expansion, the buttons, and the two axis parts.
   */
  lemma EventsFromParts(prev: WpadData, r1: WiiReading, r2: WiiReading, m: Masks, e1: seq<Event>, e2: seq<Event>)
    requires WellFormed(m) && ProbedExpansion(r1) == ProbedExpansion(r2) && r1.buttons == r2.buttons
    requires ExpansionAxes(prev, r1, ProbedExpansion(r1)) == ExpansionAxes(prev, r2, ProbedExpansion(r2))
    requires OrientAxes(prev, r1) == OrientAxes(prev, r2)
    requires e1 == WiiHatEvents(m, ProbedExpansion(r1), r1.buttons ^ prev.prevButtons, r1.buttons)
                   + ButtonEvents(m.wiiButtons, r1.buttons ^ prev.prevButtons, r1.buttons, FilterFor(ProbedExpansion(r1)), 0)
                   + (ExpansionAxes(prev, r1, ProbedExpansion(r1)).events + OrientAxes(prev, r1).events)
    requires e2 == WiiHatEvents(m, ProbedExpansion(r2), r2.buttons ^ prev.prevButtons, r2.buttons)
                   + ButtonEvents(m.wiiButtons, r2.buttons ^ prev.prevButtons, r2.buttons, FilterFor(ProbedExpansion(r2)), 0)
                   + (ExpansionAxes(prev, r2, ProbedExpansion(r2)).events + OrientAxes(prev, r2).events)
    ensures e1 == e2
  {
  }

  /** The stored-state half of FailedProbeIsBare. */
  lemma FailedProbeState(prev: WpadData, r: WiiReading, bare: WiiReading, m: Masks)
    requires WellFormed(m) && r.probeFailed && bare == r.(probeFailed := false, expansion := ExpNone)
    ensures WiiStep(prev, r, m).state == WiiStep(prev, bare, m).state
  {
    OrientSame(prev, r, bare);
    assert ProbedExpansion(r) == ExpNone == ProbedExpansion(bare);
    assert ExpansionAxes(prev, r, ExpNone) == Step([], prev) == ExpansionAxes(prev, bare, ExpNone);
  }

  /** The orientation axes depend only on the three orientation readings. */
  lemma OrientSame(prev: WpadData, r1: WiiReading, r2: WiiReading)
    requires r1.pitch == r2.pitch && r1.roll == r2.roll && r1.yaw == r2.yaw
    ensures OrientAxes(prev, r1) == OrientAxes(prev, r2)
  {
  }
}
