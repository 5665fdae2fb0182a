/** Properties of the Wii/GameCube driver's device entry points: how open
    classifies a device index, what update, rumble and close then do with
    the joystick open produced, and how the GUID encodes the device name. */
module WiiDeviceProperties {
  import opened Ints
  import opened Wrappers
  import opened JoyEvents
  import opened WiiJoystick

  // ----- classification -----

  /** Open makes a Wii remote of device index `d`. */
  predicate IsRemoteIndex(d: int, cfg: Config) {
    d < 4 && cfg.wpadEnabled && d < cfg.numWiiJoysticks
  }

  /** Open makes a GameCube pad of device index `d`: the remote test did not
      take it, and it passes the pad test. */
  predicate IsPadIndex(d: int, cfg: Config) {
    !(d < 4 && cfg.wpadEnabled) && d < 8 && cfg.padEnabled && d < cfg.numGcJoysticks + 4
  }

  /** A successful open gives a remote the Wii counts and index `d`, a pad
      the GameCube counts and index `d - 4`, and anything else a zeroed
      hwdata (kind 0, index 0) under the caller's counts. */
  lemma OpenClassifies(j: Joystick, d: int, cfg: Config)
    ensures IsRemoteIndex(d, cfg) ==>
      JoystickOpen(j, d, true, cfg).joystick
        == Joystick(Some(Hwdata(d, 0, ZeroPad, ZeroWpad)), MaxWiiButtons, MaxWiiAxes, MaxWiiHats)
    ensures IsPadIndex(d, cfg) ==>
      JoystickOpen(j, d, true, cfg).joystick
        == Joystick(Some(Hwdata(d - 4, 1, ZeroPad, ZeroWpad)), MaxGcButtons, MaxGcAxes, MaxGcHats)
    ensures !IsRemoteIndex(d, cfg) && !IsPadIndex(d, cfg) ==>
      JoystickOpen(j, d, true, cfg).joystick == j.(hwdata := Some(ZeroHwdata))
  {
  }

  /** The two classes are disjoint, and with the default configuration the
      remotes are exactly indices 0-3 and the pads exactly 4-7. */
  lemma DefaultClasses(d: int)
    ensures !(IsRemoteIndex(d, Defaults) && IsPadIndex(d, Defaults))
    ensures IsRemoteIndex(d, Defaults) <==> d < 4
    ensures IsPadIndex(d, Defaults) <==> 4 <= d < 8
  {
  }

  // ----- update -----

  /** A remote's update runs the Wii handler on the channel of its stored
      index and changes only the remote view of its hwdata. */
  lemma UpdateRunsWii(j: Joystick, cfg: Config, m: Masks, wii: int -> WiiReading, pad: int -> PadReading)
    requires WellFormed(m) && j.hwdata.Some? && j.hwdata.value.kind == 0 && cfg.wpadEnabled
    ensures var hw := j.hwdata.value;
      var s := WiiStep(hw.wiimote, wii(hw.index), m);
      var u := JoystickUpdate(Some(j), cfg, m, wii, pad);
      u.events == s.events && u.joystick == Some(j.(hwdata := Some(hw.(wiimote := s.state))))
  {
  }

  /** A pad's update runs the GameCube handler on PAD channel `index - 4`
      and changes only the pad view of its hwdata. */
  lemma UpdateRunsGc(j: Joystick, cfg: Config, m: Masks, wii: int -> WiiReading, pad: int -> PadReading)
    requires WellFormed(m) && j.hwdata.Some? && j.hwdata.value.kind == 1 && cfg.padEnabled
    ensures var hw := j.hwdata.value;
      var s := GcStep(hw.gamecube, pad(PadChannel(hw.index)), m);
      var u := JoystickUpdate(Some(j), cfg, m, wii, pad);
      u.events == s.events && u.joystick == Some(j.(hwdata := Some(hw.(gamecube := s.state))))
  {
  }

  /** Open stores a pad's index as `d - 4` and the GameCube handler takes 4
      off again, so the pad opened at device index `d` is read from PAD
      channel `d - 8`, which is negative for every pad index 4-7. */
  lemma OpenedPadReadsChannel(j: Joystick, d: int, cfg: Config, m: Masks,
                              wii: int -> WiiReading, pad: int -> PadReading)
    requires WellFormed(m) && IsPadIndex(d, cfg)
    ensures var o := JoystickOpen(j, d, true, cfg).joystick;
      JoystickUpdate(Some(o), cfg, m, wii, pad).events == GcStep(ZeroPad, pad(PadChannel(d - 4)), m).events
    ensures PadChannel(d - 4) == d - 8
    ensures 4 <= d ==> PadChannel(d - 4) < 0
  {
    OpenClassifies(j, d, cfg);
    var o := JoystickOpen(j, d, true, cfg).joystick;
    UpdateRunsGc(o, cfg, m, wii, pad);
  }

  /** An index open could not classify keeps a zeroed hwdata, which reads as
      a remote on channel 0: with WPAD enabled its update reports remote 0's
      changes under whatever counts the joystick already had. */
  lemma UnclassifiedReadsRemoteZero(j: Joystick, d: int, cfg: Config, m: Masks,
                                    wii: int -> WiiReading, pad: int -> PadReading)
    requires WellFormed(m) && !IsRemoteIndex(d, cfg) && !IsPadIndex(d, cfg) && cfg.wpadEnabled
    ensures var o := JoystickOpen(j, d, true, cfg).joystick;
      JoystickUpdate(Some(o), cfg, m, wii, pad).events == WiiStep(ZeroWpad, wii(0), m).events
  {
    OpenClassifies(j, d, cfg);
    var o := JoystickOpen(j, d, true, cfg).joystick;
    UpdateRunsWii(o, cfg, m, wii, pad);
  }

  /** For a classified device, every event an update reports names a hat,
      button or axis below the counts open declared. */
  lemma OpenedUpdateWithinCounts(j: Joystick, d: int, cfg: Config, m: Masks,
                                 wii: int -> WiiReading, pad: int -> PadReading)
    requires WellFormed(m) && (IsRemoteIndex(d, cfg) || IsPadIndex(d, cfg))
    ensures var o := JoystickOpen(j, d, true, cfg).joystick;
      WithinCounts(JoystickUpdate(Some(o), cfg, m, wii, pad).events, o.nbuttons, o.naxes, o.nhats)
  {
    OpenClassifies(j, d, cfg);
    var o := JoystickOpen(j, d, true, cfg).joystick;
    if IsRemoteIndex(d, cfg) {
      UpdateRunsWii(o, cfg, m, wii, pad);
    } else {
      UpdateRunsGc(o, cfg, m, wii, pad);
    }
  }

  // ----- rumble and close -----

  /** A remote opened at index `d` rumbles WPAD channel `d`, on iff either
      strength is non-zero. */
  lemma OpenedRemoteRumble(j: Joystick, d: int, cfg: Config, low: u16, high: u16)
    requires IsRemoteIndex(d, cfg)
    ensures JoystickRumble(JoystickOpen(j, d, true, cfg).joystick, low, high, cfg).calls
         == [WpadRumble(d, low > 0 || high > 0)]
  {
    OpenClassifies(j, d, cfg);
  }

  /** Rumble range-tests the stored index `d - 4` as if it were a device
      index, so with WPAD enabled a pad opened at `d` rumbles Wii remote
      `d - 4` (or nothing, if there are fewer remotes) and never its own motor. */
  lemma PadRumbleGoesToRemote(j: Joystick, d: int, cfg: Config, low: u16, high: u16)
    requires IsPadIndex(d, cfg) && cfg.wpadEnabled
    ensures var calls := JoystickRumble(JoystickOpen(j, d, true, cfg).joystick, low, high, cfg).calls;
      && (d - 4 < cfg.numWiiJoysticks ==> calls == [WpadRumble(d - 4, low > 0 || high > 0)])
      && (d - 4 >= cfg.numWiiJoysticks ==> calls == [])
      && forall c :: c in calls ==> !c.PadControlMotor?
  {
    OpenClassifies(j, d, cfg);
  }

  /** Close frees the hwdata a successful open allocated, exactly once, and
      does nothing after a failed open. */
  lemma CloseAfterOpen(j: Joystick, d: int, gotMemory: bool, cfg: Config)
    ensures JoystickClose(Some(JoystickOpen(j, d, gotMemory, cfg).joystick))
         == if gotMemory then [FreeHwdata] else []
  {
  }

  // ----- the GUID -----

  /** Reading a GUID back as a C string: its bytes up to the first zero. */
  function GuidText(g: seq<u8>): (s: string)
    ensures |s| <= |g|
    ensures forall k :: 0 <= k < |s| ==> s[k] as int == g[k] && g[k] != 0
    ensures |s| < |g| ==> g[|s|] == 0
  {
    if g == [] || g[0] == 0 then [] else [g[0] as char] + GuidText(g[1..])
  }

  /** The device name holds no NUL, so its C length is its full length. */
  lemma {:induction false} StrlenNoNul(s: string)
    requires forall k :: 0 <= k < |s| ==> s[k] != '\0'
    ensures Strlen(s) == |s|
  {
    if s != [] {
      StrlenNoNul(s[1..]);
    }
  }

  /** The GUID is the name's first `min(16, strlen(name))` bytes followed by zeros. */
  lemma GuidLayout(d: int)
    ensures var name := DeviceName(d);
      var n := Min(GuidSize, Strlen(name));
      && (forall k :: 0 <= k < n ==> DeviceGuid(d)[k] == name[k] as int)
      && (forall k :: n <= k < GuidSize ==> DeviceGuid(d)[k] == 0)
  {
    StrlenNoNul(DeviceName(d));
  }

  /** Reading the GUID back as a string gives the device name, cut to 16
      characters: only "WII Balance board" (17 characters) loses its last one. */
  lemma GuidRoundTrip(d: int)
    ensures GuidText(DeviceGuid(d)) == DeviceName(d)[..Min(GuidSize, |DeviceName(d)|)]
  {
    var name := DeviceName(d);
    var g := DeviceGuid(d);
    var t := GuidText(g);
    var n := Min(GuidSize, |name|);
    assert forall k :: 0 <= k < n ==> g[k] == name[k] as int != 0;
    assert n < GuidSize ==> g[n] == 0;
  }
}
