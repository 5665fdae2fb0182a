# OGC audio and Wii/GameCube joystick drivers, modelled in Dafny

This project models two platform drivers of the SDL port for Nintendo's
GameCube and Wii (libogc):

- **The OGC audio driver.** `OGCAUD_OpenDevice` negotiates the spec. The
  `case 8` branch of its format switch falls through into the `case 16` branch.
  The rate is forced to 32000 or 48000, and `OGC_AUDIO_SAMPLE_ALIGN` rounds the
  sample count up to a multiple of 64. Open then carves NUM_BUFFERS mixing slots
  out of one `memalign(64, …)` block and registers the device in
  `s_callback_data` for voice 0. `OGCAUD_PlayDevice` either arms the ASND voice
  (`ASND_SetVoice`) or queues the next slot (`ASND_AddVoice`), and steps the ring
  cursor. `OGCAUD_WaitDevice` sleeps once on the LWP queue if the hardware still
  holds the current slot. `OGCAUD_GetDeviceBuf` returns the slot to fill next.
  `ogc_play_callback` wakes the device registered for a voice. `OGCAUD_CloseDevice`
  tears everything down.
- **The Wii/GameCube joystick driver.** `Wii_JoystickOpen` classifies a device
  index as a Wii remote or a GameCube pad. Per frame, `_HandleWiiJoystickUpdate`
  and `_HandleGCJoystickUpdate` diff the new readings against the stored ones.
  They report a hat event when a d-pad bit changed, a button event per changed
  mask, and an axis event per changed analog reading. The Wii handler filters the
  button table through `wii_button_is_nunchuk` / `wii_button_is_classic`, and it
  reads a different set of axes depending on the attached expansion. Also
  modelled: `Wii_JoystickRumble`, `Wii_JoystickUpdate`, `Wii_JoystickClose`, and
  the device name and GUID.

Everything is a pure function over immutable datatypes:

- Each SDK call's answer is an input. That covers `ASND_StatusVoice`,
  `ASND_TestPointer`, the allocator results, `WPAD_ButtonsHeld`, the `PAD_*`
  readings, and so on.
- The calls the driver issues come back as a log (`AudioCall`, `JoyCall`).
  Heap ownership is tracked along that log (`LiveAfter`, `Balanced`).
- Events delivered to SDL (`SDL_PrivateJoystickHat/Button/Axis`) are a sequence
  of `Event`s. `Select` projects them onto one channel (the hat, the buttons, or
  one axis), so each property can be stated channel by channel.
- C's narrowing conversions are written out in `Ints`:
  - storing into `s8`/`u8` fields;
  - passing an `int` where SDL takes an `Sint16`;
  - storing the aligned sample count into the `Uint16` `spec.samples`.

The model follows the code as written. Several behaviours of the code are
proved as stated, even where they are evidently not what the authors meant:

- **GameCube pads read the wrong channel.** Open stores a pad's index as
  `device_index - 4`, and the GameCube handler subtracts 4 again. The pad opened
  at device index 4-7 is therefore read from PAD channel -4 to -1
  (`OpenedPadReadsChannel`).
- **Pad rumble goes to a remote.** Rumble range-tests the stored index as if it
  were a device index, so a pad's rumble goes to Wii remote `d - 4` and never to
  the pad's own motor (`PadRumbleGoesToRemote`).
- **Unclassified indices read remote 0.** An index open cannot classify keeps
  the zeroed hwdata, which updates as Wii remote 0 (`UnclassifiedReadsRemoteZero`).
- **Full-scale sticks keep reporting.** A Wii stick or orientation reading of
  128 is stored as -128 in its `s8` field, so it is reported again on every frame
  (`WiiFullScaleRepeats`).
- **Some full-scale values wrap.** The classic right stick at 128 is reported as
  -32768 (`WiiRightStickWraps`). A GameCube Y stick at -128 is reported as fully
  up (`GcStickYWraps`).
- **Large sample counts wrap to zero.** Any requested sample count above 65472
  aligns to 0 (`AudioFormat.AlignSamples`).

A few further behaviours of the audio driver, as its code has them:

- **Unsigned 8-bit is rejected.** The `case 8` branch falls through into the
  `case 16` branch, which rejects any unsigned format. So unsigned 8-bit is
  rejected, like unsigned 16-bit and every bit depth other than 8 and 16, and
  signed 8-bit leaves as signed 16-bit (`UnsignedEightRejected`).
- **Rounding goes up.** `OGC_AUDIO_SAMPLE_ALIGN` always rounds up to the next
  multiple of 64, never down.
- **The cursor counts submits.** The ring cursor advances once per
  `OGCAUD_PlayDevice` call, not per completion callback (`PlaysAfterOpen`).
- **The callback can do nothing.** `ogc_play_callback` wakes nobody when no
  device is registered for the voice.
- **Close dereferences first.** `OGCAUD_CloseDevice` reads `hidden->channel`
  before any NULL test, so a missing record is not a safe input.
- **Close wakes waiters only if there is a queue.** The wake-up is skipped when
  the queue is `LWP_TQUEUE_NULL`.
- **Wait does not re-check.** `OGCAUD_WaitDevice` tests the voice once and
  sleeps at most once.
- **Nothing checks alignment.** The code only asks `memalign` for 64-byte
  alignment and never tests the pointer it gets. The model proves the slots
  are aligned given an aligned base (`BufferPool.SlotsAligned`).

The files:

| file | contents |
|---|---|
| `ints.dfy` | C integer narrowing |
| `wrappers.dfy` | `Option` |
| `audio_format.dfy` | the format switch, frequency, alignment and size |
| `buffer_pool.dfy` | the slot layout |
| `modular.dfy` | cursor arithmetic |
| `audio_device.dfy` | the audio entry points |
| `audio_properties.dfy` | multi-call audio properties |
| `joy_events.dfy` | events and change detection |
| `wii_joystick.dfy` | the joystick entry points and handlers |
| `wii_properties.dfy` | per-frame properties |
| `wii_probe_properties.dfy` | the failed expansion probe |
| `wii_device_properties.dfy` | open/update/rumble/close/GUID properties |

## Model

| member | source | states |
|---|---|---|
| Ints.ToS8 | src/joystick/wii/SDL_sysjoystick.c:298 | storing an `int` into an `s8` field keeps values in -128..127 and otherwise wraps modulo 256 |
| Ints.ToU8 | src/joystick/wii/SDL_sysjoystick.c:326 | storing an `int` into a `u8` field keeps values in 0..255 and otherwise wraps modulo 256 |
| Ints.ToS16 | src/joystick/wii/SDL_sysjoystick.c:313 | an `int` passed as the `Sint16` axis value keeps values in range and otherwise wraps modulo 65536 |
| Ints.ToU16 | src/audio/ogc/SDL_ogcaudio.c:117 | the aligned count stored into the `Uint16` `spec.samples` keeps values below 65536 and otherwise wraps |
| Ints.Min | src/joystick/wii/SDL_sysjoystick.c:540 | `SDL_min`: the smaller argument, no larger than either |
| AudioFormat.FoldChannels | src/audio/ogc/SDL_ogcaudio.c:90-95 | the channel count becomes 1 or 2, and it is 1 exactly when mono was requested |
| AudioFormat.Case8 | src/audio/ogc/SDL_ogcaudio.c:69-86 | the 8-bit branch keeps the signedness and sets 8-bit size, folds the channels, and changes no other spec field |
| AudioFormat.Case16 | src/audio/ogc/SDL_ogcaudio.c:87-103 | the 16-bit branch succeeds iff the format is signed, giving AUDIO_S16SYS and a 16-bit voice of matching mono/stereo; a rejected spec is left as it was |
| AudioFormat.NegotiateFormat | src/audio/ogc/SDL_ogcaudio.c:68-110 | negotiation succeeds iff the bit size is 8 or 16 and the format is signed; success always yields AUDIO_S16SYS and a 16-bit voice matching the channel request, and changes only format and channels |
| AudioFormat.ForceFrequency | src/audio/ogc/SDL_ogcaudio.c:112-114 | the rate is always 32000 or 48000, and a supported rate is kept unchanged |
| AudioFormat.MaskClearsLowBits | src/audio/ogc/SDL_ogcaudio.c:41 | AND-ing with `~63` subtracts the remainder modulo 64 |
| AudioFormat.AlignMacro | src/audio/ogc/SDL_ogcaudio.c:41 | the macro gives the least multiple of 64 not below its argument |
| AudioFormat.AlignSamples | src/audio/ogc/SDL_ogcaudio.c:116-117 | the stored sample count is a multiple of 64; it rounds up for counts up to 65472 and wraps to 0 above |
| AudioFormat.CalculateSize | src/audio/ogc/SDL_ogcaudio.c:121-122 | only `size` changes, and for 16-bit formats it is 2 × channels × samples bytes |
| BufferPool.SlotLayout | src/audio/ogc/SDL_ogcaudio.c:143-145 | there are NUM_BUFFERS slots, and slot `i` starts at `rawbuf + i * size` |
| BufferPool.SlotsInsideAllocation | src/audio/ogc/SDL_ogcaudio.c:127-145 | every byte of every slot lies inside the `size * NUM_BUFFERS` block |
| BufferPool.SlotsDisjoint | src/audio/ogc/SDL_ogcaudio.c:143-145 | two different slots share no byte |
| BufferPool.SlotsCoverAllocation | src/audio/ogc/SDL_ogcaudio.c:127-145 | every byte of the block lies in some slot, so the slots tile it |
| BufferPool.SlotsAligned | src/audio/ogc/SDL_ogcaudio.c:124-128 | with a 64-aligned base and a 64-multiple size, every slot starts on a 64-byte boundary |
| OgcAudio.OpenCallsOwnership | src/audio/ogc/SDL_ogcaudio.c:127-153 | after a successful open's calls exactly the private record and the mixing block are allocated, none of them twice |
| OgcAudio.AdjustSpec | src/audio/ogc/SDL_ogcaudio.c:112-122 | after negotiation the rate is forced, the sample count aligned and the size recomputed; format and channels are untouched |
| OgcAudio.OpenDevice | src/audio/ogc/SDL_ogcaudio.c:55-156 | open fails with out-of-memory iff the record cannot be allocated, with unsupported-format iff negotiation rejects, and with a buffer error iff `memalign` fails; any failure leaves nothing allocated, no record and the registry unchanged; success gives a valid device whose spec is the negotiated spec after rate forcing and sample alignment, whose voice type is the one negotiation chose, in AUDIO_S16SYS with NUM_BUFFERS slots, voice 0, cursors 0, first-time set, volume 255, registry slot 0 pointing to it, and owning exactly the record and the pool |
| OgcAudio.PlayDevice | src/audio/ogc/SDL_ogcaudio.c:168-191 | play arms the voice iff it is idle or this is the first play, otherwise queues; it submits slot `next_buffer` with the spec's size, sets `cur_buffer` to it, advances `next_buffer` modulo NUM_BUFFERS, clears first-time, and changes nothing else |
| OgcAudio.WaitDevice | src/audio/ogc/SDL_ogcaudio.c:193-200 | wait sleeps once on the device's queue iff the hardware still holds the current slot and the voice is not idle; otherwise it issues no call; the device is unchanged |
| OgcAudio.GetDeviceBuf | src/audio/ogc/SDL_ogcaudio.c:202-205 | the write target is `mixbufs[next_buffer]`; on an opened device that is the pool base plus `next_buffer` slot sizes |
| OgcAudio.DeviceBufInPool | src/audio/ogc/SDL_ogcaudio.c:143-145 | on an opened device the slot handed to the mixer starts at or after the pool base and ends within the NUM_BUFFERS-slot pool |
| OgcAudio.PlayCallback | src/audio/ogc/SDL_ogcaudio.c:158-166 | the callback issues no call iff no device is registered for the voice, and otherwise signals that device's queue once |
| OgcAudio.CloseCalls | src/audio/ogc/SDL_ogcaudio.c:207-228 | teardown stops the voice first and frees the record last; with a queue it signals and then closes it right after stopping, and without one it neither signals nor closes; without a pool the only block freed is the record |
| OgcAudio.CloseDevice | src/audio/ogc/SDL_ogcaudio.c:207-228 | close drops the record and clears only the device's own registry slot; it signals and closes a queue iff there is one, and it frees the record, and the pool iff there is one |
| OgcAudioProperties.PlayAll | src/audio/ogc/SDL_ogcaudio.c:168-191 | a run of plays issues one call per play and changes only the cursors and the first-time flag |
| OgcAudioProperties.PlayAllCursor | src/audio/ogc/SDL_ogcaudio.c:168-191 | after `k` plays `next_buffer` is `next + k` modulo NUM_BUFFERS, `cur_buffer` is the last play's slot, and any play clears the first-time flag |
| OgcAudioProperties.PlayAllSlots | src/audio/ogc/SDL_ogcaudio.c:170-189 | play `i` of a run submits slot `next + i` modulo NUM_BUFFERS |
| OgcAudioProperties.PlayAllArming | src/audio/ogc/SDL_ogcaudio.c:170-189 | every play of a run submits on the device's voice with the spec's size, and arms the voice iff it was idle or it is the first play of a fresh device |
| OgcAudioProperties.PlayAllCalls | src/audio/ogc/SDL_ogcaudio.c:168-191 | both together: play `i` submits slot `next + i` on the device's voice with the spec's size, arming iff idle or first play |
| OgcAudioProperties.PlayKeepsValid | src/audio/ogc/SDL_ogcaudio.c:168-191 | play keeps the open-time invariant: cursors inside the pool and slots laid out over the block |
| OgcAudioProperties.PlaysAfterOpen | src/audio/ogc/SDL_ogcaudio.c:135-191 | after `k` plays from open the cursor is `k mod NUM_BUFFERS`; the first play arms, and each later play arms iff the voice was idle and otherwise queues slot `i mod NUM_BUFFERS` on voice 0 |
| OgcAudioProperties.PlaysFromFresh | src/audio/ogc/SDL_ogcaudio.c:168-191 | the same for any valid device in the state open leaves it: cursor 0, first-time set, voice 0 |
| OgcAudioProperties.NoWriteWhileDraining | src/audio/ogc/SDL_ogcaudio.c:168-205 | with at least two slots, after a play the write target is not the slot in flight, and the two share no byte |
| OgcAudioProperties.OpenedSizeAligned | src/audio/ogc/SDL_ogcaudio.c:116-127 | a successfully opened device's buffer size is a multiple of 128 bytes |
| OgcAudioProperties.AdjustedSizeAligned | src/audio/ogc/SDL_ogcaudio.c:116-127 | the size computed for any 16-bit spec after frequency forcing and sample alignment is a multiple of 128 bytes |
| OgcAudioProperties.SubmittedSlotsAligned | src/audio/ogc/SDL_ogcaudio.c:124-191 | with an aligned pool, every slot a run of plays submits has a 64-aligned address and size |
| OgcAudioProperties.HundredFramesBecome128 | src/audio/ogc/SDL_ogcaudio.c:55-156 | a signed 16-bit request for 100 frames with two buffers opens with 128 frames, 256 bytes per channel, AUDIO_S16SYS, at 32000 or 48000 Hz |
| OgcAudioProperties.UnsignedEightRejected | src/audio/ogc/SDL_ogcaudio.c:69-101 | unsigned 8-bit fails as unsupported with the format rewritten to AUDIO_U8 and the channels folded, and nothing allocated |
| OgcAudioProperties.SignedEightUpgraded | src/audio/ogc/SDL_ogcaudio.c:69-95 | signed 8-bit opens as AUDIO_S16SYS with a 16-bit voice, mono iff one channel was requested |
| OgcAudioProperties.CloseFreesOwnedBlocks | src/audio/ogc/SDL_ogcaudio.c:207-228 | closing a valid device frees exactly the record and the pool, each once |
| OgcAudioProperties.OpenThenCloseFreesEverything | src/audio/ogc/SDL_ogcaudio.c:55-228 | open followed by close leaves nothing allocated and frees nothing twice |
| OgcAudioProperties.CallbackAfterOpen | src/audio/ogc/SDL_ogcaudio.c:147-166 | after open the callback for voice 0 signals the new device's queue |
| OgcAudioProperties.CallbackAfterClose | src/audio/ogc/SDL_ogcaudio.c:158-223 | after close a callback on the device's voice finds no device and issues no call |
| JoyEvents.HatValue | src/joystick/wii/SDL_sysjoystick.c:393-397 | a hat value uses only the four direction bits |
| JoyEvents.HatValueBits | src/joystick/wii/SDL_sysjoystick.c:255-259 | each direction bit of the hat is set iff that direction is held, and the hat is centred iff none is |
| JoyEvents.ButtonEvents | src/joystick/wii/SDL_sysjoystick.c:276-285 | the button loop reports only button events for unskipped table positions |
| JoyEvents.ButtonEventsExact | src/joystick/wii/SDL_sysjoystick.c:276-285 | button `k` is reported with state `pressed` iff it is not skipped, a changed bit touches its mask, and `pressed` is whether a held bit does |
| JoyEvents.ButtonEventsQuiet | src/joystick/wii/SDL_sysjoystick.c:401-406 | with no changed bit the button loop reports nothing |
| JoyEvents.ButtonEventsOrdered | src/joystick/wii/SDL_sysjoystick.c:401-406 | the loop reports buttons in strictly increasing table order, so each at most once |
| JoyEvents.AxisIfChanged | src/joystick/wii/SDL_sysjoystick.c:409-414 | an axis gets at most one event, present iff the stored reading differs from the new one |
| WiiJoystick.StickValue | src/joystick/wii/SDL_sysjoystick.c:293-296 | the clamped stick value is `axis * 256` when that fits in 16 bits, and AXIS_MAX or AXIS_MIN when it overflows above or below |
| WiiJoystick.StoreS8 | src/joystick/wii/SDL_sysjoystick.c:291-298 | storing only on change leaves the field holding the reading narrowed to `s8`, as storing it every frame would |
| WiiJoystick.StoreU8 | src/joystick/wii/SDL_sysjoystick.c:322-327 | the same for the `u8` shoulder fields: the field ends up holding the reading narrowed to `u8` |
| WiiJoystick.GcHatEvents | src/joystick/wii/SDL_sysjoystick.c:391-399 | the GameCube hat gets at most one event for hat 0, present iff a d-pad bit changed, built from the held directions |
| WiiJoystick.GcAxisEvents | src/joystick/wii/SDL_sysjoystick.c:409-449 | axes 0-5 each report their reading on change only: sticks × 256 with Y negated first, triggers × 128, wrapped to 16 bits; no other axis |
| WiiJoystick.GcStep | src/joystick/wii/SDL_sysjoystick.c:379-450 | a GameCube update stores exactly this frame's readings and reports only hats, buttons and axes below the GameCube counts |
| WiiProbeProperties.FailedProbeIsBare | src/joystick/wii/SDL_sysjoystick.c:240-241 | a frame whose probe failed yields the same events and the same stored state as a frame reporting no expansion, whatever expansion type the reading carried |
| JoyEvents.IsNunchukButton | src/joystick/wii/SDL_sysjoystick.c:145-148 | a position is a nunchuk button exactly when it lies in 7-8, the C and Z entries of the table |
| JoyEvents.IsClassicButton | src/joystick/wii/SDL_sysjoystick.c:150-153 | the classic buttons (entries 9 on) and the nunchuk buttons are disjoint |
| WiiJoystick.PadChannel | src/joystick/wii/SDL_sysjoystick.c:386 | the GameCube handler reads the PAD channel four below the stored index it is given |
| WiiJoystick.FilterFor | src/joystick/wii/SDL_sysjoystick.c:278-280 | the nunchuk buttons are skipped iff a classic controller is attached, and the classic buttons iff a nunchuk is |
| WiiJoystick.WiiHatEvents | src/joystick/wii/SDL_sysjoystick.c:250-274 | at most one event for hat 0: with a classic controller iff its d-pad changed, with directions mapped directly; otherwise iff the remote's d-pad changed, rotated for a sideways remote |
| WiiJoystick.ClassicAxes | src/joystick/wii/SDL_sysjoystick.c:288-334 | classic axes 0-5 each report on change only (left stick clamped, right stick unclamped, Y negated, shoulders × 128, all wrapped to 16 bits), and only the six classic fields are stored |
| WiiJoystick.NunchukAxes | src/joystick/wii/SDL_sysjoystick.c:335-357 | nunchuk axes 0-1 report the clamped stick (Y negated) on change only, and only the two nunchuk fields are stored |
| WiiJoystick.OrientAxes | src/joystick/wii/SDL_sysjoystick.c:359-376 | axes 6-8 report pitch (negated), roll and yaw × 256 on change only, and only the orientation fields are stored |
| WiiJoystick.ExpansionAxes | src/joystick/wii/SDL_sysjoystick.c:288-357 | the classic axes with a classic controller, the nunchuk axes with a nunchuk, and otherwise nothing reported and nothing stored |
| WiiJoystick.WiiStep | src/joystick/wii/SDL_sysjoystick.c:229-377 | a Wii update reports only hats, buttons and axes below the Wii counts, stores this frame's buttons, and stores the orientation on change |
| WiiJoystick.JoystickOpen | src/joystick/wii/SDL_sysjoystick.c:556-591 | open returns -1 iff allocation fails, leaving no hwdata, and otherwise returns 0 with hwdata present |
| WiiJoystick.JoystickUpdate | src/joystick/wii/SDL_sysjoystick.c:670-698 | with no joystick or no hwdata update does nothing; otherwise it scans both SDKs, keeps the counts, index and kind, and does nothing more when the kind's SDK is disabled or the kind is unknown |
| WiiJoystick.JoystickRumble | src/joystick/wii/SDL_sysjoystick.c:593-621 | rumble always returns 0 and issues at most one motor call, none without hwdata, with the motor on iff either strength is non-zero; a WPAD call goes to the stored index and a PAD call to the stored index minus 4, each in range |
| WiiJoystick.JoystickClose | src/joystick/wii/SDL_sysjoystick.c:700-707 | close frees the hwdata once iff both the joystick and its hwdata are present |
| WiiJoystick.DeviceName | src/joystick/wii/SDL_sysjoystick.c:491-511 | every name is a non-empty ASCII string of at most 17 characters with no NUL |
| WiiJoystick.Strlen | src/joystick/wii/SDL_sysjoystick.c:540 | C string length: the index of the first NUL, or the full length |
| WiiJoystick.DeviceGuid | src/joystick/wii/SDL_sysjoystick.c:532-543 | the GUID is 16 bytes holding the name's bytes where the name reaches and zeros after |
| WiiJoystickProperties.GcStepChannels | src/joystick/wii/SDL_sysjoystick.c:379-450 | a GameCube update's hat channel is the hat part, its button channel the button loop, and each axis channel the axis part |
| WiiJoystickProperties.GcStepButtons | src/joystick/wii/SDL_sysjoystick.c:386-406 | a GameCube update's button events are exactly the button loop over the bits that changed since the previous poll, with the held state of the current one |
| WiiJoystickProperties.WiiStepParts | src/joystick/wii/SDL_sysjoystick.c:229-377 | a Wii update reports the hat, then the buttons, then the expansion axes, then the orientation axes |
| WiiJoystickProperties.WiiStepHat | src/joystick/wii/SDL_sysjoystick.c:250-274 | a Wii update's hat channel is the hat event for the probed expansion |
| WiiJoystickProperties.WiiStepButtons | src/joystick/wii/SDL_sysjoystick.c:276-285 | a Wii update's button channel is the button loop filtered for the probed expansion |
| WiiJoystickProperties.WiiStepAxes | src/joystick/wii/SDL_sysjoystick.c:288-376 | Wii axes 0-5 come from the expansion and axes 6 on from the orientation |
| WiiJoystickProperties.GcButtonReported | src/joystick/wii/SDL_sysjoystick.c:401-406 | GameCube button `k` is reported with `pressed` iff its mask touches a changed bit and `pressed` is whether it is held |
| WiiJoystickProperties.GcButtonsOrdered | src/joystick/wii/SDL_sysjoystick.c:401-406 | GameCube button events come in table order, each button at most once |
| WiiJoystickProperties.GcHatShows | src/joystick/wii/SDL_sysjoystick.c:391-399 | the GameCube hat value has each direction bit set iff that d-pad direction is held |
| WiiJoystickProperties.GcHatReported | src/joystick/wii/SDL_sysjoystick.c:389-399 | a GameCube update reports hat 0 at most once, iff a d-pad bit changed, showing exactly the held directions |
| WiiJoystickProperties.GcAxisChangeOnly | src/joystick/wii/SDL_sysjoystick.c:408-449 | each GameCube axis gets at most one event, iff its reading changed, and the reading is then stored |
| WiiJoystickProperties.GcAxisBeyond | src/joystick/wii/SDL_sysjoystick.c:409-449 | no GameCube axis from 6 on is ever reported |
| WiiJoystickProperties.GcRepeatSilent | src/joystick/wii/SDL_sysjoystick.c:379-450 | feeding a GameCube pad the same readings twice, the second update reports nothing |
| WiiJoystickProperties.GcAxisValuesUnwrapped | src/joystick/wii/SDL_sysjoystick.c:409-449 | the X sticks report reading × 256 and the triggers reading × 128, with no wrap |
| WiiJoystickProperties.GcStickYNegated | src/joystick/wii/SDL_sysjoystick.c:416-421 | a GameCube Y reading above -128 reports its exact negation × 256 |
| WiiJoystickProperties.GcStickYWraps | src/joystick/wii/SDL_sysjoystick.c:416-421 | a GameCube Y reading of -128 (fully down) is reported as -32768 (fully up) |
| WiiJoystickProperties.WiiButtonReported | src/joystick/wii/SDL_sysjoystick.c:276-285 | Wii button `k` is reported with `pressed` iff the expansion does not skip it, its mask touches a changed bit, and `pressed` is whether it is held |
| WiiJoystickProperties.WiiExpansionFilter | src/joystick/wii/SDL_sysjoystick.c:276-280 | with a classic controller Z and C are never reported, and with a nunchuk no classic button is |
| WiiJoystickProperties.WiiButtonsOrdered | src/joystick/wii/SDL_sysjoystick.c:276-285 | Wii button events come in table order, each button at most once |
| WiiJoystickProperties.WiiHatShows | src/joystick/wii/SDL_sysjoystick.c:250-274 | the Wii hat value shows the classic d-pad directly, or the remote's d-pad rotated |
| WiiJoystickProperties.WiiClassicHat | src/joystick/wii/SDL_sysjoystick.c:250-262 | with a classic controller hat 0 is reported at most once, iff its d-pad changed, showing exactly its held directions |
| WiiJoystickProperties.WiiRemoteHatWhen | src/joystick/wii/SDL_sysjoystick.c:263-274 | otherwise hat 0 is reported at most once, iff the remote's d-pad changed |
| WiiJoystickProperties.WiiRemoteHat | src/joystick/wii/SDL_sysjoystick.c:263-274 | the remote's hat shows UP for RIGHT held, DOWN for LEFT, LEFT for UP and RIGHT for DOWN |
| WiiJoystickProperties.WiiClassicAxis | src/joystick/wii/SDL_sysjoystick.c:288-334 | with a classic controller each of axes 0-5 gets at most one event, iff its reading differs from the stored classic value |
| WiiJoystickProperties.WiiNunchukAxis | src/joystick/wii/SDL_sysjoystick.c:335-357 | with a nunchuk axes 0-1 report on change only and axes 2-5 are silent |
| WiiJoystickProperties.WiiBareAxis | src/joystick/wii/SDL_sysjoystick.c:288-357 | without either expansion axes 0-5 are never reported |
| WiiJoystickProperties.WiiOrientAxis | src/joystick/wii/SDL_sysjoystick.c:359-376 | axes 6-8 report on change only, whatever the expansion, and no axis beyond 8 is reported |
| WiiJoystickProperties.WiiClassicState | src/joystick/wii/SDL_sysjoystick.c:288-334 | with a classic controller the classic fields store their changed readings and the nunchuk fields are kept |
| WiiJoystickProperties.WiiNunchukState | src/joystick/wii/SDL_sysjoystick.c:335-357 | with a nunchuk the nunchuk fields store the stick and the classic fields are kept |
| WiiJoystickProperties.WiiBareState | src/joystick/wii/SDL_sysjoystick.c:286-376 | without either expansion only the buttons and the orientation are stored |
| WiiJoystickProperties.WiiSettles | src/joystick/wii/SDL_sysjoystick.c:286-376 | readings that fit their 8-bit fields are all held in the state after one update |
| WiiJoystickProperties.SettledAxisSilent | src/joystick/wii/SDL_sysjoystick.c:288-376 | from a state holding the readings no axis is reported |
| WiiJoystickProperties.SettledHatButtonsSilent | src/joystick/wii/SDL_sysjoystick.c:248-285 | from a state holding the buttons no hat or button is reported |
| WiiJoystickProperties.WiiSettledSilent | src/joystick/wii/SDL_sysjoystick.c:229-377 | a state holding the readings is a fixed point: the update reports nothing |
| WiiJoystickProperties.WiiRepeatSilent | src/joystick/wii/SDL_sysjoystick.c:229-377 | feeding a remote the same fitting readings twice, the second update reports nothing |
| WiiJoystickProperties.StickValueMonotone | src/joystick/wii/SDL_sysjoystick.c:293-296 | the clamped stick value never decreases as the reading grows |
| WiiJoystickProperties.ClassicYAtFullScale | src/joystick/wii/SDL_sysjoystick.c:300-309 | a classic left stick reading 128, against a stored -128, reports axis 1 as -32767 |
| WiiJoystickProperties.WiiFullScaleRepeats | src/joystick/wii/SDL_sysjoystick.c:300-309 | a left-stick Y reading of 128 is stored as -128, so the next frame with the same reading reports axis 1 again |
| WiiJoystickProperties.WiiRightStickWraps | src/joystick/wii/SDL_sysjoystick.c:310-315 | a classic right-stick X reading of 128 (full right) is reported as -32768 (full left) |
| WiiDeviceProperties.OpenClassifies | src/joystick/wii/SDL_sysjoystick.c:556-591 | a remote index gets index `d`, kind 0 and the Wii counts; a pad index gets index `d - 4`, kind 1 and the GameCube counts; any other index gets a zeroed hwdata and keeps the caller's counts |
| WiiDeviceProperties.DefaultClasses | src/joystick/wii/SDL_sysjoystick.c:567-588 | the classes are disjoint; with the driver's settings remotes are the indices below 4 and pads exactly 4-7 |
| WiiDeviceProperties.UpdateRunsWii | src/joystick/wii/SDL_sysjoystick.c:683-689 | a remote's update reports the Wii handler's events for its stored channel and changes only the remote view |
| WiiDeviceProperties.UpdateRunsGc | src/joystick/wii/SDL_sysjoystick.c:690-694 | a pad's update reports the GameCube handler's events for PAD channel `index - 4` and changes only the pad view |
| WiiDeviceProperties.OpenedPadReadsChannel | src/joystick/wii/SDL_sysjoystick.c:379-386 | open stores a pad's index as `d - 4` and the handler subtracts 4 again, so the pad at index `d` is read from PAD channel `d - 8`, which is negative for every pad |
| WiiDeviceProperties.UnclassifiedReadsRemoteZero | src/joystick/wii/SDL_sysjoystick.c:566-591 | an unclassified index updates as Wii remote 0 when WPAD is enabled |
| WiiDeviceProperties.OpenedUpdateWithinCounts | src/joystick/wii/SDL_sysjoystick.c:556-591 | for a classified device every event names a hat, button or axis below the counts open declared |
| WiiDeviceProperties.OpenedRemoteRumble | src/joystick/wii/SDL_sysjoystick.c:605-611 | a remote opened at `d` rumbles WPAD channel `d`, on iff either strength is non-zero |
| WiiDeviceProperties.PadRumbleGoesToRemote | src/joystick/wii/SDL_sysjoystick.c:603-618 | a pad opened at `d` rumbles Wii remote `d - 4` (or nothing when there are fewer remotes), never its own motor |
| WiiDeviceProperties.CloseAfterOpen | src/joystick/wii/SDL_sysjoystick.c:700-707 | close after open frees the hwdata once iff the allocation succeeded |
| WiiDeviceProperties.GuidText | src/joystick/wii/SDL_sysjoystick.c:537 | reading a GUID back as a C string gives its bytes up to the first zero |
| WiiDeviceProperties.GuidLayout | src/joystick/wii/SDL_sysjoystick.c:537-540 | the GUID is the first `min(16, strlen(name))` bytes of the name followed by zeros |
| WiiDeviceProperties.GuidRoundTrip | src/joystick/wii/SDL_sysjoystick.c:532-543 | reading the GUID back gives the device name cut to 16 characters |

## Left out

- Floating point is not modelled. `WPAD_Stick` and `WPAD_Orient` use magnitude, angle and trigonometry, and the shoulder value is `shoulder * 255`. Each is taken as the integer it produces, an input of `WiiReading`.
- The libogc SDK calls are not modelled. That covers ASND, LWP, WPAD, PAD and `memalign`/`free`. Their answers are inputs, and the calls the driver makes are returned as a log.
- Threads and interrupts are not modelled. The callback runs in interrupt context and WaitDevice blocks on an LWP queue. The model gives one call's effect at a time, so the wake-up-on-close liveness claim is not stated.
- `SDL_CalculateAudioSpec` is modelled only for its buffer size. Its silence value is left out, as are the `memset`s of the pool and of the record.
- `OGCAUD_Init`, `OGCAUD_Deinitialize` and `OGCAUD_ThreadInit` are not modelled: they are registration and one SDK call each, with nothing to state.
- `Wii_JoystickInit`, `Wii_NumJoysticks`, `Wii_JoystickDetect`, `Wii_JoystickQuit`, and the constant or unsupported entry points (path, player index, instance id, rumble triggers, capabilities, LED, effect, sensors) are not modelled: they return constants or make one SDK call.
- NUM_BUFFERS is not fixed. It comes from a header that is not part of this model, so it is a parameter of at least 1.
- The WPAD/PAD button and d-pad masks are not fixed either. They come from the SDK headers, so they are parameters (`Masks`), with only the table sizes fixed.
- The `joystick_hwdata` union is kept as two separate views. The driver only ever reads the view its `type` selects, so the overlap of the two layouts is not modelled.
- OgcAudio.CloseDevice: requires the private record to be present, because the source reads `hidden->channel` before any NULL test. Close on an already-closed device is undefined in the code.
- OgcAudio.PlayCallback: requires the registered device to be in the device map with its record present, because the source dereferences `this->hidden` without a test.
- WiiJoystickProperties.WiiRepeatSilent: holds only for readings that fit their 8-bit fields, because a full-scale reading of 128 never settles (WiiJoystickProperties.WiiFullScaleRepeats).
- WiiJoystickProperties.GcStickYNegated: holds only for Y readings above -128, because -128 wraps (WiiJoystickProperties.GcStickYWraps).
