/** Properties of the OGC audio driver that relate several calls: the play
    cursor over a run of plays, arm-once, the write target never being the
    slot in flight, heap ownership across open and close, and the completion
    callback after close. */
module OgcAudioProperties {
  import opened Ints
  import opened Wrappers
  import opened AudioFormat
  import opened BufferPool
  import opened Modular
  import opened OgcAudio

  datatype PlayRun = PlayRun(device: Device, calls: seq<AudioCall>)

  /** The audio thread calling PlayDevice once per entry of `statuses`, each
      entry being what ASND_StatusVoice answers at that call. */
  function PlayAll(d: Device, statuses: seq<VoiceStatus>): (r: PlayRun)
    requires Playable(d)
    ensures Playable(r.device)
    ensures |r.calls| == |statuses|
    ensures r.device.spec == d.spec && r.device.id == d.id
    ensures r.device.hidden.value.mixbufs == d.hidden.value.mixbufs
    ensures r.device.hidden.value == d.hidden.value.(
      nextBuffer := r.device.hidden.value.nextBuffer,
      curBuffer := r.device.hidden.value.curBuffer,
      firstTime := r.device.hidden.value.firstTime)
    decreases |statuses|
  {
    if statuses == [] then PlayRun(d, [])
    else
      var p := PlayDevice(d, statuses[0]);
      var rest := PlayAll(p.device, statuses[1..]);
      PlayRun(rest.device, [p.call] + rest.calls)
  }

  /** Where a run of plays leaves the cursors: `next_buffer` advances by one
      slot per play modulo NUM_BUFFERS, `cur_buffer` is the slot of the last
      play, and any play clears the first-time flag. */
  lemma {:induction false} PlayAllCursor(d: Device, statuses: seq<VoiceStatus>)
    requires Playable(d)
    ensures var r, h := PlayAll(d, statuses), d.hidden.value;
      var n := |h.mixbufs|;
      && r.device.hidden.value.nextBuffer == (h.nextBuffer + |statuses|) % n
      && (|statuses| == 0 ==> r.device == d)
      && (|statuses| > 0 ==>
            r.device.hidden.value.curBuffer == (h.nextBuffer + |statuses| - 1) % n
            && !r.device.hidden.value.firstTime)
    decreases |statuses|
  {
    var h := d.hidden.value;
    var n := |h.mixbufs|;
    if statuses == [] {
      ModUnique(h.nextBuffer, n, 0, h.nextBuffer);
    } else {
      var p := PlayDevice(d, statuses[0]);
      PlayAllCursor(p.device, statuses[1..]);
      var h1 := p.device.hidden.value;
      assert h1.nextBuffer == (h.nextBuffer + 1) % n;
      assert h1.mixbufs == h.mixbufs;
      ModAdd(h.nextBuffer + 1, |statuses| - 1, n);
      ModAdd(h.nextBuffer + 1, |statuses| - 2, n);
      ModUnique(h.nextBuffer, n, 0, h.nextBuffer);
    }
  }

  /** What each play of a run submits: play `i` hands slot `next + i` to the
      device's voice with the size of the spec, and it arms the voice exactly
      when the voice was idle or it is the first play of a fresh device. */
  lemma PlayAllCalls(d: Device, statuses: seq<VoiceStatus>)
    requires Playable(d)
    ensures forall i :: 0 <= i < |statuses| ==>
      var c, h := PlayAll(d, statuses).calls[i], d.hidden.value;
      && (c.SetVoice? || c.AddVoice?)
      && c.buffer == h.mixbufs[(h.nextBuffer + i) % |h.mixbufs|]
      && c.size == d.spec.size
      && c.voice == h.channel
      && (c.SetVoice? <==> statuses[i] == Unused || (i == 0 && h.firstTime))
  {
    PlayAllSlots(d, statuses);
    PlayAllArming(d, statuses);
  }

  /** Play `i` of a run submits slot `next + i`. */
  lemma {:induction false} PlayAllSlots(d: Device, statuses: seq<VoiceStatus>)
    requires Playable(d)
    ensures forall i :: 0 <= i < |statuses| ==>
      var c, h := PlayAll(d, statuses).calls[i], d.hidden.value;
      (c.SetVoice? || c.AddVoice?) && c.buffer == h.mixbufs[(h.nextBuffer + i) % |h.mixbufs|]
    decreases |statuses|
  {
    var h := d.hidden.value;
    if statuses != [] {
      var p := PlayDevice(d, statuses[0]);
      var rest := PlayAll(p.device, statuses[1..]);
      PlayAllSlots(p.device, statuses[1..]);
      var h1 := p.device.hidden.value;
      assert h1.nextBuffer == (h.nextBuffer + 1) % |h.mixbufs| && h1.mixbufs == h.mixbufs;
      assert PlayAll(d, statuses).calls == [p.call] + rest.calls;
      SlotsShift(PlayAll(d, statuses).calls, p.call, rest.calls, h.mixbufs, h.nextBuffer, h1.nextBuffer);
    }
  }

  /** The step of PlayAllSlots on plain sequences: a call for slot `next`
      followed by calls for the slots from `next + 1` on. */
  lemma SlotsShift(calls: seq<AudioCall>, first: AudioCall, rest: seq<AudioCall>, mixbufs: seq<nat>,
                   next: nat, next1: nat)
    requires next < |mixbufs| && next1 == (next + 1) % |mixbufs| && calls == [first] + rest
    requires (first.SetVoice? || first.AddVoice?) && first.buffer == mixbufs[next]
    requires forall i :: 0 <= i < |rest| ==>
      && (rest[i].SetVoice? || rest[i].AddVoice?)
      && rest[i].buffer == mixbufs[(next1 + i) % |mixbufs|]
    ensures forall i :: 0 <= i < |calls| ==>
      && (calls[i].SetVoice? || calls[i].AddVoice?)
      && calls[i].buffer == mixbufs[(next + i) % |mixbufs|]
  {
    var n := |mixbufs|;
    ModUnique(next, n, 0, next);
    forall i | 1 <= i < |calls|
      ensures (calls[i].SetVoice? || calls[i].AddVoice?) && calls[i].buffer == mixbufs[(next + i) % n]
    {
      ModAdd(next + 1, i - 1, n);
      assert calls[i] == rest[i - 1];
    }
  }

  /** Every play of a run submits on the device's voice with the spec's size,
      and arms the voice exactly when it was idle or on the first play of a
      fresh device. */
  lemma {:induction false} PlayAllArming(d: Device, statuses: seq<VoiceStatus>)
    requires Playable(d)
    ensures forall i :: 0 <= i < |statuses| ==>
      var c, h := PlayAll(d, statuses).calls[i], d.hidden.value;
      && (c.SetVoice? || c.AddVoice?)
      && c.size == d.spec.size
      && c.voice == h.channel
      && (c.SetVoice? <==> statuses[i] == Unused || (i == 0 && h.firstTime))
    decreases |statuses|
  {
    var h := d.hidden.value;
    if statuses != [] {
      var p := PlayDevice(d, statuses[0]);
      var rest := PlayAll(p.device, statuses[1..]);
      PlayAllArming(p.device, statuses[1..]);
      var h1 := p.device.hidden.value;
      assert !h1.firstTime && h1.channel == h.channel && p.device.spec == d.spec;
      var r := PlayAll(d, statuses);
      assert r.calls == [p.call] + rest.calls;
      forall i | 1 <= i < |statuses|
        ensures r.calls[i] == rest.calls[i - 1] && statuses[i] == statuses[1..][i - 1]
      {
      }
    }
  }

  /** Playing keeps the open-time invariant. */
  lemma PlayKeepsValid(d: Device, status: VoiceStatus)
    requires Valid(d)
    ensures Valid(PlayDevice(d, status).device)
  {
  }

  /** After `k` plays from a successful open the cursor is `k mod NUM_BUFFERS`;
      the first play arms the voice, and every later play arms it iff the voice
      was reported idle, otherwise it streams with AddVoice. */
  lemma PlaysAfterOpen(id: DeviceId, spec: AudioSpec, numBuffers: nat, registry: Registry, env: OpenEnv,
                       statuses: seq<VoiceStatus>)
    requires numBuffers >= 1
    requires OpenDevice(id, spec, numBuffers, registry, env).error.None?
    ensures var d := OpenDevice(id, spec, numBuffers, registry, env).device;
      var r := PlayAll(d, statuses);
      && Valid(r.device)
      && r.device.hidden.value.nextBuffer == |statuses| % numBuffers
      && (|statuses| > 0 ==> r.calls[0].SetVoice?)
      && (forall i :: 0 < i < |statuses| ==> (r.calls[i].SetVoice? <==> statuses[i] == Unused))
      && (forall i :: 0 < i < |statuses| && statuses[i] != Unused ==>
            r.calls[i] == AddVoice(0, d.hidden.value.mixbufs[i % numBuffers], d.spec.size))
  {
    var d := OpenDevice(id, spec, numBuffers, registry, env).device;
    PlaysFromFresh(d, statuses);
  }

  /** The same for any valid device fresh from open: cursor 0, first-time set, voice 0. */
  lemma PlaysFromFresh(d: Device, statuses: seq<VoiceStatus>)
    requires Valid(d)
    requires d.hidden.value.nextBuffer == 0 && d.hidden.value.firstTime && d.hidden.value.channel == 0
    ensures var r, n := PlayAll(d, statuses), |d.hidden.value.mixbufs|;
      && Valid(r.device)
      && r.device.hidden.value.nextBuffer == |statuses| % n
      && (|statuses| > 0 ==> r.calls[0].SetVoice?)
      && (forall i :: 0 < i < |statuses| ==> (r.calls[i].SetVoice? <==> statuses[i] == Unused))
      && (forall i :: 0 < i < |statuses| && statuses[i] != Unused ==>
            r.calls[i] == AddVoice(0, d.hidden.value.mixbufs[i % n], d.spec.size))
  {
    PlayAllCursor(d, statuses);
    PlayAllCalls(d, statuses);
  }

  /** With at least two slots, the slot the mixer is handed after a play is
      never the slot just submitted, and the two slots share no byte. */
  lemma NoWriteWhileDraining(d: Device, status: VoiceStatus, a: nat)
    requires Valid(d) && |d.hidden.value.mixbufs| >= 2
    ensures var d' := PlayDevice(d, status).device;
      var h' := d'.hidden.value;
      && h'.nextBuffer != h'.curBuffer
      && GetDeviceBuf(d') == h'.mixbufs[h'.nextBuffer]
      && !(InSlot(h'.mixbufs, d.spec.size, h'.nextBuffer, a) && InSlot(h'.mixbufs, d.spec.size, h'.curBuffer, a))
  {
    var h := d.hidden.value;
    var n := |h.mixbufs|;
    var d' := PlayDevice(d, status).device;
    var h' := d'.hidden.value;
    if h.nextBuffer + 1 < n {
      ModUnique(h.nextBuffer + 1, n, 0, h.nextBuffer + 1);
    } else {
      ModUnique(h.nextBuffer + 1, n, 1, 0);
    }
    PlayKeepsValid(d, status);
    SlotsDisjoint(h.rawbuf.value, d.spec.size, n, h'.nextBuffer, h'.curBuffer, a);
  }

  /** A successful open yields a buffer size that is a multiple of 128 bytes:
      two bytes per sample and a sample count that is a multiple of 64. */
  lemma OpenedSizeAligned(id: DeviceId, spec: AudioSpec, numBuffers: nat, registry: Registry, env: OpenEnv)
    requires numBuffers >= 1
    requires OpenDevice(id, spec, numBuffers, registry, env).error.None?
    ensures OpenDevice(id, spec, numBuffers, registry, env).device.spec.size % 128 == 0
  {
    var negotiated := NegotiateFormat(spec).spec;
    assert OpenDevice(id, spec, numBuffers, registry, env).device.spec == AdjustSpec(negotiated);
    AdjustedSizeAligned(negotiated);
  }

  /** The size AdjustSpec gives a 16-bit spec is a multiple of 128 bytes. */
  lemma AdjustedSizeAligned(spec: AudioSpec)
    requires BitSize(spec.format) == 16
    ensures AdjustSpec(spec).size % 128 == 0
  {
    var s := AdjustSpec(spec);
    var k := s.samples / 64;
    assert s.samples == 64 * k;
    assert s.size == 128 * (s.channels * k);
  }

  /** With a 64-aligned pool and a 64-multiple slot size (both hold after a
      successful open, by OpenedSizeAligned), every slot a run of plays submits
      is 64-aligned in address and size, as the mixer needs. */
  lemma SubmittedSlotsAligned(d: Device, statuses: seq<VoiceStatus>)
    requires Valid(d)
    requires d.hidden.value.rawbuf.value % MemAlign == 0 && d.spec.size % MemAlign == 0
    ensures var calls := PlayAll(d, statuses).calls;
      forall i :: 0 <= i < |statuses| ==>
        && (calls[i].SetVoice? || calls[i].AddVoice?)
        && calls[i].size % MemAlign == 0
        && calls[i].buffer % MemAlign == 0
  {
    var h := d.hidden.value;
    var calls := PlayAll(d, statuses).calls;
    PlayAllCalls(d, statuses);
    SlotCallsAligned(calls, h.mixbufs, h.rawbuf.value, d.spec.size, h.nextBuffer);
  }

  /** Calls that each submit some slot of an aligned layout, with the slot
      size, are aligned in address and size. */
  lemma SlotCallsAligned(calls: seq<AudioCall>, mixbufs: seq<nat>, base: nat, size: nat, next: nat)
    requires |mixbufs| >= 1 && mixbufs == SlotLayout(base, size, |mixbufs|)
    requires base % MemAlign == 0 && size % MemAlign == 0
    requires forall i :: 0 <= i < |calls| ==>
      && (calls[i].SetVoice? || calls[i].AddVoice?)
      && calls[i].buffer == mixbufs[(next + i) % |mixbufs|]
      && calls[i].size == size
    ensures forall i :: 0 <= i < |calls| ==>
      && (calls[i].SetVoice? || calls[i].AddVoice?)
      && calls[i].size % MemAlign == 0
      && calls[i].buffer % MemAlign == 0
  {
    forall i | 0 <= i < |calls|
      ensures calls[i].buffer % MemAlign == 0
    {
      SlotsAligned(base, size, |mixbufs|, (next + i) % |mixbufs|);
    }
  }

  /** The end-to-end case: a signed 16-bit request for 100 frames opens with
      128 frames, at a supported rate, in native signed 16-bit. */
  lemma HundredFramesBecome128(id: DeviceId, channels: u8, freq: int, registry: Registry, env: OpenEnv)
    requires env.hiddenAllocated && env.rawbuf.Some?
    ensures var r := OpenDevice(id, AudioSpec(AudioS16Msb, channels, freq, 100, 0), 2, registry, env);
      && r.error.None?
      && r.device.spec.samples == 128
      && r.device.spec.format == AudioS16Sys
      && r.device.spec.size == 256 * FoldChannels(channels)
      && (r.device.spec.freq == 32000 || r.device.spec.freq == 48000)
  {
  }

  /** Requesting unsigned 8-bit fails, with the spec's format rewritten to
      AUDIO_U8 by the 8-bit branch before the 16-bit branch rejects it, and
      nothing left allocated. */
  lemma UnsignedEightRejected(id: DeviceId, spec: AudioSpec, numBuffers: nat, registry: Registry, env: OpenEnv)
    requires numBuffers >= 1 && env.hiddenAllocated
    requires BitSize(spec.format) == 8 && IsUnsigned(spec.format)
    ensures var r := OpenDevice(id, spec, numBuffers, registry, env);
      && r.error == Some(UnsupportedFormat)
      && r.device.spec.format == AudioU8
      && r.device.spec.channels == FoldChannels(spec.channels)
      && r.device.hidden.None?
      && LiveAfter({}, r.calls) == {}
  {
  }

  /** Requesting signed 8-bit succeeds (given memory) as native signed 16-bit
      with a 16-bit voice, via the fall-through into the 16-bit branch. */
  lemma SignedEightUpgraded(id: DeviceId, spec: AudioSpec, numBuffers: nat, registry: Registry, env: OpenEnv)
    requires numBuffers >= 1 && env.hiddenAllocated && env.rawbuf.Some?
    requires BitSize(spec.format) == 8 && IsSigned(spec.format)
    ensures var r := OpenDevice(id, spec, numBuffers, registry, env);
      && r.error.None?
      && r.device.spec.format == AudioS16Sys
      && Is16Bit(r.device.hidden.value.outputType)
      && (IsMono(r.device.hidden.value.outputType) <==> spec.channels == 1)
  {
  }

  // ----- ownership across open and close -----

  lemma {:induction false} LiveAfterConcat(live: set<Block>, a: seq<AudioCall>, b: seq<AudioCall>)
    ensures LiveAfter(live, a + b) == LiveAfter(LiveAfter(live, a), b)
    ensures Balanced(live, a + b) <==> Balanced(live, a) && Balanced(LiveAfter(live, a), b)
    decreases |a|
  {
    if a == [] {
      assert a + b == b;
    } else {
      assert (a + b)[0] == a[0];
      assert (a + b)[1..] == a[1..] + b;
      LiveAfterConcat(Track(live, a[0]), a[1..], b);
    }
  }

  lemma ReleaseOne(live: set<Block>, b: Block)
    requires b in live
    ensures LiveAfter(live, [Release(b)]) == live - {b}
    ensures Balanced(live, [Release(b)])
  {
    assert [Release(b)][1..] == [];
  }

  /** Closing a valid device frees exactly the record and the pool, each once. */
  lemma CloseFreesOwnedBlocks(d: Device)
    requires Valid(d)
    ensures LiveAfter({HiddenBlock, MixBlockOf(d)}, CloseCalls(d)) == {}
    ensures Balanced({HiddenBlock, MixBlockOf(d)}, CloseCalls(d))
  {
    var h := d.hidden.value;
    var owned := {HiddenBlock, MixBlockOf(d)};
    var quiet := [StopVoice(h.channel)]
      + (if h.queue != QueueNull then [ThreadSignal(h.queue), CloseQueue(h.queue)] else []);
    QuietCalls(owned, quiet);
    assert CloseCalls(d) == quiet + [Release(MixBlockOf(d))] + [Release(HiddenBlock)];
    ReleaseOne(owned, MixBlockOf(d));
    assert owned - {MixBlockOf(d)} == {HiddenBlock};
    ReleaseOne({HiddenBlock}, HiddenBlock);
    LiveAfterConcat(owned, quiet, [Release(MixBlockOf(d))]);
    LiveAfterConcat(owned, quiet + [Release(MixBlockOf(d))], [Release(HiddenBlock)]);
  }

  /** Opening and then closing a device leaves nothing allocated and never
      frees a block twice. */
  lemma OpenThenCloseFreesEverything(id: DeviceId, spec: AudioSpec, numBuffers: nat, registry: Registry, env: OpenEnv)
    requires numBuffers >= 1
    requires OpenDevice(id, spec, numBuffers, registry, env).error.None?
    ensures var o := OpenDevice(id, spec, numBuffers, registry, env);
      var c := CloseDevice(o.device, o.registry);
      && LiveAfter({}, o.calls + c.calls) == {}
      && Balanced({}, o.calls + c.calls)
      && c.device.hidden.None?
  {
    var o := OpenDevice(id, spec, numBuffers, registry, env);
    LiveAfterConcat({}, o.calls, CloseDevice(o.device, o.registry).calls);
    CloseFreesOwnedBlocks(o.device);
  }

  // ----- the completion callback and close -----

  /** After open the callback for voice 0 wakes the new device's queue. */
  lemma CallbackAfterOpen(id: DeviceId, spec: AudioSpec, numBuffers: nat, registry: Registry, env: OpenEnv,
                          devices: map<DeviceId, Device>)
    requires numBuffers >= 1
    requires OpenDevice(id, spec, numBuffers, registry, env).error.None?
    requires devices == map[id := OpenDevice(id, spec, numBuffers, registry, env).device]
    ensures PlayCallback(OpenDevice(id, spec, numBuffers, registry, env).registry, devices, 0)
      == [ThreadSignal(env.queue)]
  {
  }

  /** Once a device is closed, a completion callback on its voice finds no
      device and does nothing, whatever devices remain. */
  lemma CallbackAfterClose(d: Device, registry: Registry, devices: map<DeviceId, Device>)
    requires d.hidden.Some? && d.hidden.value.channel < RegistrySize
    ensures var c := CloseDevice(d, registry);
      RegistryResolves(c.registry, devices, d.hidden.value.channel)
      && PlayCallback(c.registry, devices, d.hidden.value.channel) == []
  {
  }
}
