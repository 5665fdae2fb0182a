/** The OGC audio driver's device logic: open, play, wait, the write target,
    the completion callback and close. ASND, LWP and allocator calls are not
    executed: their answers are inputs (voice status, ASND_TestPointer, allocation
    results) and the calls the driver issues are returned as a log. */
module OgcAudio {
  import opened Ints
  import opened Wrappers
  import opened AudioFormat
  import opened BufferPool

  const MaxVolume: int := 255

  /** Size of the static `s_callback_data` table. */
  const RegistrySize: nat := 8

  /** A device is named by an abstract handle standing for its address. */
  type DeviceId = nat

  /** `s_callback_data`: for each ASND voice, the device whose completion
      callback it serves. */
  type Registry = r: seq<Option<DeviceId>> | |r| == RegistrySize
    witness seq(RegistrySize, _ => None)

  /** An LWP thread queue handle, or LWP_TQUEUE_NULL. */
  datatype Queue = QueueNull | Queue(handle: nat)

  /** The two heap blocks a device owns: the private record and the mixing buffer. */
  datatype Block = HiddenBlock | MixBlock(base: nat, bytes: nat)

  /** What ASND_StatusVoice reports. */
  datatype VoiceStatus = Unused | Working | Waiting

  /** SDK and allocator calls, in the order the driver issues them. */
  datatype AudioCall =
    | Alloc(block: Block)
    | Release(block: Block)
    | InitQueue
    | CloseQueue(queue: Queue)
    | ThreadSignal(queue: Queue)
    | ThreadSleep(queue: Queue)
    | AsndInit
    | ChangeVolumeVoice(voice: nat, left: int, right: int)
    | Pause(paused: bool)
    | SetVoice(voice: nat, format: VoiceType, freq: int, delay: int, buffer: nat, size: nat, left: int, right: int)
    | AddVoice(voice: nat, buffer: nat, size: nat)
    | StopVoice(voice: nat)

  /** `struct SDL_PrivateAudioData`. */
  datatype Hidden = Hidden(
    outputType: VoiceType,
    volume: int,
    rawbuf: Option<nat>,
    mixbufs: seq<nat>,
    channel: nat,
    firstTime: bool,
    queue: Queue,
    nextBuffer: nat,
    curBuffer: nat)

  /** The fields of SDL_AudioDevice the driver touches; `hidden` is None when NULL. */
  datatype Device = Device(id: DeviceId, spec: AudioSpec, hidden: Option<Hidden>)

  /** The allocator's and LWP's answers during open. */
  datatype OpenEnv = OpenEnv(hiddenAllocated: bool, rawbuf: Option<nat>, queue: Queue)

  datatype OpenError = OutOfMemory | UnsupportedFormat | MixBufferAlloc

  /** `error` is None when OpenDevice returns 0. */
  datatype OpenResult = OpenResult(error: Option<OpenError>, device: Device, registry: Registry, calls: seq<AudioCall>)

  datatype PlayResult = PlayResult(device: Device, call: AudioCall)

  datatype WaitResult = WaitResult(device: Device, calls: seq<AudioCall>)

  datatype CloseResult = CloseResult(device: Device, registry: Registry, calls: seq<AudioCall>)

  // ----- ownership of heap blocks along a call log -----

  function Track(live: set<Block>, c: AudioCall): set<Block> {
    match c
    case Alloc(b) => live + {b}
    case Release(b) => live - {b}
    case _ => live
  }

  /** The blocks still allocated after the calls in `calls`. */
  function LiveAfter(live: set<Block>, calls: seq<AudioCall>): set<Block>
    decreases |calls|
  {
    if calls == [] then live else LiveAfter(Track(live, calls[0]), calls[1..])
  }

  /** No block is allocated twice or freed while not allocated. */
  predicate Balanced(live: set<Block>, calls: seq<AudioCall>)
    decreases |calls|
  {
    calls == [] ||
    (&& (calls[0].Alloc? ==> calls[0].block !in live)
     && (calls[0].Release? ==> calls[0].block in live)
     && Balanced(Track(live, calls[0]), calls[1..]))
  }

  /** Calls that neither allocate nor free leave ownership unchanged. */
  lemma {:induction false} QuietCalls(live: set<Block>, calls: seq<AudioCall>)
    requires forall c :: c in calls ==> !c.Alloc? && !c.Release?
    ensures LiveAfter(live, calls) == live
    ensures Balanced(live, calls)
    decreases |calls|
  {
    if calls != [] {
      assert calls[0] in calls;
      assert forall c :: c in calls[1..] ==> c in calls;
      QuietCalls(live, calls[1..]);
    }
  }

  /** The log of a successful open owns exactly the record and the pool. */
  lemma OpenCallsOwnership(mix: Block, setup: seq<AudioCall>)
    requires mix.MixBlock?
    requires forall c :: c in setup ==> !c.Alloc? && !c.Release?
    ensures LiveAfter({}, [Alloc(HiddenBlock), Alloc(mix)] + setup) == {HiddenBlock, mix}
    ensures Balanced({}, [Alloc(HiddenBlock), Alloc(mix)] + setup)
  {
    var calls := [Alloc(HiddenBlock), Alloc(mix)] + setup;
    var tail := calls[1..];
    assert tail[0] == Alloc(mix) && tail[1..] == setup;
    QuietCalls({HiddenBlock, mix}, setup);
    assert Track({HiddenBlock}, Alloc(mix)) == {HiddenBlock, mix};
    assert LiveAfter({HiddenBlock}, tail) == {HiddenBlock, mix};
    assert Balanced({HiddenBlock}, tail);
    assert calls[0] == Alloc(HiddenBlock);
    assert Track({}, calls[0]) == {HiddenBlock};
  }

  /** The block that `memalign` returned for the pool of `d`. */
  function MixBlockOf(d: Device): Block
    requires d.hidden.Some? && d.hidden.value.rawbuf.Some?
  {
    MixBlock(d.hidden.value.rawbuf.value, d.spec.size * |d.hidden.value.mixbufs|)
  }

  // ----- device invariants -----

  /** What PlayDevice dereferences: a private record and a cursor inside the pool. */
  predicate Playable(d: Device) {
    && d.hidden.Some?
    && |d.hidden.value.mixbufs| >= 1
    && d.hidden.value.nextBuffer < |d.hidden.value.mixbufs|
  }

  /** The state an opened device keeps between calls. */
  predicate Valid(d: Device) {
    && Playable(d)
    && var h := d.hidden.value;
    && h.rawbuf.Some?
    && h.mixbufs == SlotLayout(h.rawbuf.value, d.spec.size, |h.mixbufs|)
    && h.curBuffer < |h.mixbufs|
    && h.channel < RegistrySize
  }

  // ----- OGCAUD_OpenDevice -----

  /** The spec after the frequency, sample and size adjustments that follow a
      successful format switch. */
  function AdjustSpec(spec: AudioSpec): (r: AudioSpec)
    ensures r.format == spec.format && r.channels == spec.channels
    ensures r.freq == ForceFrequency(spec.freq)
    ensures r.samples == AlignSamples(spec.samples)
    ensures BitSize(spec.format) == 16 ==> r.size == 2 * r.channels * r.samples
  {
    CalculateSize(spec.(freq := ForceFrequency(spec.freq), samples := AlignSamples(spec.samples)))
  }

  /** OGCAUD_OpenDevice for device `id` with requested `spec` and a pool of
      `numBuffers` (NUM_BUFFERS) slots. */
  function OpenDevice(id: DeviceId, spec: AudioSpec, numBuffers: nat, registry: Registry, env: OpenEnv): (r: OpenResult)
    requires numBuffers >= 1
    ensures r.error.None? <==> env.hiddenAllocated && NegotiateFormat(spec).FormatOk? && env.rawbuf.Some?
    ensures r.error == Some(OutOfMemory) <==> !env.hiddenAllocated
    ensures r.error == Some(UnsupportedFormat) <==> env.hiddenAllocated && NegotiateFormat(spec).FormatRejected?
    ensures r.error.Some? ==> r.device.hidden.None? && r.registry == registry
    ensures r.error.Some? ==> LiveAfter({}, r.calls) == {} && Balanced({}, r.calls)
    ensures r.device.id == id
    ensures r.error.None? ==>
      && Valid(r.device)
      && r.device.spec == AdjustSpec(NegotiateFormat(spec).spec)
      && r.device.hidden.value.outputType == NegotiateFormat(spec).voice
      && r.device.spec.format == AudioS16Sys
      && |r.device.hidden.value.mixbufs| == numBuffers
      && r.device.hidden.value.rawbuf == env.rawbuf
      && r.device.hidden.value.channel == 0
      && r.device.hidden.value.firstTime
      && r.device.hidden.value.nextBuffer == 0
      && r.device.hidden.value.curBuffer == 0
      && r.device.hidden.value.queue == env.queue
      && r.device.hidden.value.volume == MaxVolume
      && r.registry == registry[0 := Some(id)]
      && LiveAfter({}, r.calls) == {HiddenBlock, MixBlockOf(r.device)}
      && Balanced({}, r.calls)
  {
    if !env.hiddenAllocated then
      OpenResult(Some(OutOfMemory), Device(id, spec, None), registry, [])
    else
      match NegotiateFormat(spec)
      case FormatRejected(left) =>
        OpenResult(Some(UnsupportedFormat), Device(id, left, None), registry,
                   [Alloc(HiddenBlock), Release(HiddenBlock)])
      case FormatOk(negotiated, voice) =>
        var adjusted := AdjustSpec(negotiated);
        match env.rawbuf
        case None =>
          OpenResult(Some(MixBufferAlloc), Device(id, adjusted, None), registry,
                     [Alloc(HiddenBlock), Release(HiddenBlock)])
        case Some(base) =>
          var h := Hidden(voice, MaxVolume, Some(base), SlotLayout(base, adjusted.size, numBuffers),
                          0, true, env.queue, 0, 0);
          var mix := MixBlock(base, adjusted.size * numBuffers);
          var setup := [InitQueue, AsndInit, ChangeVolumeVoice(0, MaxVolume, MaxVolume), Pause(false)];
          OpenCallsOwnership(mix, setup);
          OpenResult(None, Device(id, adjusted, Some(h)), registry[0 := Some(id)],
                     [Alloc(HiddenBlock), Alloc(mix)] + setup)
  }

  // ----- OGCAUD_PlayDevice -----

  /** Hand slot `nextBuffer` to the hardware: arm the voice (SetVoice, which
      also registers ogc_play_callback) on the first play or when the voice has
      gone idle, otherwise queue the slot (AddVoice); then step the cursor. */
  function PlayDevice(d: Device, status: VoiceStatus): (r: PlayResult)
    requires Playable(d)
    ensures Playable(r.device)
    ensures var h, h' := d.hidden.value, r.device.hidden.value;
      && h'.curBuffer == h.nextBuffer
      && h'.nextBuffer == (h.nextBuffer + 1) % |h.mixbufs|
      && !h'.firstTime
      && h' == h.(curBuffer := h'.curBuffer, nextBuffer := h'.nextBuffer, firstTime := false)
    ensures r.device.(hidden := d.hidden) == d
    ensures r.call.SetVoice? <==> status == Unused || d.hidden.value.firstTime
    ensures r.call.SetVoice? || r.call.AddVoice?
    ensures r.call.voice == d.hidden.value.channel
    ensures r.call.buffer == d.hidden.value.mixbufs[d.hidden.value.nextBuffer]
    ensures r.call.size == d.spec.size
    ensures r.call.SetVoice? ==>
      r.call == SetVoice(d.hidden.value.channel, d.hidden.value.outputType, d.spec.freq, 0,
                         r.call.buffer, d.spec.size, d.hidden.value.volume, d.hidden.value.volume)
  {
    var h := d.hidden.value;
    var mixbuf := h.mixbufs[h.nextBuffer];
    var arm := status == Unused || h.firstTime;
    var call :=
      if arm then SetVoice(h.channel, h.outputType, d.spec.freq, 0, mixbuf, d.spec.size, h.volume, h.volume)
      else AddVoice(h.channel, mixbuf, d.spec.size);
    var h' := h.(curBuffer := h.nextBuffer,
                 firstTime := if arm then false else h.firstTime,
                 nextBuffer := (h.nextBuffer + 1) % |h.mixbufs|);
    PlayResult(d.(hidden := Some(h')), call)
  }

  // ----- OGCAUD_WaitDevice -----

  /** Sleep on the queue while the hardware still holds the slot last handed to
      it (ASND_TestPointer, answered by `inUse`) and the voice is not idle. */
  function WaitDevice(d: Device, status: VoiceStatus, inUse: set<nat>): (r: WaitResult)
    requires d.hidden.Some? && d.hidden.value.curBuffer < |d.hidden.value.mixbufs|
    ensures r.device == d
    ensures r.calls == [] || r.calls == [ThreadSleep(d.hidden.value.queue)]
    ensures r.calls != [] <==>
      d.hidden.value.mixbufs[d.hidden.value.curBuffer] in inUse && status != Unused
  {
    var h := d.hidden.value;
    if h.mixbufs[h.curBuffer] in inUse && status != Unused then
      WaitResult(d, [ThreadSleep(h.queue)])
    else
      WaitResult(d, [])
  }

  // ----- OGCAUD_GetDeviceBuf -----

  /** The slot the mixer fills next. */
  function GetDeviceBuf(d: Device): (buf: nat)
    requires Playable(d)
    ensures buf == d.hidden.value.mixbufs[d.hidden.value.nextBuffer]
    ensures Valid(d) ==> buf == d.hidden.value.rawbuf.value + d.hidden.value.nextBuffer * d.spec.size
  {
    d.hidden.value.mixbufs[d.hidden.value.nextBuffer]
  }

  /** On an opened device the slot the mixer fills lies wholly inside the pool. */
  lemma DeviceBufInPool(d: Device)
    requires Valid(d)
    ensures var h := d.hidden.value;
      h.rawbuf.value <= GetDeviceBuf(d)
      && GetDeviceBuf(d) + d.spec.size <= h.rawbuf.value + |h.mixbufs| * d.spec.size
  {
    var h := d.hidden.value;
    MulMonotone(h.nextBuffer + 1, |h.mixbufs|, d.spec.size);
  }

  // ----- ogc_play_callback -----

  /** Devices reachable through the registry have their private record. */
  predicate RegistryResolves(registry: Registry, devices: map<DeviceId, Device>, voice: nat)
    requires voice < RegistrySize
  {
    registry[voice].Some? ==>
      registry[voice].value in devices && devices[registry[voice].value].hidden.Some?
  }

  /** The completion callback for `voice`: wake the registered device's
      waiter, or do nothing when no device is registered. */
  function PlayCallback(registry: Registry, devices: map<DeviceId, Device>, voice: nat): (calls: seq<AudioCall>)
    requires voice < RegistrySize
    requires RegistryResolves(registry, devices, voice)
    ensures |calls| <= 1
    ensures calls == [] <==> registry[voice].None?
    ensures forall c :: c in calls ==>
      c == ThreadSignal(devices[registry[voice].value].hidden.value.queue)
  {
    match registry[voice]
    case None => []
    case Some(id) => [ThreadSignal(devices[id].hidden.value.queue)]
  }

  // ----- OGCAUD_CloseDevice -----

  /** The teardown calls, in order: stop the voice, wake and close the queue
      if there is one, free the pool if there is one, free the record. */
  function CloseCalls(d: Device): (calls: seq<AudioCall>)
    requires d.hidden.Some?
    ensures |calls| >= 2
    ensures calls[0] == StopVoice(d.hidden.value.channel)
    ensures calls[|calls| - 1] == Release(HiddenBlock)
    ensures d.hidden.value.queue != QueueNull ==>
      |calls| >= 4 && calls[1] == ThreadSignal(d.hidden.value.queue) && calls[2] == CloseQueue(d.hidden.value.queue)
    ensures d.hidden.value.queue == QueueNull ==> forall c :: c in calls ==> !c.ThreadSignal? && !c.CloseQueue?
    ensures d.hidden.value.rawbuf.None? ==> forall c :: c in calls && c.Release? ==> c.block == HiddenBlock
  {
    var h := d.hidden.value;
    [StopVoice(h.channel)]
    + (if h.queue != QueueNull then [ThreadSignal(h.queue), CloseQueue(h.queue)] else [])
    + (if h.rawbuf.Some? then [Release(MixBlockOf(d))] else [])
    + [Release(HiddenBlock)]
  }

  /** OGCAUD_CloseDevice. It reads `hidden->channel` before any NULL test, so
      `hidden` must be present. */
  function CloseDevice(d: Device, registry: Registry): (r: CloseResult)
    requires d.hidden.Some? && d.hidden.value.channel < RegistrySize
    ensures r.device == d.(hidden := None)
    ensures r.registry[d.hidden.value.channel].None?
    ensures forall v :: 0 <= v < RegistrySize && v != d.hidden.value.channel ==> r.registry[v] == registry[v]
    ensures d.hidden.value.queue != QueueNull ==>
      |r.calls| >= 4 && r.calls[1] == ThreadSignal(d.hidden.value.queue) && r.calls[2] == CloseQueue(d.hidden.value.queue)
    ensures d.hidden.value.queue == QueueNull ==> forall c :: c in r.calls ==> !c.ThreadSignal? && !c.CloseQueue?
    ensures d.hidden.value.rawbuf.None? ==> forall c :: c in r.calls && c.Release? ==> c.block == HiddenBlock
    ensures Release(HiddenBlock) in r.calls
    ensures d.hidden.value.rawbuf.Some? ==> Release(MixBlockOf(d)) in r.calls
  {
    var calls := CloseCalls(d);
    CloseResult(d.(hidden := None), registry[d.hidden.value.channel := None], calls)
  }
}
