/** The part of OGCAUD_OpenDevice that negotiates the audio spec: the sample
    format switch (with its fall-through from 8-bit into 16-bit), the forced
    frequency, the sample-count alignment and the derived buffer size. */
module AudioFormat {
  import opened Ints

  /** SDL's 16-bit audio format word: bits 0-7 hold the sample bit size,
      bit 15 says signed, bit 12 says big-endian, bit 8 says float. */
  type Format = bv16

  const MaskBitSize: Format := 0x00FF
  const MaskSigned: Format := 0x8000

  const AudioU8: Format := 0x0008
  const AudioS8: Format := 0x8008
  const AudioU16Msb: Format := 0x1010
  const AudioS16Msb: Format := 0x9010
  /** The GameCube and Wii are big-endian, so the native 16-bit format is MSB first. */
  const AudioS16Sys: Format := AudioS16Msb

  /** The two rates the ASND mixer accepts, and the fallback. */
  const Freq32k: int := 32000
  const Freq48k: int := 48000

  /** The hardware wants sample counts and buffer sizes in multiples of 64. */
  const SampleAlign: nat := 64

  function BitSize(f: Format): nat {
    (f & MaskBitSize) as nat
  }

  predicate IsSigned(f: Format) {
    f & MaskSigned != 0
  }

  predicate IsUnsigned(f: Format) {
    !IsSigned(f)
  }

  /** ASND voice formats. */
  datatype VoiceType =
    | Mono8 | Stereo8
    | Mono8Unsigned | Stereo8Unsigned
    | Mono16 | Stereo16

  predicate Is16Bit(v: VoiceType) {
    v == Mono16 || v == Stereo16
  }

  predicate IsMono(v: VoiceType) {
    v == Mono8 || v == Mono8Unsigned || v == Mono16
  }

  /** The fields of SDL_AudioSpec the driver reads or writes. */
  datatype AudioSpec = AudioSpec(
    format: Format,
    channels: u8,
    freq: int,
    samples: u16,
    size: nat)

  /** Outcome of the format switch. A rejected spec is returned as the switch
      left it: the 8-bit branch has already rewritten format and channels
      before the 16-bit branch rejects an unsigned format. */
  datatype FormatOutcome =
    | FormatOk(spec: AudioSpec, voice: VoiceType)
    | FormatRejected(spec: AudioSpec)

  /** Channel folding shared by every branch: mono stays mono, anything else
      (including 0) becomes stereo. */
  function FoldChannels(channels: u8): (r: u8)
    ensures r == 1 || r == 2
    ensures r == 1 <==> channels == 1
  {
    if channels == 1 then 1 else 2
  }

  /** The `case 8` branch. Its voice type is always overwritten or discarded
      by the `case 16` code it falls into. */
  function Case8(spec: AudioSpec): (r: (AudioSpec, VoiceType))
    ensures BitSize(r.0.format) == 8
    ensures IsSigned(r.0.format) <==> IsSigned(spec.format)
    ensures r.0.channels == FoldChannels(spec.channels)
    ensures r.0.(format := spec.format, channels := spec.channels) == spec
  {
    var mono := spec.channels == 1;
    if IsUnsigned(spec.format) then
      (spec.(format := AudioU8, channels := FoldChannels(spec.channels)),
       if mono then Mono8Unsigned else Stereo8Unsigned)
    else
      (spec.(format := AudioS8, channels := FoldChannels(spec.channels)),
       if mono then Mono8 else Stereo8)
  }

  /** The `case 16` branch: signed becomes native signed 16-bit, unsigned is rejected. */
  function Case16(spec: AudioSpec): (r: FormatOutcome)
    ensures r.FormatOk? <==> IsSigned(spec.format)
    ensures r.FormatRejected? ==> r.spec == spec
    ensures r.FormatOk? ==>
      && r.spec == spec.(format := AudioS16Sys, channels := FoldChannels(spec.channels))
      && Is16Bit(r.voice)
      && (IsMono(r.voice) <==> spec.channels == 1)
  {
    if IsSigned(spec.format) then
      FormatOk(spec.(format := AudioS16Sys, channels := FoldChannels(spec.channels)),
               if spec.channels == 1 then Mono16 else Stereo16)
    else
      FormatRejected(spec)
  }

  /** The whole switch on the bit size, `case 8` falling through into `case 16`. */
  function NegotiateFormat(spec: AudioSpec): (r: FormatOutcome)
    ensures r.FormatOk? <==> (BitSize(spec.format) == 8 || BitSize(spec.format) == 16) && IsSigned(spec.format)
    ensures r.FormatOk? ==>
      && r.spec.format == AudioS16Sys
      && Is16Bit(r.voice)
      && (IsMono(r.voice) <==> spec.channels == 1)
      && r.spec.channels == FoldChannels(spec.channels)
      && r.spec.(format := spec.format, channels := spec.channels) == spec
  {
    match BitSize(spec.format)
    case 8 => Case16(Case8(spec).0)
    case 16 => Case16(spec)
    case _ => FormatRejected(spec)
  }

  /** Any rate other than the two the mixer accepts is replaced by 32000. */
  function ForceFrequency(freq: int): (r: int)
    ensures r == Freq32k || r == Freq48k
    ensures (freq == Freq32k || freq == Freq48k) <==> r == freq
  {
    if freq != Freq32k && freq != Freq48k then Freq32k else freq
  }

  /** `~63` clears the low six bits, which for a non-negative word is the same
      as subtracting its remainder modulo 64. */
  lemma MaskClearsLowBits(x: bv32)
    ensures x & !63 == x - x % 64
  {
  }

  /** OGC_AUDIO_SAMPLE_ALIGN, `((s) + 63) & ~63`, written in `int` arithmetic:
      the mask is replaced by subtracting the remainder modulo 64, which is what
      MaskClearsLowBits states clearing the low six bits of a 32-bit word does. */
  function AlignMacro(s: nat): (r: nat)
    ensures r % SampleAlign == 0
    ensures s <= r < s + SampleAlign
    ensures forall m: nat {:trigger m % SampleAlign} :: s <= m && m % SampleAlign == 0 ==> r <= m
  {
    (s + 63) - (s + 63) % 64
  }

  /** The macro's result stored back into the Uint16 `spec.samples`. */
  function AlignSamples(s: u16): (r: u16)
    ensures r % SampleAlign == 0
    ensures s <= 65472 ==> s <= r < s + SampleAlign
    ensures s > 65472 ==> r == 0
  {
    ToU16(AlignMacro(s))
  }

  /** The size SDL_CalculateAudioSpec derives: bytes per sample times
      channels times samples. */
  function CalculateSize(spec: AudioSpec): (r: AudioSpec)
    ensures r.(size := spec.size) == spec
    ensures BitSize(spec.format) == 16 ==> r.size == 2 * spec.channels * spec.samples
  {
    spec.(size := (BitSize(spec.format) / 8) * spec.channels * spec.samples)
  }
}
