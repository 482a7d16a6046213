/** The KTSS audio substream (`Ktss`, `LopusPacket`) and the `MusicSection`
    entry that frames it. The same two layouts are declared twice in the
    source, in src/ktsl2stbin.rs and in src/sections/music.rs; they are
    modelled once here.

    A `Ktss` is: magic and section size; a gap up to the next 0x20 boundary;
    60 bytes of fixed fields; `channel_count` bytes of channel map; a gap up
    to the next 0x10 boundary and 0x10 bytes more; `frame_count` Opus frames
    in big-endian order. The fixed fields are grouped here into three
    records (format, timing, Opus parameters) that follow each other without
    gaps and are read as one block each. */
module Music {
  import opened Align
  import opened Binary

  // ---------------------------------------------------------------------
  // Opus frames

  datatype LopusPacket = LopusPacket(size: u32, unk: u32, content: seq<u8>)

  /** A frame whose `size` is the length of its content, as every decoded
      frame is. */
  predicate PacketValid(p: LopusPacket) {
    |p.content| == p.size
  }

  function PacketSize(p: LopusPacket): nat {
    8 + |p.content|
  }

  /** Reads one frame: big-endian `size` and `unk`, then `size` bytes. */
  function DecodePacket(data: seq<u8>, pos: nat): (r: Result<Parsed<LopusPacket>>)
    ensures r.Ok? ==> PacketValid(r.value.value)
    ensures r.Ok? ==> r.value.next == pos + PacketSize(r.value.value)
  {
    var size :- ReadU32(data, pos, Big);
    var unk :- ReadU32(data, size.next, Big);
    var content :- ReadBytes(data, unk.next, size.value);
    Ok(Parsed(LopusPacket(size.value, unk.value, content.value), content.next))
  }

  function EncodePacket(p: LopusPacket): (bs: seq<u8>)
    ensures |bs| == PacketSize(p)
  {
    U32Bytes(p.size, Big) + U32Bytes(p.unk, Big) + p.content
  }

  lemma PacketRoundTrip(data: seq<u8>, at: nat, p: LopusPacket)
    requires PacketValid(p) && Holds(data, at, EncodePacket(p))
    ensures DecodePacket(data, at) == Ok(Parsed(p, at + PacketSize(p)))
  {
    HoldsSplit(data, at, U32Bytes(p.size, Big) + U32Bytes(p.unk, Big), p.content);
    HoldsSplit(data, at, U32Bytes(p.size, Big), U32Bytes(p.unk, Big));
    U32Cancel(data, at, p.size, Big);
    U32Cancel(data, at + 4, p.unk, Big);
    BytesCancel(data, at + 8, p.content);
  }

  predicate PacketsValid(ps: seq<LopusPacket>) {
    |ps| == 0 || (PacketValid(ps[0]) && PacketsValid(ps[1..]))
  }

  function PacketsSize(ps: seq<LopusPacket>): nat {
    if |ps| == 0 then 0 else PacketSize(ps[0]) + PacketsSize(ps[1..])
  }

  lemma PacketsCons(p: LopusPacket, ps: seq<LopusPacket>)
    ensures PacketsSize([p] + ps) == PacketSize(p) + PacketsSize(ps)
    ensures PacketsValid([p] + ps) <==> PacketValid(p) && PacketsValid(ps)
  {
    assert ([p] + ps)[1..] == ps;
  }

  /** Reads `count` frames one after another (`count = frame_count`). */
  function DecodePackets(data: seq<u8>, pos: nat, count: nat): (r: Result<Parsed<seq<LopusPacket>>>)
    ensures r.Ok? ==> |r.value.value| == count
    ensures r.Ok? ==> PacketsValid(r.value.value)
    ensures r.Ok? ==> r.value.next == pos + PacketsSize(r.value.value)
    decreases count, 1
  {
    if count == 0 then Ok(Parsed([], pos)) else DecodeMorePackets(data, pos, count)
  }

  function DecodeMorePackets(data: seq<u8>, pos: nat, count: nat): (r: Result<Parsed<seq<LopusPacket>>>)
    requires count > 0
    ensures r.Ok? ==> |r.value.value| == count
    ensures r.Ok? ==> PacketsValid(r.value.value)
    ensures r.Ok? ==> r.value.next == pos + PacketsSize(r.value.value)
    decreases count, 0
  {
    var p :- DecodePacket(data, pos);
    var ps :- DecodePackets(data, p.next, count - 1);
    PacketsCons(p.value, ps.value);
    Ok(Parsed([p.value] + ps.value, ps.next))
  }

  function EncodePackets(ps: seq<LopusPacket>): (bs: seq<u8>)
    ensures |bs| == PacketsSize(ps)
  {
    if |ps| == 0 then [] else EncodePacket(ps[0]) + EncodePackets(ps[1..])
  }

  lemma {:induction false} PacketsRoundTrip(data: seq<u8>, at: nat, ps: seq<LopusPacket>)
    requires PacketsValid(ps) && Holds(data, at, EncodePackets(ps))
    ensures DecodePackets(data, at, |ps|) == Ok(Parsed(ps, at + PacketsSize(ps)))
    decreases ps, 1
  {
    if |ps| == 0 {
      assert ps == [];
    } else {
      HoldsSplit(data, at, EncodePacket(ps[0]), EncodePackets(ps[1..]));
      PacketRoundTrip(data, at, ps[0]);
      PacketsRoundTripCons(data, at, ps, at + PacketSize(ps[0]));
    }
  }

  lemma {:induction false} PacketsRoundTripCons(data: seq<u8>, at: nat, ps: seq<LopusPacket>, mid: nat)
    requires |ps| > 0 && PacketsValid(ps[1..]) && Holds(data, mid, EncodePackets(ps[1..]))
    requires DecodePacket(data, at) == Ok(Parsed(ps[0], mid))
    ensures DecodePackets(data, at, |ps|) == Ok(Parsed(ps, mid + PacketsSize(ps[1..])))
    decreases ps, 0
  {
    PacketsRoundTrip(data, mid, ps[1..]);
    assert [ps[0]] + ps[1..] == ps;
  }

  // ---------------------------------------------------------------------
  // The fixed fields, in three gap-free groups

  /** `codec` .. `unk4`: 12 bytes. */
  datatype KtssFormat = KtssFormat(
    codec: u8, unk1: u8, unk2: u8, unk3: u8, codecStartOffset: u32,
    layerCount: u8, channelCount: u8, unk4: u16)

  /** `sample_rate` .. `frame_count`: nine words, 36 bytes. */
  datatype KtssTiming = KtssTiming(
    sampleRate: u32, sampleCount: u32, loopStart: u32, loopLength: u32,
    padding: u32, audioSectionAddr: u32, audioSectionSize: u32, unk5: u32,
    frameCount: u32)

  /** `frame_size` .. `coupled_count`: 12 bytes. */
  datatype KtssOpus = KtssOpus(
    frameSize: u16, someConstant: u16, origSampleRate: u32, skip: u16,
    streamCount: u8, coupledCount: u8)

  const FORMAT_SIZE: nat := 12
  const TIMING_SIZE: nat := 36
  const OPUS_SIZE: nat := 12
  /** The fixed fields together, from `codec` to `coupled_count`. */
  const FIXED_SIZE: nat := FORMAT_SIZE + TIMING_SIZE + OPUS_SIZE

  function EncodeFormat(f: KtssFormat): (bs: seq<u8>)
    ensures |bs| == FORMAT_SIZE
  {
    [f.codec] + [f.unk1] + [f.unk2] + [f.unk3] + U32Bytes(f.codecStartOffset, Little)
      + [f.layerCount] + [f.channelCount] + U16Bytes(f.unk4, Little)
  }

  function DecodeFormat(data: seq<u8>, p: nat): (r: Result<KtssFormat>)
    ensures r.Ok? <==> p + FORMAT_SIZE <= |data|
  {
    if p + FORMAT_SIZE <= |data| then
      Ok(KtssFormat(data[p], data[p + 1], data[p + 2], data[p + 3], U32At(data, p + 4, Little),
        data[p + 8], data[p + 9], U16At(data, p + 10, Little)))
    else Err(UnexpectedEof)
  }

  lemma FormatRoundTrip(data: seq<u8>, p: nat, f: KtssFormat)
    requires Holds(data, p, EncodeFormat(f))
    ensures DecodeFormat(data, p) == Ok(f)
  {
    var a1 := [f.codec] + [f.unk1];
    var a2 := a1 + [f.unk2] + [f.unk3];
    var a3 := a2 + U32Bytes(f.codecStartOffset, Little);
    var a4 := a3 + [f.layerCount] + [f.channelCount];
    HoldsSplit(data, p, a4, U16Bytes(f.unk4, Little));
    HoldsSplit(data, p, a3 + [f.layerCount], [f.channelCount]);
    HoldsSplit(data, p, a3, [f.layerCount]);
    HoldsSplit(data, p, a2, U32Bytes(f.codecStartOffset, Little));
    HoldsSplit(data, p, a1 + [f.unk2], [f.unk3]);
    HoldsSplit(data, p, a1, [f.unk2]);
    HoldsSplit(data, p, [f.codec], [f.unk1]);
    U8Cancel(data, p, f.codec);
    U8Cancel(data, p + 1, f.unk1);
    U8Cancel(data, p + 2, f.unk2);
    U8Cancel(data, p + 3, f.unk3);
    U32Cancel(data, p + 4, f.codecStartOffset, Little);
    U8Cancel(data, p + 8, f.layerCount);
    U8Cancel(data, p + 9, f.channelCount);
    U16Cancel(data, p + 10, f.unk4, Little);
  }

  function EncodeTiming(t: KtssTiming): (bs: seq<u8>)
    ensures |bs| == TIMING_SIZE
  {
    U32Bytes(t.sampleRate, Little) + U32Bytes(t.sampleCount, Little) + U32Bytes(t.loopStart, Little)
      + U32Bytes(t.loopLength, Little) + U32Bytes(t.padding, Little) + U32Bytes(t.audioSectionAddr, Little)
      + U32Bytes(t.audioSectionSize, Little) + U32Bytes(t.unk5, Little) + U32Bytes(t.frameCount, Little)
  }

  function DecodeTiming(data: seq<u8>, p: nat): (r: Result<KtssTiming>)
    ensures r.Ok? <==> p + TIMING_SIZE <= |data|
  {
    if p + TIMING_SIZE <= |data| then
      Ok(KtssTiming(U32At(data, p, Little), U32At(data, p + 4, Little), U32At(data, p + 8, Little),
        U32At(data, p + 12, Little), U32At(data, p + 16, Little), U32At(data, p + 20, Little),
        U32At(data, p + 24, Little), U32At(data, p + 28, Little), U32At(data, p + 32, Little)))
    else Err(UnexpectedEof)
  }

  lemma TimingRoundTrip(data: seq<u8>, p: nat, t: KtssTiming)
    requires Holds(data, p, EncodeTiming(t))
    ensures DecodeTiming(data, p) == Ok(t)
  {
    var w0, w1, w2 := U32Bytes(t.sampleRate, Little), U32Bytes(t.sampleCount, Little), U32Bytes(t.loopStart, Little);
    var w3, w4, w5 := U32Bytes(t.loopLength, Little), U32Bytes(t.padding, Little), U32Bytes(t.audioSectionAddr, Little);
    var w6, w7, w8 := U32Bytes(t.audioSectionSize, Little), U32Bytes(t.unk5, Little), U32Bytes(t.frameCount, Little);
    HoldsSplit(data, p, w0 + w1 + w2 + w3 + w4 + w5 + w6 + w7, w8);
    HoldsSplit(data, p, w0 + w1 + w2 + w3 + w4 + w5 + w6, w7);
    HoldsSplit(data, p, w0 + w1 + w2 + w3 + w4 + w5, w6);
    HoldsSplit(data, p, w0 + w1 + w2 + w3 + w4, w5);
    HoldsSplit(data, p, w0 + w1 + w2 + w3, w4);
    HoldsSplit(data, p, w0 + w1 + w2, w3);
    HoldsSplit(data, p, w0 + w1, w2);
    HoldsSplit(data, p, w0, w1);
    U32Cancel(data, p, t.sampleRate, Little);
    U32Cancel(data, p + 4, t.sampleCount, Little);
    U32Cancel(data, p + 8, t.loopStart, Little);
    U32Cancel(data, p + 12, t.loopLength, Little);
    U32Cancel(data, p + 16, t.padding, Little);
    U32Cancel(data, p + 20, t.audioSectionAddr, Little);
    U32Cancel(data, p + 24, t.audioSectionSize, Little);
    U32Cancel(data, p + 28, t.unk5, Little);
    U32Cancel(data, p + 32, t.frameCount, Little);
  }

  function EncodeOpus(o: KtssOpus): (bs: seq<u8>)
    ensures |bs| == OPUS_SIZE
  {
    U16Bytes(o.frameSize, Little) + U16Bytes(o.someConstant, Little) + U32Bytes(o.origSampleRate, Little)
      + U16Bytes(o.skip, Little) + [o.streamCount] + [o.coupledCount]
  }

  function DecodeOpus(data: seq<u8>, p: nat): (r: Result<KtssOpus>)
    ensures r.Ok? <==> p + OPUS_SIZE <= |data|
  {
    if p + OPUS_SIZE <= |data| then
      Ok(KtssOpus(U16At(data, p, Little), U16At(data, p + 2, Little), U32At(data, p + 4, Little),
        U16At(data, p + 8, Little), data[p + 10], data[p + 11]))
    else Err(UnexpectedEof)
  }

  lemma OpusRoundTrip(data: seq<u8>, p: nat, o: KtssOpus)
    requires Holds(data, p, EncodeOpus(o))
    ensures DecodeOpus(data, p) == Ok(o)
  {
    var a1 := U16Bytes(o.frameSize, Little) + U16Bytes(o.someConstant, Little);
    var a2 := a1 + U32Bytes(o.origSampleRate, Little);
    var a3 := a2 + U16Bytes(o.skip, Little);
    HoldsSplit(data, p, a3 + [o.streamCount], [o.coupledCount]);
    HoldsSplit(data, p, a3, [o.streamCount]);
    HoldsSplit(data, p, a2, U16Bytes(o.skip, Little));
    HoldsSplit(data, p, a1, U32Bytes(o.origSampleRate, Little));
    HoldsSplit(data, p, U16Bytes(o.frameSize, Little), U16Bytes(o.someConstant, Little));
    U16Cancel(data, p, o.frameSize, Little);
    U16Cancel(data, p + 2, o.someConstant, Little);
    U32Cancel(data, p + 4, o.origSampleRate, Little);
    U16Cancel(data, p + 8, o.skip, Little);
    U8Cancel(data, p + 10, o.streamCount);
    U8Cancel(data, p + 11, o.coupledCount);
  }

  // ---------------------------------------------------------------------
  // The whole substream

  datatype Ktss = Ktss(
    magic: u32, sectionSize: u32,
    format: KtssFormat, timing: KtssTiming, opus: KtssOpus,
    channelMapping: seq<u8>, audio: seq<LopusPacket>)

  /** What every decoded `Ktss` satisfies, and what encoding needs for the
      counts it does not write to agree with the vectors it does write. */
  predicate KtssValid(k: Ktss) {
    && |k.channelMapping| == k.format.channelCount
    && |k.audio| == k.timing.frameCount
    && PacketsValid(k.audio)
  }

  /** Where `codec` is read: the 0x20 boundary at or after `section_size`. */
  function KtssFixedStart(at: nat): (p0: nat)
    ensures p0 % 0x20 == 0 && at + 8 <= p0 < at + 8 + 0x20
  {
    RoundUp(at + 8, 0x20)
  }

  /** Where the frames start, given where the channel map ends: the map is
      followed by alignment to 0x10 and 0x10 bytes more. */
  function KtssAudioStart(mapEnd: nat): (q: nat)
    ensures q % 0x10 == 0 && mapEnd + 0x10 <= q < mapEnd + 0x20
  {
    RoundUp(mapEnd, 0x10) + 0x10
  }

  function KtssMapEnd(k: Ktss, at: nat): nat {
    KtssFixedStart(at) + FIXED_SIZE + |k.channelMapping|
  }

  /** The absolute position just after a `Ktss` written at `at`. */
  function KtssEnd(k: Ktss, at: nat): nat {
    KtssEndFrom(k, KtssFixedStart(at))
  }

  /** The same, from where its fixed fields start. */
  function KtssEndFrom(k: Ktss, p0: nat): nat {
    KtssAudioStart(p0 + FIXED_SIZE + |k.channelMapping|) + PacketsSize(k.audio)
  }

  function EncodeFixed(k: Ktss): (bs: seq<u8>)
    ensures |bs| == FIXED_SIZE
  {
    EncodeFormat(k.format) + EncodeTiming(k.timing) + EncodeOpus(k.opus)
  }

  /** Magic, section size and the zero fill up to the fixed fields. */
  function EncodeKtssHead(k: Ktss, at: nat): (bs: seq<u8>)
    ensures at + |bs| == KtssFixedStart(at)
  {
    U32Bytes(k.magic, Little) + U32Bytes(k.sectionSize, Little) + Pad(at + 8, 0x20)
  }

  /** The channel map, then the zero fill to the next 0x10 boundary and 0x10
      zero bytes more. */
  function EncodeMap(m: seq<u8>, p: nat): (bs: seq<u8>)
    ensures p + |bs| == KtssAudioStart(p + |m|)
  {
    m + Pad(p + |m|, 0x10) + Zeros(0x10)
  }

  function EncodeKtss(k: Ktss, at: nat): (bs: seq<u8>)
    ensures at + |bs| == KtssEnd(k, at)
  {
    EncodeKtssHead(k, at) + EncodeFixed(k) + EncodeMap(k.channelMapping, KtssFixedStart(at) + FIXED_SIZE)
      + EncodePackets(k.audio)
  }

  function DecodeKtss(data: seq<u8>, at: nat): (r: Result<Parsed<Ktss>>)
    ensures r.Ok? ==> KtssValid(r.value.value)
    ensures r.Ok? ==> r.value.next == KtssEnd(r.value.value, at)
  {
    if at + 8 <= |data| then
      DecodeKtssFixed(data, U32At(data, at, Little), U32At(data, at + 4, Little), KtssFixedStart(at))
    else Err(UnexpectedEof)
  }

  /** The fixed fields at `p0`, then the two vectors. */
  function DecodeKtssFixed(data: seq<u8>, magic: u32, sectionSize: u32, p0: nat): (r: Result<Parsed<Ktss>>)
    ensures r.Ok? ==> KtssValid(r.value.value)
    ensures r.Ok? ==> r.value.value.magic == magic && r.value.value.sectionSize == sectionSize
    ensures r.Ok? ==>
      r.value.next == KtssEndFrom(r.value.value, p0)
  {
    var f :- DecodeFormat(data, p0);
    var t :- DecodeTiming(data, p0 + FORMAT_SIZE);
    var o :- DecodeOpus(data, p0 + FORMAT_SIZE + TIMING_SIZE);
    DecodeKtssVectors(data, Ktss(magic, sectionSize, f, t, o, [], []), p0 + FIXED_SIZE)
  }

  /** The channel map at `p` and the frames after it, as many as the fixed
      fields already read in `k` say. */
  function DecodeKtssVectors(data: seq<u8>, k: Ktss, p: nat): (r: Result<Parsed<Ktss>>)
    ensures r.Ok? ==> KtssValid(r.value.value)
    ensures r.Ok? ==> r.value.value == k.(channelMapping := r.value.value.channelMapping, audio := r.value.value.audio)
    ensures r.Ok? ==> r.value.next == KtssAudioStart(p + |r.value.value.channelMapping|) + PacketsSize(r.value.value.audio)
  {
    var m :- ReadBytes(data, p, k.format.channelCount);
    var audio :- DecodePackets(data, KtssAudioStart(m.next), k.timing.frameCount);
    Ok(Parsed(k.(channelMapping := m.value, audio := audio.value), audio.next))
  }

  lemma KtssVectorsRoundTrip(data: seq<u8>, k: Ktss, p: nat)
    requires KtssValid(k)
    requires Holds(data, p, k.channelMapping)
    requires Holds(data, KtssAudioStart(p + |k.channelMapping|), EncodePackets(k.audio))
    ensures DecodeKtssVectors(data, k.(channelMapping := [], audio := []), p)
      == Ok(Parsed(k, KtssAudioStart(p + |k.channelMapping|) + PacketsSize(k.audio)))
  {
    BytesCancel(data, p, k.channelMapping);
    PacketsRoundTrip(data, KtssAudioStart(p + |k.channelMapping|), k.audio);
  }

  lemma KtssFixedRoundTrip(data: seq<u8>, k: Ktss, p0: nat)
    requires KtssValid(k)
    requires Holds(data, p0, EncodeFixed(k))
    requires Holds(data, p0 + FIXED_SIZE, k.channelMapping)
    requires Holds(data, KtssAudioStart(p0 + FIXED_SIZE + |k.channelMapping|), EncodePackets(k.audio))
    ensures DecodeKtssFixed(data, k.magic, k.sectionSize, p0)
      == Ok(Parsed(k, KtssEndFrom(k, p0)))
  {
    FixedGroupsRoundTrip(data, k, p0);
    assert Ktss(k.magic, k.sectionSize, k.format, k.timing, k.opus, [], []) == k.(channelMapping := [], audio := []);
    KtssVectorsRoundTrip(data, k, p0 + FIXED_SIZE);
  }

  /** The three groups of fixed fields each read back from their bytes. */
  lemma FixedGroupsRoundTrip(data: seq<u8>, k: Ktss, p0: nat)
    requires Holds(data, p0, EncodeFixed(k))
    ensures DecodeFormat(data, p0) == Ok(k.format)
    ensures DecodeTiming(data, p0 + FORMAT_SIZE) == Ok(k.timing)
    ensures DecodeOpus(data, p0 + FORMAT_SIZE + TIMING_SIZE) == Ok(k.opus)
  {
    HoldsSplit(data, p0, EncodeFormat(k.format) + EncodeTiming(k.timing), EncodeOpus(k.opus));
    HoldsSplit(data, p0, EncodeFormat(k.format), EncodeTiming(k.timing));
    FormatRoundTrip(data, p0, k.format);
    TimingRoundTrip(data, p0 + FORMAT_SIZE, k.timing);
    OpusRoundTrip(data, p0 + FORMAT_SIZE + TIMING_SIZE, k.opus);
  }

  /** Decoding needs only the fields in place: whatever the gaps hold, they
      are skipped. */
  lemma KtssDecodeFromFields(data: seq<u8>, at: nat, k: Ktss)
    requires KtssValid(k)
    requires Holds(data, at, U32Bytes(k.magic, Little) + U32Bytes(k.sectionSize, Little))
    requires Holds(data, KtssFixedStart(at), EncodeFixed(k))
    requires Holds(data, KtssFixedStart(at) + FIXED_SIZE, k.channelMapping)
    requires Holds(data, KtssAudioStart(KtssMapEnd(k, at)), EncodePackets(k.audio))
    ensures DecodeKtss(data, at) == Ok(Parsed(k, KtssEnd(k, at)))
  {
    HoldsSplit(data, at, U32Bytes(k.magic, Little), U32Bytes(k.sectionSize, Little));
    U32Cancel(data, at, k.magic, Little);
    U32Cancel(data, at + 4, k.sectionSize, Little);
    KtssFixedRoundTrip(data, k, KtssFixedStart(at));
  }

  /** Encode then decode is the identity on every valid `Ktss`, wherever it
      is written. */
  lemma KtssRoundTrip(data: seq<u8>, at: nat, k: Ktss)
    requires KtssValid(k) && Holds(data, at, EncodeKtss(k, at))
    ensures DecodeKtss(data, at) == Ok(Parsed(k, KtssEnd(k, at)))
  {
    KtssPartsHold(data, at, k);
    KtssDecodeFromFields(data, at, k);
  }

  /** The bytes of an encoded `Ktss` hold each field group, the map and the
      frames where the reader looks for them. */
  lemma KtssPartsHold(data: seq<u8>, at: nat, k: Ktss)
    requires Holds(data, at, EncodeKtss(k, at))
    ensures Holds(data, at, U32Bytes(k.magic, Little) + U32Bytes(k.sectionSize, Little))
    ensures Holds(data, KtssFixedStart(at), EncodeFixed(k))
    ensures Holds(data, KtssFixedStart(at) + FIXED_SIZE, k.channelMapping)
    ensures Holds(data, KtssAudioStart(KtssMapEnd(k, at)), EncodePackets(k.audio))
  {
    var head := EncodeKtssHead(k, at);
    var mapPart := EncodeMap(k.channelMapping, KtssFixedStart(at) + FIXED_SIZE);
    HoldsSplit(data, at, head + EncodeFixed(k) + mapPart, EncodePackets(k.audio));
    HoldsSplit(data, at, head + EncodeFixed(k), mapPart);
    HoldsSplit(data, at, head, EncodeFixed(k));
    HeadHoldsFields(data, at, k);
    MapHoldsMap(data, KtssFixedStart(at) + FIXED_SIZE, k.channelMapping);
  }

  lemma HeadHoldsFields(data: seq<u8>, at: nat, k: Ktss)
    requires Holds(data, at, EncodeKtssHead(k, at))
    ensures Holds(data, at, U32Bytes(k.magic, Little) + U32Bytes(k.sectionSize, Little))
  {
    HoldsSplit(data, at, U32Bytes(k.magic, Little) + U32Bytes(k.sectionSize, Little), Pad(at + 8, 0x20));
  }

  lemma MapHoldsMap(data: seq<u8>, p: nat, m: seq<u8>)
    requires Holds(data, p, EncodeMap(m, p))
    ensures Holds(data, p, m)
  {
    HoldsSplit(data, p, m + Pad(p + |m|, 0x10), Zeros(0x10));
    HoldsSplit(data, p, m, Pad(p + |m|, 0x10));
  }

  /** Written at a 0x20 boundary, the `section_size` word is followed by zero
      fill up to offset 0x20, where `codec` sits; the fixed fields end at
      0x5C. */
  lemma KtssLayout(k: Ktss, at: nat)
    requires at % 0x20 == 0
    ensures KtssFixedStart(at) == at + 0x20
    ensures KtssFixedStart(at) + FIXED_SIZE == at + 0x5C
    ensures var bs := EncodeKtss(k, at);
      && bs[0x20] == k.format.codec
      && (forall i :: 8 <= i < 0x20 ==> bs[i] == 0)
  {
    KtssHeadLayout(k, at);
    var head := EncodeKtssHead(k, at);
    var rest := EncodeFixed(k) + EncodeMap(k.channelMapping, at + 0x5C) + EncodePackets(k.audio);
    assert EncodeKtss(k, at) == head + rest;
    assert rest[0] == EncodeFormat(k.format)[0];
  }

  lemma KtssHeadLayout(k: Ktss, at: nat)
    requires at % 0x20 == 0
    ensures KtssFixedStart(at) == at + 0x20
    ensures var head := EncodeKtssHead(k, at); |head| == 0x20 && forall i :: 8 <= i < 0x20 ==> head[i] == 0
  {
    PadLenShift(at, 8, 0x20, 0x20);
    var head := EncodeKtssHead(k, at);
    forall i | 8 <= i < 0x20 ensures head[i] == 0 {
      assert head[i] == Pad(at + 8, 0x20)[i - 8];
    }
  }

  /** Under a decode at a 0x20 boundary, `codec` is the byte at offset 0x20,
      whatever the bytes between `section_size` and it hold. */
  lemma KtssCodecAt(data: seq<u8>, at: nat)
    requires at % 0x20 == 0 && DecodeKtss(data, at).Ok?
    ensures at + 0x20 < |data| && DecodeKtss(data, at).value.value.format.codec == data[at + 0x20]
  {
    PadLenShift(at, 8, 0x20, 0x20);
    var p0 := KtssFixedStart(at);
    assert DecodeFormat(data, p0).Ok?;
  }

  /** The bytes of a `Ktss` do not depend on where it is written, as long as
      that is a 0x20 boundary: a file read from offset 0 can be placed at any
      such boundary of a container and reads back the same. */
  lemma KtssRelocate(k: Ktss, at: nat)
    requires at % 0x20 == 0
    ensures EncodeKtss(k, at) == EncodeKtss(k, 0)
  {
    PadLenShift(at, 8, 0x20, 0x20);
    PadLenShift(at, 0x5C + |k.channelMapping|, 0x10, 0x20);
    assert EncodeKtssHead(k, at) == EncodeKtssHead(k, 0);
    assert EncodeMap(k.channelMapping, at + 0x5C) == EncodeMap(k.channelMapping, 0x5C);
  }

  /** `Ktss::default()`: every number zero, both vectors empty. */
  const DEFAULT_KTSS: Ktss := Ktss(0, 0, KtssFormat(0, 0, 0, 0, 0, 0, 0, 0),
    KtssTiming(0, 0, 0, 0, 0, 0, 0, 0, 0), KtssOpus(0, 0, 0, 0, 0, 0), [], [])

  // ---------------------------------------------------------------------
  // A `Ktss` framed on 0x40 boundaries, as every entry holds it

  /** Where the `Ktss` of an entry starts, given where the entry's header
      words end. */
  function FrameStart(at: nat): (p: nat)
    ensures p % 0x40 == 0 && at <= p < at + 0x40
  {
    RoundUp(at, 0x40)
  }

  function FrameEnd(k: Ktss, at: nat): (e: nat)
    ensures e % 0x40 == 0 && KtssEnd(k, FrameStart(at)) <= e
  {
    RoundUp(KtssEnd(k, FrameStart(at)), 0x40)
  }

  /** Zero fill to a 0x40 boundary, the `Ktss`, zero fill to a 0x40 boundary. */
  function EncodeFramed(k: Ktss, at: nat): (bs: seq<u8>)
    ensures at + |bs| == FrameEnd(k, at)
  {
    Pad(at, 0x40) + EncodeKtss(k, FrameStart(at)) + Pad(KtssEnd(k, FrameStart(at)), 0x40)
  }

  function DecodeFramed(data: seq<u8>, at: nat): (r: Result<Parsed<Ktss>>)
    ensures r.Ok? ==> KtssValid(r.value.value) && r.value.next == FrameEnd(r.value.value, at)
  {
    var k :- DecodeKtss(data, FrameStart(at));
    Ok(Parsed(k.value, RoundUp(k.next, 0x40)))
  }

  lemma FramedRoundTrip(data: seq<u8>, at: nat, k: Ktss)
    requires KtssValid(k) && Holds(data, at, EncodeFramed(k, at))
    ensures DecodeFramed(data, at) == Ok(Parsed(k, FrameEnd(k, at)))
  {
    var body := EncodeKtss(k, FrameStart(at));
    HoldsSplit(data, at, Pad(at, 0x40) + body, Pad(KtssEnd(k, FrameStart(at)), 0x40));
    HoldsSplit(data, at, Pad(at, 0x40), body);
    KtssRoundTrip(data, FrameStart(at), k);
  }

  /** The `Ktss` of an entry that starts on a 0x40 boundary begins 0x40
      bytes in, and the entry's length is a multiple of 0x40. */
  lemma FramedLayout(k: Ktss, start: nat, words: nat)
    requires start % 0x40 == 0 && words <= 0x40
    ensures FrameStart(start + words) == start + 0x40 || (words == 0 && FrameStart(start) == start)
    ensures (FrameEnd(k, start + words) - start) % 0x40 == 0
  {
    if words > 0 {
      PadLenShift(start, words, 0x40, 0x40);
    }
    var e := FrameEnd(k, start + words);
    ShiftByMultiple(e - start, start / 0x40, 0x40);
    DivMod(start, 0x40);
  }

  // ---------------------------------------------------------------------
  // `MusicSection`: four words, then the framed `Ktss`

  const KTSL_HEADER_SIZE: u32 := 0x40

  datatype MusicSection = MusicSection(sectionSize: u32, linkId: u32, headerSize: u32, ktssSize: u32, ktss: Ktss)

  /** `MusicSection::new()`. */
  function NewMusicSection(): (s: MusicSection)
    ensures s.headerSize == KTSL_HEADER_SIZE
    ensures s.sectionSize == 0 && s.linkId == 0 && s.ktssSize == 0
    ensures s.ktss == DEFAULT_KTSS && KtssValid(s.ktss)
  {
    MusicSection(0, 0, KTSL_HEADER_SIZE, 0, DEFAULT_KTSS)
  }

  function MusicSectionEnd(s: MusicSection, at: nat): nat {
    FrameEnd(s.ktss, at + 16)
  }

  function EncodeMusicSection(s: MusicSection, at: nat): (bs: seq<u8>)
    ensures at + |bs| == MusicSectionEnd(s, at)
  {
    U32Bytes(s.sectionSize, Little) + U32Bytes(s.linkId, Little) + U32Bytes(s.headerSize, Little)
      + U32Bytes(s.ktssSize, Little) + EncodeFramed(s.ktss, at + 16)
  }

  function DecodeMusicSection(data: seq<u8>, at: nat): (r: Result<Parsed<MusicSection>>)
    ensures r.Ok? ==> KtssValid(r.value.value.ktss) && r.value.next == MusicSectionEnd(r.value.value, at)
  {
    if at + 16 <= |data| then
      var k :- DecodeFramed(data, at + 16);
      Ok(Parsed(MusicSection(U32At(data, at, Little), U32At(data, at + 4, Little), U32At(data, at + 8, Little),
        U32At(data, at + 12, Little), k.value), k.next))
    else Err(UnexpectedEof)
  }

  lemma MusicSectionRoundTrip(data: seq<u8>, at: nat, s: MusicSection)
    requires KtssValid(s.ktss) && Holds(data, at, EncodeMusicSection(s, at))
    ensures DecodeMusicSection(data, at) == Ok(Parsed(s, MusicSectionEnd(s, at)))
  {
    MusicHeadCancel(data, at, s);
    FramedRoundTrip(data, at + 16, s.ktss);
  }

  /** The four words before the frame read back, and the frame is held
      after them. */
  lemma MusicHeadCancel(data: seq<u8>, at: nat, s: MusicSection)
    requires Holds(data, at, EncodeMusicSection(s, at))
    ensures at + 16 <= |data|
    ensures U32At(data, at, Little) == s.sectionSize && U32At(data, at + 4, Little) == s.linkId
    ensures U32At(data, at + 8, Little) == s.headerSize && U32At(data, at + 12, Little) == s.ktssSize
    ensures Holds(data, at + 16, EncodeFramed(s.ktss, at + 16))
  {
    var w0, w1 := U32Bytes(s.sectionSize, Little), U32Bytes(s.linkId, Little);
    var w2, w3 := U32Bytes(s.headerSize, Little), U32Bytes(s.ktssSize, Little);
    HoldsSplit(data, at, w0 + w1 + w2 + w3, EncodeFramed(s.ktss, at + 16));
    HoldsSplit(data, at, w0 + w1 + w2, w3);
    HoldsSplit(data, at, w0 + w1, w2);
    HoldsSplit(data, at, w0, w1);
    U32Cancel(data, at, s.sectionSize, Little);
    U32Cancel(data, at + 4, s.linkId, Little);
    U32Cancel(data, at + 8, s.headerSize, Little);
    U32Cancel(data, at + 12, s.ktssSize, Little);
  }

  /** A `MusicSection` at a 0x40 boundary: its `Ktss` starts 0x40 bytes in,
      and its whole length is a multiple of 0x40. */
  lemma MusicSectionLayout(s: MusicSection, at: nat)
    requires at % 0x40 == 0
    ensures FrameStart(at + 16) == at + 0x40
    ensures |EncodeMusicSection(s, at)| % 0x40 == 0
  {
    FramedLayout(s.ktss, at, 16);
    assert (MusicSectionEnd(s, at) - at) % 0x40 == 0;
  }
}
