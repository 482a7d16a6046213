/** `KtssCompanionSection` (src/sections/sound.rs, repeated in
    src/ktsl2asbin.rs): the body after the magic 0x70CBCCC5 that describes
    one stream of a sound archive. A fixed 0x5C-byte run of fields, two of
    them opaque byte runs of 0x10 and 0xC bytes, is followed by an opaque
    trailer of `section_size - 0x60` bytes; magic, fixed run and trailer take
    exactly `section_size` bytes.

    The fixed run is written here as four consecutive blocks (0x00, 0x18,
    0x34 and 0x50 from the start of the body) to keep each proof small. */
module Sound {
  import opened Binary

  datatype KtssCompanionSection = KtssCompanionSection(
    sectionSize: u32, linkId: u32, unknown1: seq<u8>,
    headerSize: u32, subsectionMagic: u32, sectionSize2: u32, unknown2: u32,
    channelCount: u32, transitionRelated: u32, unknown3: u32,
    sampleRate: u32, sampleCount: u32, unknown4: u32, loopStart: u32, unknown5: seq<u8>,
    ktssOffset: u32, ktssSize: u32, unknown6: u32,
    unk: seq<u8>)

  const UNKNOWN1_SIZE: nat := 0x10
  const UNKNOWN5_SIZE: nat := 0xC
  /** The fixed fields after the magic. */
  const COMPANION_BODY_FIXED: nat := 0x5C
  /** What `section_size` counts beyond the trailer: the magic and the fixed
      fields. */
  const COMPANION_FIXED: nat := 0x60

  /** The two fixed-count byte runs have their counts. */
  predicate CompanionShaped(s: KtssCompanionSection) {
    |s.unknown1| == UNKNOWN1_SIZE && |s.unknown5| == UNKNOWN5_SIZE
  }

  predicate CompanionValid(s: KtssCompanionSection) {
    CompanionShaped(s) && s.sectionSize >= COMPANION_FIXED && |s.unk| == s.sectionSize - COMPANION_FIXED
  }

  function Word(x: u32): (bs: seq<u8>)
    ensures |bs| == 4
  {
    U32Bytes(x, Little)
  }

  /** Offsets 0x00 .. 0x18 of the body. */
  function CompanionBlockA(s: KtssCompanionSection): seq<u8> {
    Word(s.sectionSize) + Word(s.linkId) + s.unknown1
  }

  /** Offsets 0x18 .. 0x34. */
  function CompanionBlockB(s: KtssCompanionSection): (bs: seq<u8>)
    ensures |bs| == 0x1C
  {
    Word(s.headerSize) + Word(s.subsectionMagic) + Word(s.sectionSize2) + Word(s.unknown2)
      + Word(s.channelCount) + Word(s.transitionRelated) + Word(s.unknown3)
  }

  /** Offsets 0x34 .. 0x50. */
  function CompanionBlockC(s: KtssCompanionSection): seq<u8> {
    Word(s.sampleRate) + Word(s.sampleCount) + Word(s.unknown4) + Word(s.loopStart) + s.unknown5
  }

  /** Offsets 0x50 .. 0x5C. */
  function CompanionBlockD(s: KtssCompanionSection): (bs: seq<u8>)
    ensures |bs| == 0xC
  {
    Word(s.ktssOffset) + Word(s.ktssSize) + Word(s.unknown6)
  }

  function EncodeCompanionFixed(s: KtssCompanionSection): (bs: seq<u8>)
    ensures CompanionShaped(s) ==> |bs| == COMPANION_BODY_FIXED
  {
    CompanionBlockA(s) + CompanionBlockB(s) + CompanionBlockC(s) + CompanionBlockD(s)
  }

  function EncodeCompanion(s: KtssCompanionSection): (bs: seq<u8>)
    ensures CompanionValid(s) ==> 4 + |bs| == s.sectionSize
  {
    EncodeCompanionFixed(s) + s.unk
  }

  /** Every fixed field of `s`, read at its offset from `at`. */
  predicate CompanionFixedAt(data: seq<u8>, at: nat, s: KtssCompanionSection) {
    && at + COMPANION_BODY_FIXED <= |data|
    && U32At(data, at, Little) == s.sectionSize && U32At(data, at + 0x4, Little) == s.linkId
    && Slice(data, at + 0x8, UNKNOWN1_SIZE) == s.unknown1
    && U32At(data, at + 0x18, Little) == s.headerSize && U32At(data, at + 0x1C, Little) == s.subsectionMagic
    && U32At(data, at + 0x20, Little) == s.sectionSize2 && U32At(data, at + 0x24, Little) == s.unknown2
    && U32At(data, at + 0x28, Little) == s.channelCount && U32At(data, at + 0x2C, Little) == s.transitionRelated
    && U32At(data, at + 0x30, Little) == s.unknown3
    && U32At(data, at + 0x34, Little) == s.sampleRate && U32At(data, at + 0x38, Little) == s.sampleCount
    && U32At(data, at + 0x3C, Little) == s.unknown4 && U32At(data, at + 0x40, Little) == s.loopStart
    && Slice(data, at + 0x44, UNKNOWN5_SIZE) == s.unknown5
    && U32At(data, at + 0x50, Little) == s.ktssOffset && U32At(data, at + 0x54, Little) == s.ktssSize
    && U32At(data, at + 0x58, Little) == s.unknown6
  }

  /** The fixed fields of the body at `at`, with the trailer left empty. */
  function ReadCompanionFixed(data: seq<u8>, at: nat): (s: KtssCompanionSection)
    requires at + COMPANION_BODY_FIXED <= |data|
    ensures CompanionShaped(s) && CompanionFixedAt(data, at, s) && s.unk == []
  {
    KtssCompanionSection(
      U32At(data, at, Little), U32At(data, at + 0x4, Little), Slice(data, at + 0x8, UNKNOWN1_SIZE),
      U32At(data, at + 0x18, Little), U32At(data, at + 0x1C, Little), U32At(data, at + 0x20, Little),
      U32At(data, at + 0x24, Little), U32At(data, at + 0x28, Little), U32At(data, at + 0x2C, Little),
      U32At(data, at + 0x30, Little),
      U32At(data, at + 0x34, Little), U32At(data, at + 0x38, Little), U32At(data, at + 0x3C, Little),
      U32At(data, at + 0x40, Little), Slice(data, at + 0x44, UNKNOWN5_SIZE),
      U32At(data, at + 0x50, Little), U32At(data, at + 0x54, Little), U32At(data, at + 0x58, Little),
      [])
  }

  /** Reads the body at `at`, just after the magic. A `section_size` below
      0x60 is an error, not a wrapped count. */
  function DecodeCompanion(data: seq<u8>, at: nat): (r: Result<Parsed<KtssCompanionSection>>)
    ensures r.Ok? ==> CompanionValid(r.value.value) && r.value.next + 4 == at + r.value.value.sectionSize
    ensures r.Ok? ==> CompanionFixedAt(data, at, r.value.value)
    ensures at + COMPANION_BODY_FIXED <= |data| && U32At(data, at, Little) < COMPANION_FIXED
      ==> r == Err(SizeUnderflow(U32At(data, at, Little), COMPANION_FIXED))
  {
    if at + COMPANION_BODY_FIXED <= |data| then
      var fixed := ReadCompanionFixed(data, at);
      if fixed.sectionSize < COMPANION_FIXED then Err(SizeUnderflow(fixed.sectionSize, COMPANION_FIXED))
      else
        var unk :- ReadBytes(data, at + COMPANION_BODY_FIXED, fixed.sectionSize - COMPANION_FIXED);
        Ok(Parsed(fixed.(unk := unk.value), unk.next))
    else Err(UnexpectedEof)
  }

  lemma BlockACancel(data: seq<u8>, at: nat, s: KtssCompanionSection)
    requires CompanionShaped(s) && Holds(data, at, CompanionBlockA(s))
    ensures U32At(data, at, Little) == s.sectionSize && U32At(data, at + 0x4, Little) == s.linkId
    ensures Slice(data, at + 0x8, UNKNOWN1_SIZE) == s.unknown1
  {
    HoldsSplit(data, at, Word(s.sectionSize) + Word(s.linkId), s.unknown1);
    HoldsSplit(data, at, Word(s.sectionSize), Word(s.linkId));
    U32Cancel(data, at, s.sectionSize, Little);
    U32Cancel(data, at + 4, s.linkId, Little);
    BytesCancel(data, at + 8, s.unknown1);
  }

  lemma BlockBCancel(data: seq<u8>, at: nat, s: KtssCompanionSection)
    requires Holds(data, at, CompanionBlockB(s))
    ensures U32At(data, at, Little) == s.headerSize && U32At(data, at + 0x4, Little) == s.subsectionMagic
    ensures U32At(data, at + 0x8, Little) == s.sectionSize2 && U32At(data, at + 0xC, Little) == s.unknown2
    ensures U32At(data, at + 0x10, Little) == s.channelCount && U32At(data, at + 0x14, Little) == s.transitionRelated
    ensures U32At(data, at + 0x18, Little) == s.unknown3
  {
    var w0, w1, w2, w3 := Word(s.headerSize), Word(s.subsectionMagic), Word(s.sectionSize2), Word(s.unknown2);
    var w4, w5, w6 := Word(s.channelCount), Word(s.transitionRelated), Word(s.unknown3);
    HoldsSplit(data, at, w0 + w1 + w2 + w3 + w4 + w5, w6);
    HoldsSplit(data, at, w0 + w1 + w2 + w3 + w4, w5);
    HoldsSplit(data, at, w0 + w1 + w2 + w3, w4);
    HoldsSplit(data, at, w0 + w1 + w2, w3);
    HoldsSplit(data, at, w0 + w1, w2);
    HoldsSplit(data, at, w0, w1);
    U32Cancel(data, at, s.headerSize, Little);
    U32Cancel(data, at + 0x4, s.subsectionMagic, Little);
    U32Cancel(data, at + 0x8, s.sectionSize2, Little);
    U32Cancel(data, at + 0xC, s.unknown2, Little);
    U32Cancel(data, at + 0x10, s.channelCount, Little);
    U32Cancel(data, at + 0x14, s.transitionRelated, Little);
    U32Cancel(data, at + 0x18, s.unknown3, Little);
  }

  lemma BlockCCancel(data: seq<u8>, at: nat, s: KtssCompanionSection)
    requires CompanionShaped(s) && Holds(data, at, CompanionBlockC(s))
    ensures U32At(data, at, Little) == s.sampleRate && U32At(data, at + 0x4, Little) == s.sampleCount
    ensures U32At(data, at + 0x8, Little) == s.unknown4 && U32At(data, at + 0xC, Little) == s.loopStart
    ensures Slice(data, at + 0x10, UNKNOWN5_SIZE) == s.unknown5
  {
    var w0, w1, w2, w3 := Word(s.sampleRate), Word(s.sampleCount), Word(s.unknown4), Word(s.loopStart);
    HoldsSplit(data, at, w0 + w1 + w2 + w3, s.unknown5);
    HoldsSplit(data, at, w0 + w1 + w2, w3);
    HoldsSplit(data, at, w0 + w1, w2);
    HoldsSplit(data, at, w0, w1);
    U32Cancel(data, at, s.sampleRate, Little);
    U32Cancel(data, at + 0x4, s.sampleCount, Little);
    U32Cancel(data, at + 0x8, s.unknown4, Little);
    U32Cancel(data, at + 0xC, s.loopStart, Little);
    BytesCancel(data, at + 0x10, s.unknown5);
  }

  lemma BlockDCancel(data: seq<u8>, at: nat, s: KtssCompanionSection)
    requires Holds(data, at, CompanionBlockD(s))
    ensures U32At(data, at, Little) == s.ktssOffset && U32At(data, at + 0x4, Little) == s.ktssSize
    ensures U32At(data, at + 0x8, Little) == s.unknown6
  {
    var w0, w1, w2 := Word(s.ktssOffset), Word(s.ktssSize), Word(s.unknown6);
    HoldsSplit(data, at, w0 + w1, w2);
    HoldsSplit(data, at, w0, w1);
    U32Cancel(data, at, s.ktssOffset, Little);
    U32Cancel(data, at + 0x4, s.ktssSize, Little);
    U32Cancel(data, at + 0x8, s.unknown6, Little);
  }

  /** The fixed fields written by the encoder sit at their offsets. */
  lemma CompanionFixedCancel(data: seq<u8>, at: nat, s: KtssCompanionSection)
    requires CompanionShaped(s) && Holds(data, at, EncodeCompanionFixed(s))
    ensures CompanionFixedAt(data, at, s)
  {
    var a, b, c, d := CompanionBlockA(s), CompanionBlockB(s), CompanionBlockC(s), CompanionBlockD(s);
    HoldsSplit(data, at, a + b + c, d);
    HoldsSplit(data, at, a + b, c);
    HoldsSplit(data, at, a, b);
    BlockACancel(data, at, s);
    BlockBCancel(data, at + 0x18, s);
    BlockCCancel(data, at + 0x34, s);
    BlockDCancel(data, at + 0x50, s);
  }

  lemma BlockAHolds(data: seq<u8>, at: nat, s: KtssCompanionSection)
    requires CompanionFixedAt(data, at, s)
    ensures Holds(data, at, CompanionBlockA(s))
  {
    U32Holds(data, at, Little);
    U32Holds(data, at + 0x4, Little);
    BytesHolds(data, at + 0x8, UNKNOWN1_SIZE);
    HoldsJoin(data, at, Word(s.sectionSize), Word(s.linkId));
    HoldsJoin(data, at, Word(s.sectionSize) + Word(s.linkId), s.unknown1);
  }

  lemma BlockBHolds(data: seq<u8>, at: nat, s: KtssCompanionSection)
    requires CompanionFixedAt(data, at, s)
    ensures Holds(data, at + 0x18, CompanionBlockB(s))
  {
    var p := at + 0x18;
    var w0, w1, w2, w3 := Word(s.headerSize), Word(s.subsectionMagic), Word(s.sectionSize2), Word(s.unknown2);
    var w4, w5, w6 := Word(s.channelCount), Word(s.transitionRelated), Word(s.unknown3);
    U32Holds(data, p, Little);
    U32Holds(data, p + 0x4, Little);
    U32Holds(data, p + 0x8, Little);
    U32Holds(data, p + 0xC, Little);
    U32Holds(data, p + 0x10, Little);
    U32Holds(data, p + 0x14, Little);
    U32Holds(data, p + 0x18, Little);
    HoldsJoin(data, p, w0, w1);
    HoldsJoin(data, p, w0 + w1, w2);
    HoldsJoin(data, p, w0 + w1 + w2, w3);
    HoldsJoin(data, p, w0 + w1 + w2 + w3, w4);
    HoldsJoin(data, p, w0 + w1 + w2 + w3 + w4, w5);
    HoldsJoin(data, p, w0 + w1 + w2 + w3 + w4 + w5, w6);
  }

  lemma BlockCHolds(data: seq<u8>, at: nat, s: KtssCompanionSection)
    requires CompanionFixedAt(data, at, s)
    ensures Holds(data, at + 0x34, CompanionBlockC(s))
  {
    var p := at + 0x34;
    var w0, w1, w2, w3 := Word(s.sampleRate), Word(s.sampleCount), Word(s.unknown4), Word(s.loopStart);
    U32Holds(data, p, Little);
    U32Holds(data, p + 0x4, Little);
    U32Holds(data, p + 0x8, Little);
    U32Holds(data, p + 0xC, Little);
    BytesHolds(data, p + 0x10, UNKNOWN5_SIZE);
    HoldsJoin(data, p, w0, w1);
    HoldsJoin(data, p, w0 + w1, w2);
    HoldsJoin(data, p, w0 + w1 + w2, w3);
    HoldsJoin(data, p, w0 + w1 + w2 + w3, s.unknown5);
  }

  lemma BlockDHolds(data: seq<u8>, at: nat, s: KtssCompanionSection)
    requires CompanionFixedAt(data, at, s)
    ensures Holds(data, at + 0x50, CompanionBlockD(s))
  {
    var p := at + 0x50;
    var w0, w1, w2 := Word(s.ktssOffset), Word(s.ktssSize), Word(s.unknown6);
    U32Holds(data, p, Little);
    U32Holds(data, p + 0x4, Little);
    U32Holds(data, p + 0x8, Little);
    HoldsJoin(data, p, w0, w1);
    HoldsJoin(data, p, w0 + w1, w2);
  }

  /** The fixed fields read at their offsets are the bytes the encoder
      writes for them. */
  lemma CompanionFixedHolds(data: seq<u8>, at: nat, s: KtssCompanionSection)
    requires CompanionFixedAt(data, at, s)
    ensures CompanionShaped(s) && Holds(data, at, EncodeCompanionFixed(s))
  {
    var a, b, c, d := CompanionBlockA(s), CompanionBlockB(s), CompanionBlockC(s), CompanionBlockD(s);
    BlockAHolds(data, at, s);
    BlockBHolds(data, at, s);
    BlockCHolds(data, at, s);
    BlockDHolds(data, at, s);
    HoldsJoin(data, at, a, b);
    HoldsJoin(data, at, a + b, c);
    HoldsJoin(data, at, a + b + c, d);
  }

  lemma CompanionRoundTrip(data: seq<u8>, at: nat, s: KtssCompanionSection)
    requires CompanionValid(s) && Holds(data, at, EncodeCompanion(s))
    ensures DecodeCompanion(data, at) == Ok(Parsed(s, at + |EncodeCompanion(s)|))
  {
    HoldsSplit(data, at, EncodeCompanionFixed(s), s.unk);
    CompanionFixedCancel(data, at, s);
    BytesCancel(data, at + COMPANION_BODY_FIXED, s.unk);
    assert ReadCompanionFixed(data, at).(unk := s.unk) == s;
  }

  /** Decode then encode gives back exactly the bytes read: the opaque runs
      and the trailer are kept verbatim. */
  lemma CompanionReencode(data: seq<u8>, at: nat)
    requires DecodeCompanion(data, at).Ok?
    ensures var r := DecodeCompanion(data, at).value;
      Holds(data, at, EncodeCompanion(r.value)) && r.next == at + |EncodeCompanion(r.value)|
  {
    var s := DecodeCompanion(data, at).value.value;
    CompanionFixedHolds(data, at, s);
    BytesHolds(data, at + COMPANION_BODY_FIXED, |s.unk|);
    HoldsJoin(data, at, EncodeCompanionFixed(s), s.unk);
  }

  // ---------------------------------------------------------------------
  // The public numeric fields, by name

  datatype CompanionField =
    SectionSize | LinkId | HeaderSize | ChannelCount | SampleRate | SampleCount | LoopStart | KtssOffset | KtssSize

  /** Where each public numeric field sits in the body. */
  function FieldOffset(f: CompanionField): nat {
    match f
    case SectionSize => 0x0
    case LinkId => 0x4
    case HeaderSize => 0x18
    case ChannelCount => 0x28
    case SampleRate => 0x34
    case SampleCount => 0x38
    case LoopStart => 0x40
    case KtssOffset => 0x50
    case KtssSize => 0x54
  }

  function FieldValue(s: KtssCompanionSection, f: CompanionField): u32 {
    match f
    case SectionSize => s.sectionSize
    case LinkId => s.linkId
    case HeaderSize => s.headerSize
    case ChannelCount => s.channelCount
    case SampleRate => s.sampleRate
    case SampleCount => s.sampleCount
    case LoopStart => s.loopStart
    case KtssOffset => s.ktssOffset
    case KtssSize => s.ktssSize
  }

  function WithField(s: KtssCompanionSection, f: CompanionField, v: u32): (t: KtssCompanionSection)
    ensures FieldValue(t, f) == v
  {
    match f
    case SectionSize => s.(sectionSize := v)
    case LinkId => s.(linkId := v)
    case HeaderSize => s.(headerSize := v)
    case ChannelCount => s.(channelCount := v)
    case SampleRate => s.(sampleRate := v)
    case SampleCount => s.(sampleCount := v)
    case LoopStart => s.(loopStart := v)
    case KtssOffset => s.(ktssOffset := v)
    case KtssSize => s.(ktssSize := v)
  }

  /** Every public numeric field is written at its offset. */
  lemma CompanionFieldOffset(s: KtssCompanionSection, f: CompanionField)
    requires CompanionShaped(s)
    ensures FieldOffset(f) + 4 <= |EncodeCompanion(s)|
    ensures U32At(EncodeCompanion(s), FieldOffset(f), Little) == FieldValue(s, f)
  {
    var e := EncodeCompanion(s);
    HoldsWhole(e);
    HoldsSplit(e, 0, EncodeCompanionFixed(s), s.unk);
    CompanionFixedCancel(e, 0, s);
  }

  /** Which of the four blocks of the fixed run holds each field. */
  function FieldBlock(f: CompanionField): nat {
    match f
    case SectionSize | LinkId => 0
    case HeaderSize | ChannelCount => 1
    case SampleRate | SampleCount | LoopStart => 2
    case KtssOffset | KtssSize => 3
  }

  /** `b` has the length of `a` and the same bytes outside the four at `lo`. */
  ghost predicate AgreeOutside(a: seq<u8>, b: seq<u8>, lo: nat) {
    && |b| == |a|
    && (forall i :: 0 <= i < |a| && !(lo <= i < lo + 4) ==> b[i] == a[i])
  }

  /** The encodings of `s` and `t` have the same length and agree outside the
      four bytes at `off`. */
  ghost predicate SameOutside(s: KtssCompanionSection, t: KtssCompanionSection, off: nat) {
    AgreeOutside(EncodeCompanion(s), EncodeCompanion(t), off)
  }

  lemma AgreeWords(x: u32, y: u32)
    ensures AgreeOutside(Word(x), Word(y), 0)
  {
  }

  lemma AgreeAppend(a: seq<u8>, b: seq<u8>, q: seq<u8>, lo: nat)
    requires AgreeOutside(a, b, lo)
    ensures AgreeOutside(a + q, b + q, lo)
  {
  }

  lemma AgreePrepend(q: seq<u8>, a: seq<u8>, b: seq<u8>, lo: nat)
    requires AgreeOutside(a, b, lo)
    ensures AgreeOutside(q + a, q + b, |q| + lo)
  {
  }

  /** A change inside one block of the fixed run stays inside the same bytes
      of the whole body. */
  lemma LiftA(s: KtssCompanionSection, t: KtssCompanionSection, lo: nat)
    requires AgreeOutside(CompanionBlockA(s), CompanionBlockA(t), lo)
    requires CompanionBlockB(t) == CompanionBlockB(s) && CompanionBlockC(t) == CompanionBlockC(s)
    requires CompanionBlockD(t) == CompanionBlockD(s) && t.unk == s.unk
    ensures SameOutside(s, t, lo)
  {
    AgreeAppend(CompanionBlockA(s), CompanionBlockA(t), CompanionBlockB(s), lo);
    AgreeAppend(CompanionBlockA(s) + CompanionBlockB(s), CompanionBlockA(t) + CompanionBlockB(s), CompanionBlockC(s), lo);
    AgreeAppend(CompanionBlockA(s) + CompanionBlockB(s) + CompanionBlockC(s),
      CompanionBlockA(t) + CompanionBlockB(s) + CompanionBlockC(s), CompanionBlockD(s), lo);
    AgreeAppend(EncodeCompanionFixed(s), EncodeCompanionFixed(t), s.unk, lo);
  }

  lemma LiftB(s: KtssCompanionSection, t: KtssCompanionSection, lo: nat)
    requires |CompanionBlockA(s)| == 0x18
    requires AgreeOutside(CompanionBlockB(s), CompanionBlockB(t), lo)
    requires CompanionBlockA(t) == CompanionBlockA(s) && CompanionBlockC(t) == CompanionBlockC(s)
    requires CompanionBlockD(t) == CompanionBlockD(s) && t.unk == s.unk
    ensures SameOutside(s, t, 0x18 + lo)
  {
    AgreePrepend(CompanionBlockA(s), CompanionBlockB(s), CompanionBlockB(t), lo);
    AgreeAppend(CompanionBlockA(s) + CompanionBlockB(s), CompanionBlockA(s) + CompanionBlockB(t), CompanionBlockC(s), 0x18 + lo);
    AgreeAppend(CompanionBlockA(s) + CompanionBlockB(s) + CompanionBlockC(s),
      CompanionBlockA(s) + CompanionBlockB(t) + CompanionBlockC(s), CompanionBlockD(s), 0x18 + lo);
    AgreeAppend(EncodeCompanionFixed(s), EncodeCompanionFixed(t), s.unk, 0x18 + lo);
  }

  lemma LiftC(s: KtssCompanionSection, t: KtssCompanionSection, lo: nat)
    requires |CompanionBlockA(s)| == 0x18
    requires AgreeOutside(CompanionBlockC(s), CompanionBlockC(t), lo)
    requires CompanionBlockA(t) == CompanionBlockA(s) && CompanionBlockB(t) == CompanionBlockB(s)
    requires CompanionBlockD(t) == CompanionBlockD(s) && t.unk == s.unk
    ensures SameOutside(s, t, 0x34 + lo)
  {
    var ab := CompanionBlockA(s) + CompanionBlockB(s);
    AgreePrepend(ab, CompanionBlockC(s), CompanionBlockC(t), lo);
    AgreeAppend(ab + CompanionBlockC(s), ab + CompanionBlockC(t), CompanionBlockD(s), 0x34 + lo);
    AgreeAppend(EncodeCompanionFixed(s), EncodeCompanionFixed(t), s.unk, 0x34 + lo);
  }

  lemma LiftD(s: KtssCompanionSection, t: KtssCompanionSection, lo: nat)
    requires |CompanionBlockA(s)| == 0x18 && |CompanionBlockC(s)| == 0x1C
    requires AgreeOutside(CompanionBlockD(s), CompanionBlockD(t), lo)
    requires CompanionBlockA(t) == CompanionBlockA(s) && CompanionBlockB(t) == CompanionBlockB(s)
    requires CompanionBlockC(t) == CompanionBlockC(s) && t.unk == s.unk
    ensures SameOutside(s, t, 0x50 + lo)
  {
    var abc := CompanionBlockA(s) + CompanionBlockB(s) + CompanionBlockC(s);
    AgreePrepend(abc, CompanionBlockD(s), CompanionBlockD(t), lo);
    AgreeAppend(EncodeCompanionFixed(s), EncodeCompanionFixed(t), s.unk, 0x50 + lo);
  }

  lemma FieldLocalA(s: KtssCompanionSection, f: CompanionField, v: u32)
    requires CompanionShaped(s) && FieldBlock(f) == 0
    ensures SameOutside(s, WithField(s, f, v), FieldOffset(f))
  {
    var t := WithField(s, f, v);
    AgreeWords(FieldValue(s, f), v);
    if f == SectionSize {
      AgreeAppend(Word(s.sectionSize), Word(v), Word(s.linkId), 0);
      AgreeAppend(Word(s.sectionSize) + Word(s.linkId), Word(v) + Word(s.linkId), s.unknown1, 0);
    } else {
      AgreePrepend(Word(s.sectionSize), Word(s.linkId), Word(v), 0);
      AgreeAppend(Word(s.sectionSize) + Word(s.linkId), Word(s.sectionSize) + Word(v), s.unknown1, 4);
    }
    LiftA(s, t, FieldOffset(f));
  }

  lemma FieldLocalB(s: KtssCompanionSection, f: CompanionField, v: u32)
    requires CompanionShaped(s) && FieldBlock(f) == 1
    ensures SameOutside(s, WithField(s, f, v), FieldOffset(f))
  {
    var t := WithField(s, f, v);
    AgreeWords(FieldValue(s, f), v);
    var w1, w2, w3 := Word(s.subsectionMagic), Word(s.sectionSize2), Word(s.unknown2);
    var w5, w6 := Word(s.transitionRelated), Word(s.unknown3);
    if f == HeaderSize {
      AgreeAppend(Word(s.headerSize), Word(v), w1, 0);
      AgreeAppend(Word(s.headerSize) + w1, Word(v) + w1, w2, 0);
      AgreeAppend(Word(s.headerSize) + w1 + w2, Word(v) + w1 + w2, w3, 0);
      AgreeAppend(Word(s.headerSize) + w1 + w2 + w3, Word(v) + w1 + w2 + w3, Word(s.channelCount), 0);
      AgreeAppend(Word(s.headerSize) + w1 + w2 + w3 + Word(s.channelCount),
        Word(v) + w1 + w2 + w3 + Word(s.channelCount), w5, 0);
      AgreeAppend(Word(s.headerSize) + w1 + w2 + w3 + Word(s.channelCount) + w5,
        Word(v) + w1 + w2 + w3 + Word(s.channelCount) + w5, w6, 0);
      LiftB(s, t, 0);
    } else {
      var p := Word(s.headerSize) + w1 + w2 + w3;
      AgreePrepend(p, Word(s.channelCount), Word(v), 0);
      AgreeAppend(p + Word(s.channelCount), p + Word(v), w5, 0x10);
      AgreeAppend(p + Word(s.channelCount) + w5, p + Word(v) + w5, w6, 0x10);
      LiftB(s, t, 0x10);
    }
  }

  lemma FieldLocalC(s: KtssCompanionSection, f: CompanionField, v: u32)
    requires CompanionShaped(s) && FieldBlock(f) == 2
    ensures SameOutside(s, WithField(s, f, v), FieldOffset(f))
  {
    var t := WithField(s, f, v);
    AgreeWords(FieldValue(s, f), v);
    var w0, w1, w2, w3 := Word(s.sampleRate), Word(s.sampleCount), Word(s.unknown4), Word(s.loopStart);
    var u := s.unknown5;
    if f == SampleRate {
      AgreeAppend(w0, Word(v), w1, 0);
      AgreeAppend(w0 + w1, Word(v) + w1, w2, 0);
      AgreeAppend(w0 + w1 + w2, Word(v) + w1 + w2, w3, 0);
      AgreeAppend(w0 + w1 + w2 + w3, Word(v) + w1 + w2 + w3, u, 0);
      LiftC(s, t, 0);
    } else if f == SampleCount {
      AgreePrepend(w0, w1, Word(v), 0);
      AgreeAppend(w0 + w1, w0 + Word(v), w2, 4);
      AgreeAppend(w0 + w1 + w2, w0 + Word(v) + w2, w3, 4);
      AgreeAppend(w0 + w1 + w2 + w3, w0 + Word(v) + w2 + w3, u, 4);
      LiftC(s, t, 4);
    } else {
      AgreePrepend(w0 + w1 + w2, w3, Word(v), 0);
      AgreeAppend(w0 + w1 + w2 + w3, w0 + w1 + w2 + Word(v), u, 0xC);
      LiftC(s, t, 0xC);
    }
  }

  lemma FieldLocalD(s: KtssCompanionSection, f: CompanionField, v: u32)
    requires CompanionShaped(s) && FieldBlock(f) == 3
    ensures SameOutside(s, WithField(s, f, v), FieldOffset(f))
  {
    var t := WithField(s, f, v);
    AgreeWords(FieldValue(s, f), v);
    var w0, w1, w2 := Word(s.ktssOffset), Word(s.ktssSize), Word(s.unknown6);
    if f == KtssOffset {
      AgreeAppend(w0, Word(v), w1, 0);
      AgreeAppend(w0 + w1, Word(v) + w1, w2, 0);
      LiftD(s, t, 0);
    } else {
      AgreePrepend(w0, w1, Word(v), 0);
      AgreeAppend(w0 + w1, w0 + Word(v), w2, 4);
      LiftD(s, t, 4);
    }
  }

  /** Re-encoding after changing one public numeric field changes only the
      four bytes of that field. */
  lemma CompanionFieldLocal(s: KtssCompanionSection, f: CompanionField, v: u32)
    requires CompanionShaped(s)
    ensures var e, e2 := EncodeCompanion(s), EncodeCompanion(WithField(s, f, v));
      && |e2| == |e|
      && (forall i :: 0 <= i < |e| && !(FieldOffset(f) <= i < FieldOffset(f) + 4) ==> e2[i] == e[i])
  {
    match FieldBlock(f)
    case 0 => FieldLocalA(s, f, v);
    case 1 => FieldLocalB(s, f, v);
    case 2 => FieldLocalC(s, f, v);
    case _ => FieldLocalD(s, f, v);
  }
}
