/** The info records of src/sections/info.rs (repeated in src/ktsl2asbin.rs):
    `InfoSection`, the body of a section with magic 0x368C88BD; the
    `InfoSubsectionHeader` and `Unk1InfoSubsection` records; and the
    `InfoSubsection` enum that picks one of two records by a leading magic.
    Every record ends in an opaque run whose length is `section_size` minus a
    fixed amount, and a `section_size` below that amount is an error. */
module Info {
  import opened Binary

  // ---------------------------------------------------------------------
  // InfoSection

  datatype InfoSection = InfoSection(
    sectionSize: u32, linkId: u32, channelCount: u16, layerCount: u16,
    padding1: u32, cancel: u32, subsectionMagic: u32, unk: seq<u8>)

  /** The fields before `unk`: 24 bytes. */
  const INFO_BODY_FIXED: nat := 24
  /** What `section_size` counts beyond `unk`: the magic and those fields. */
  const INFO_FIXED: nat := 0x1C

  predicate InfoValid(s: InfoSection) {
    s.sectionSize >= INFO_FIXED && |s.unk| == s.sectionSize - INFO_FIXED
  }

  function EncodeInfoHead(s: InfoSection): (bs: seq<u8>)
    ensures |bs| == INFO_BODY_FIXED
  {
    U32Bytes(s.sectionSize, Little) + U32Bytes(s.linkId, Little) + U16Bytes(s.channelCount, Little)
      + U16Bytes(s.layerCount, Little) + U32Bytes(s.padding1, Little) + U32Bytes(s.cancel, Little)
      + U32Bytes(s.subsectionMagic, Little)
  }

  /** The body; with the 4-byte magic before it, it takes `section_size`
      bytes. */
  function EncodeInfo(s: InfoSection): (bs: seq<u8>)
    ensures InfoValid(s) ==> 4 + |bs| == s.sectionSize
  {
    EncodeInfoHead(s) + s.unk
  }

  function DecodeInfo(data: seq<u8>, at: nat): (r: Result<Parsed<InfoSection>>)
    ensures r.Ok? ==> InfoValid(r.value.value) && r.value.next + 4 == at + r.value.value.sectionSize
    ensures at + INFO_BODY_FIXED <= |data| && U32At(data, at, Little) < INFO_FIXED
      ==> r == Err(SizeUnderflow(U32At(data, at, Little), INFO_FIXED))
  {
    if at + INFO_BODY_FIXED <= |data| then
      var size := U32At(data, at, Little);
      if size < INFO_FIXED then Err(SizeUnderflow(size, INFO_FIXED))
      else
        var unk :- ReadBytes(data, at + INFO_BODY_FIXED, size - INFO_FIXED);
        Ok(Parsed(InfoSection(size, U32At(data, at + 4, Little), U16At(data, at + 8, Little),
          U16At(data, at + 10, Little), U32At(data, at + 12, Little), U32At(data, at + 16, Little),
          U32At(data, at + 20, Little), unk.value), unk.next))
    else Err(UnexpectedEof)
  }

  /** The fixed fields of `s` in place at `at` read back as those fields. */
  predicate InfoHeadAt(data: seq<u8>, at: nat, s: InfoSection) {
    && at + INFO_BODY_FIXED <= |data|
    && U32At(data, at, Little) == s.sectionSize && U32At(data, at + 4, Little) == s.linkId
    && U16At(data, at + 8, Little) == s.channelCount && U16At(data, at + 10, Little) == s.layerCount
    && U32At(data, at + 12, Little) == s.padding1 && U32At(data, at + 16, Little) == s.cancel
    && U32At(data, at + 20, Little) == s.subsectionMagic
  }

  lemma InfoHeadCancel(data: seq<u8>, at: nat, s: InfoSection)
    requires Holds(data, at, EncodeInfoHead(s))
    ensures InfoHeadAt(data, at, s)
  {
    var w0, w1 := U32Bytes(s.sectionSize, Little), U32Bytes(s.linkId, Little);
    var h0, h1 := U16Bytes(s.channelCount, Little), U16Bytes(s.layerCount, Little);
    var w2, w3, w4 := U32Bytes(s.padding1, Little), U32Bytes(s.cancel, Little), U32Bytes(s.subsectionMagic, Little);
    HoldsSplit(data, at, w0 + w1 + h0 + h1 + w2 + w3, w4);
    HoldsSplit(data, at, w0 + w1 + h0 + h1 + w2, w3);
    HoldsSplit(data, at, w0 + w1 + h0 + h1, w2);
    HoldsSplit(data, at, w0 + w1 + h0, h1);
    HoldsSplit(data, at, w0 + w1, h0);
    HoldsSplit(data, at, w0, w1);
    U32Cancel(data, at, s.sectionSize, Little);
    U32Cancel(data, at + 4, s.linkId, Little);
    U16Cancel(data, at + 8, s.channelCount, Little);
    U16Cancel(data, at + 10, s.layerCount, Little);
    U32Cancel(data, at + 12, s.padding1, Little);
    U32Cancel(data, at + 16, s.cancel, Little);
    U32Cancel(data, at + 20, s.subsectionMagic, Little);
  }

  lemma InfoHeadHolds(data: seq<u8>, at: nat, s: InfoSection)
    requires InfoHeadAt(data, at, s)
    ensures Holds(data, at, EncodeInfoHead(s))
  {
    var w0, w1 := U32Bytes(s.sectionSize, Little), U32Bytes(s.linkId, Little);
    var h0, h1 := U16Bytes(s.channelCount, Little), U16Bytes(s.layerCount, Little);
    var w2, w3, w4 := U32Bytes(s.padding1, Little), U32Bytes(s.cancel, Little), U32Bytes(s.subsectionMagic, Little);
    U32Holds(data, at, Little);
    U32Holds(data, at + 4, Little);
    U16Holds(data, at + 8, Little);
    U16Holds(data, at + 10, Little);
    U32Holds(data, at + 12, Little);
    U32Holds(data, at + 16, Little);
    U32Holds(data, at + 20, Little);
    HoldsJoin(data, at, w0, w1);
    HoldsJoin(data, at, w0 + w1, h0);
    HoldsJoin(data, at, w0 + w1 + h0, h1);
    HoldsJoin(data, at, w0 + w1 + h0 + h1, w2);
    HoldsJoin(data, at, w0 + w1 + h0 + h1 + w2, w3);
    HoldsJoin(data, at, w0 + w1 + h0 + h1 + w2 + w3, w4);
  }

  lemma InfoRoundTrip(data: seq<u8>, at: nat, s: InfoSection)
    requires InfoValid(s) && Holds(data, at, EncodeInfo(s))
    ensures DecodeInfo(data, at) == Ok(Parsed(s, at + |EncodeInfo(s)|))
  {
    HoldsSplit(data, at, EncodeInfoHead(s), s.unk);
    InfoHeadCancel(data, at, s);
    BytesCancel(data, at + INFO_BODY_FIXED, s.unk);
  }

  /** Decode then encode gives back exactly the bytes read, `unk` included. */
  lemma InfoReencode(data: seq<u8>, at: nat)
    requires DecodeInfo(data, at).Ok?
    ensures var r := DecodeInfo(data, at).value;
      Holds(data, at, EncodeInfo(r.value)) && r.next == at + |EncodeInfo(r.value)|
  {
    var s := DecodeInfo(data, at).value.value;
    InfoHeadHolds(data, at, s);
    BytesHolds(data, at + INFO_BODY_FIXED, |s.unk|);
    HoldsJoin(data, at, EncodeInfoHead(s), s.unk);
  }

  // ---------------------------------------------------------------------
  // Unk1InfoSubsection

  datatype InfoSubsectionHeader = InfoSubsectionHeader(unk1: u32, unk2: u32)

  datatype Unk1InfoSubsection = Unk1InfoSubsection(header: InfoSubsectionHeader, sectionSize: u32, padding: seq<u8>)

  /** What `section_size` counts beyond `padding`. */
  const UNK1_FIXED: nat := 8

  predicate Unk1Valid(s: Unk1InfoSubsection) {
    s.sectionSize >= UNK1_FIXED && |s.padding| == s.sectionSize - UNK1_FIXED
  }

  function EncodeUnk1(s: Unk1InfoSubsection): (bs: seq<u8>)
    ensures Unk1Valid(s) ==> |bs| == s.sectionSize + 4
  {
    U32Bytes(s.header.unk1, Little) + U32Bytes(s.header.unk2, Little) + U32Bytes(s.sectionSize, Little) + s.padding
  }

  function DecodeUnk1(data: seq<u8>, at: nat): (r: Result<Parsed<Unk1InfoSubsection>>)
    ensures r.Ok? ==> Unk1Valid(r.value.value) && r.value.next == at + r.value.value.sectionSize + 4
    ensures at + 12 <= |data| && U32At(data, at + 8, Little) < UNK1_FIXED
      ==> r == Err(SizeUnderflow(U32At(data, at + 8, Little), UNK1_FIXED))
  {
    if at + 12 <= |data| then
      var size := U32At(data, at + 8, Little);
      if size < UNK1_FIXED then Err(SizeUnderflow(size, UNK1_FIXED))
      else
        var padding :- ReadBytes(data, at + 12, size - UNK1_FIXED);
        var header := InfoSubsectionHeader(U32At(data, at, Little), U32At(data, at + 4, Little));
        Ok(Parsed(Unk1InfoSubsection(header, size, padding.value), padding.next))
    else Err(UnexpectedEof)
  }

  lemma Unk1RoundTrip(data: seq<u8>, at: nat, s: Unk1InfoSubsection)
    requires Unk1Valid(s) && Holds(data, at, EncodeUnk1(s))
    ensures DecodeUnk1(data, at) == Ok(Parsed(s, at + |EncodeUnk1(s)|))
  {
    var w0, w1, w2 := U32Bytes(s.header.unk1, Little), U32Bytes(s.header.unk2, Little), U32Bytes(s.sectionSize, Little);
    HoldsSplit(data, at, w0 + w1 + w2, s.padding);
    HoldsSplit(data, at, w0 + w1, w2);
    HoldsSplit(data, at, w0, w1);
    U32Cancel(data, at, s.header.unk1, Little);
    U32Cancel(data, at + 4, s.header.unk2, Little);
    U32Cancel(data, at + 8, s.sectionSize, Little);
    BytesCancel(data, at + 12, s.padding);
  }

  /** Decode then encode gives back exactly the bytes read, `padding`
      included. */
  lemma Unk1Reencode(data: seq<u8>, at: nat)
    requires DecodeUnk1(data, at).Ok?
    ensures var r := DecodeUnk1(data, at).value;
      Holds(data, at, EncodeUnk1(r.value)) && r.next == at + |EncodeUnk1(r.value)|
  {
    var s := DecodeUnk1(data, at).value.value;
    var w0, w1, w2 := U32Bytes(s.header.unk1, Little), U32Bytes(s.header.unk2, Little), U32Bytes(s.sectionSize, Little);
    U32Holds(data, at, Little);
    U32Holds(data, at + 4, Little);
    U32Holds(data, at + 8, Little);
    BytesHolds(data, at + 12, |s.padding|);
    HoldsJoin(data, at, w0, w1);
    HoldsJoin(data, at, w0 + w1, w2);
    HoldsJoin(data, at, w0 + w1 + w2, s.padding);
  }

  // ---------------------------------------------------------------------
  // InfoSubsection: a magic, then the record it names

  const UNK1_MAGIC: u32 := 0x241318
  const UNK2_MAGIC: u32 := 0x14AB5

  datatype InfoSubsection = Unk1(unk1: Unk1InfoSubsection) | Unk2(unk2: InfoSection)

  /** Each variant is tried in declaration order: its magic must match and
      its record must decode; if neither does, the read fails. */
  function DecodeInfoSubsection(data: seq<u8>, at: nat): (r: Result<Parsed<InfoSubsection>>)
    ensures r.Ok? ==> at + 4 <= |data|
    ensures r.Ok? && r.value.value.Unk1? ==> U32At(data, at, Little) == UNK1_MAGIC
    ensures r.Ok? && r.value.value.Unk2? ==> U32At(data, at, Little) == UNK2_MAGIC
  {
    if at + 4 <= |data| && U32At(data, at, Little) == UNK1_MAGIC && DecodeUnk1(data, at + 4).Ok? then
      var b := DecodeUnk1(data, at + 4).value;
      Ok(Parsed(Unk1(b.value), b.next))
    else if at + 4 <= |data| && U32At(data, at, Little) == UNK2_MAGIC && DecodeInfo(data, at + 4).Ok? then
      var b := DecodeInfo(data, at + 4).value;
      Ok(Parsed(Unk2(b.value), b.next))
    else Err(NoVariantMatched(at))
  }

  /** Only the two magics decode, each to its own variant, and a record that
      does not decode under its magic fails the whole read. */
  lemma InfoSubsectionDispatch(data: seq<u8>, at: nat)
    requires at + 4 <= |data|
    ensures var m := U32At(data, at, Little);
      && (m != UNK1_MAGIC && m != UNK2_MAGIC ==> DecodeInfoSubsection(data, at) == Err(NoVariantMatched(at)))
      && (m == UNK1_MAGIC ==> (DecodeInfoSubsection(data, at).Ok? <==> DecodeUnk1(data, at + 4).Ok?))
      && (m == UNK2_MAGIC ==> (DecodeInfoSubsection(data, at).Ok? <==> DecodeInfo(data, at + 4).Ok?))
  {
  }

  lemma InfoSubsectionRoundTrip(data: seq<u8>, at: nat, s: InfoSubsection)
    requires s.Unk1? ==> Unk1Valid(s.unk1) && Holds(data, at, U32Bytes(UNK1_MAGIC, Little) + EncodeUnk1(s.unk1))
    requires s.Unk2? ==> InfoValid(s.unk2) && Holds(data, at, U32Bytes(UNK2_MAGIC, Little) + EncodeInfo(s.unk2))
    ensures DecodeInfoSubsection(data, at).Ok? && DecodeInfoSubsection(data, at).value.value == s
  {
    if s.Unk1? {
      HoldsSplit(data, at, U32Bytes(UNK1_MAGIC, Little), EncodeUnk1(s.unk1));
      U32Cancel(data, at, UNK1_MAGIC, Little);
      Unk1RoundTrip(data, at + 4, s.unk1);
    } else {
      HoldsSplit(data, at, U32Bytes(UNK2_MAGIC, Little), EncodeInfo(s.unk2));
      U32Cancel(data, at, UNK2_MAGIC, Little);
      InfoRoundTrip(data, at + 4, s.unk2);
    }
  }
}
