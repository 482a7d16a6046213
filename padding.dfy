/** `PaddingSection` (src/sections/padding.rs, repeated in src/ktsl2asbin.rs):
    the body that follows the magic 0xA8DB7261 of a padding section. It is
    `section_size`, then `section_size - 8` bytes of filler, so that magic and
    body together take `section_size` bytes. The filler need not be zero. */
module Padding {
  import opened Binary

  datatype PaddingSection = PaddingSection(sectionSize: u32, padding: seq<u8>)

  /** The length `section_size` counts beyond the filler: magic and size. */
  const PADDING_FIXED: nat := 8

  predicate PaddingValid(s: PaddingSection) {
    s.sectionSize >= PADDING_FIXED && |s.padding| == s.sectionSize - PADDING_FIXED
  }

  function EncodePadding(s: PaddingSection): (bs: seq<u8>)
    ensures PaddingValid(s) ==> 4 + |bs| == s.sectionSize
  {
    U32Bytes(s.sectionSize, Little) + s.padding
  }

  /** Reads the body at `at`, just after the magic. A `section_size` below 8
      is an error, not a wrapped count. */
  function DecodePadding(data: seq<u8>, at: nat): (r: Result<Parsed<PaddingSection>>)
    ensures r.Ok? ==> PaddingValid(r.value.value) && r.value.next + 4 == at + r.value.value.sectionSize
    ensures at + 4 <= |data| && U32At(data, at, Little) < PADDING_FIXED
      ==> r == Err(SizeUnderflow(U32At(data, at, Little), PADDING_FIXED))
  {
    var size :- ReadU32(data, at, Little);
    if size.value < PADDING_FIXED then Err(SizeUnderflow(size.value, PADDING_FIXED))
    else
      var padding :- ReadBytes(data, size.next, size.value - PADDING_FIXED);
      Ok(Parsed(PaddingSection(size.value, padding.value), padding.next))
  }

  lemma PaddingRoundTrip(data: seq<u8>, at: nat, s: PaddingSection)
    requires PaddingValid(s) && Holds(data, at, EncodePadding(s))
    ensures DecodePadding(data, at) == Ok(Parsed(s, at + |EncodePadding(s)|))
  {
    HoldsSplit(data, at, U32Bytes(s.sectionSize, Little), s.padding);
    U32Cancel(data, at, s.sectionSize, Little);
    BytesCancel(data, at + 4, s.padding);
  }

  /** Decode then encode gives back exactly the bytes read, filler included. */
  lemma PaddingReencode(data: seq<u8>, at: nat)
    requires DecodePadding(data, at).Ok?
    ensures var r := DecodePadding(data, at).value;
      Holds(data, at, EncodePadding(r.value)) && r.next == at + |EncodePadding(r.value)|
  {
    var s := DecodePadding(data, at).value.value;
    U32Holds(data, at, Little);
    BytesHolds(data, at + 4, |s.padding|);
    HoldsJoin(data, at, U32Bytes(s.sectionSize, Little), s.padding);
  }
}
