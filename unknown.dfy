/** `UnknownSection` (src/sections/unknown.rs, repeated in src/ktsl2asbin.rs):
    the fallback body for the magic 0x368C88BD. It is `section_size`,
    `link_id`, then `section_size - 8` opaque bytes, so that the body after
    the magic is exactly `section_size` bytes long. */
module Unknown {
  import opened Binary

  datatype UnknownSection = UnknownSection(sectionSize: u32, linkId: u32, unknown1: seq<u8>)

  /** The length `section_size` counts beyond the opaque bytes. */
  const UNKNOWN_FIXED: nat := 8

  predicate UnknownValid(s: UnknownSection) {
    s.sectionSize >= UNKNOWN_FIXED && |s.unknown1| == s.sectionSize - UNKNOWN_FIXED
  }

  function EncodeUnknown(s: UnknownSection): (bs: seq<u8>)
    ensures UnknownValid(s) ==> |bs| == s.sectionSize
  {
    U32Bytes(s.sectionSize, Little) + U32Bytes(s.linkId, Little) + s.unknown1
  }

  /** Reads the body at `at`, just after the magic. A `section_size` below 8
      is an error, not a wrapped count. */
  function DecodeUnknown(data: seq<u8>, at: nat): (r: Result<Parsed<UnknownSection>>)
    ensures r.Ok? ==> UnknownValid(r.value.value) && r.value.next == at + r.value.value.sectionSize
    ensures at + 8 <= |data| && U32At(data, at, Little) < UNKNOWN_FIXED
      ==> r == Err(SizeUnderflow(U32At(data, at, Little), UNKNOWN_FIXED))
  {
    if at + 8 <= |data| then
      var size := U32At(data, at, Little);
      if size < UNKNOWN_FIXED then Err(SizeUnderflow(size, UNKNOWN_FIXED))
      else
        var rest :- ReadBytes(data, at + 8, size - UNKNOWN_FIXED);
        Ok(Parsed(UnknownSection(size, U32At(data, at + 4, Little), rest.value), rest.next))
    else Err(UnexpectedEof)
  }

  lemma UnknownRoundTrip(data: seq<u8>, at: nat, s: UnknownSection)
    requires UnknownValid(s) && Holds(data, at, EncodeUnknown(s))
    ensures DecodeUnknown(data, at) == Ok(Parsed(s, at + |EncodeUnknown(s)|))
  {
    var w0, w1 := U32Bytes(s.sectionSize, Little), U32Bytes(s.linkId, Little);
    HoldsSplit(data, at, w0 + w1, s.unknown1);
    HoldsSplit(data, at, w0, w1);
    U32Cancel(data, at, s.sectionSize, Little);
    U32Cancel(data, at + 4, s.linkId, Little);
    BytesCancel(data, at + 8, s.unknown1);
  }

  /** Decode then encode gives back exactly the bytes read. */
  lemma UnknownReencode(data: seq<u8>, at: nat)
    requires DecodeUnknown(data, at).Ok?
    ensures var r := DecodeUnknown(data, at).value;
      Holds(data, at, EncodeUnknown(r.value)) && r.next == at + |EncodeUnknown(r.value)|
  {
    var s := DecodeUnknown(data, at).value.value;
    var w0, w1 := U32Bytes(s.sectionSize, Little), U32Bytes(s.linkId, Little);
    U32Holds(data, at, Little);
    U32Holds(data, at + 4, Little);
    BytesHolds(data, at + 8, |s.unknown1|);
    HoldsJoin(data, at, w0, w1);
    HoldsJoin(data, at, w0 + w1, s.unknown1);
  }
}
