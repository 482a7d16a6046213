# KTSR / KTSL sound containers

A Dafny model of the container formats that `ktsl_tool` reads and writes.
These are the Koei Tecmo sound resources `.ktsl2stbin` (the stream table)
and `.ktsl2asbin` (the sound bank). Both share a 0x40-byte `KTSR` header.
Records follow from offset 0x40, and a reader takes records until the stream
position, cast to `u32`, equals the header's `decomp_size`.

What is modelled:

- **Alignment** (`Align`). `roundUp(p, n)` and the pad length behind
  `align_before`, `align_after` and `pad_after`. The model aligns on
  absolute positions, counted from the start of the container, on read and
  on write alike; for the write this is an assumption (see "## Left out").
- **Byte codecs** (`Binary`).
  - Little- and big-endian integers, and `Holds(data, at, bs)`, which says
    the bytes `bs` sit at `at` in `data`.
  - The `Result` type: every panic or `unwrap` of the source becomes an
    `Err`.
- **The KTSS audio substream** (`Music`). `Ktss` and `LopusPacket` are
  modelled once. Their two identical copies are at `src/ktsl2stbin.rs:82-131`
  and `src/sections/music.rs:25-74`.
  - After `section_size`, the codec aligns to 0x20.
  - It reads a `channel_count`-byte channel map, aligns to 0x10 and skips
    0x10 bytes.
  - It reads `frame_count` big-endian frames.
  - `MusicSection` (and `KtslEntry`, `KtssSection`) frame a `Ktss` at the
    next 0x40 boundary and pad to 0x40 after it.
- **The section bodies**: `InfoSection`, the `InfoSubsection` dispatch and
  `Unk1InfoSubsection` (`Info`); `KtssCompanionSection` (`Sound`);
  `PaddingSection` (`Padding`); `UnknownSection` (`Unknown`).
  - Each ends in a `section_size - k` trailer.
  - A `section_size` below `k` is a decode error (`SizeUnderflow`), never a
    wrap.
- **The magic-tagged `Section` enumeration** (`Sections`).
  - Variants are tried in declaration order, so 0x368C88BD is `Info1` first
    and `Unknown` only when `Info1` does not decode.
  - The module also holds each section's encoding as magic plus body, and
    the filter behind `get_companion_sections`.
- **A generic scan** (`Scan`).
  - `ScanFrom`/`ReadUntil` are the `read_options` loop that decodes records
    until the position meets `decomp_size`.
  - `EncodeAll`/`WriteEach` are the `write_sections` loop.
  - The module proves the laws that connect the two.
- **`.ktsl2stbin`** (`Stbin`).
  - The raw-`u32` `Ktsr`, `KtslEntry`, the archive read and write, the
    entry-extent formula and link-id handling of `pack`, and `unpack`.
  - The class `Ktsl2stbin` keeps `header` and `entries` and updates them the
    way `pack` does.
- **Link ids** (`LinkId`).
  - Pack parses the file stem as hexadecimal like `u32::from_str_radix(…, 16)`,
    and an absent stem reads as `"0"`.
  - Unpack names a file `{:08X}.ktss` (upper-case digits).
- **`.ktsl2asbin`** (`Asbin`). The archive of `Section`s, `write_sections`,
  `pack`, and the companion references.
- **The generic `Ktsl` container of `src/ktsl.rs`** (`Ktsl`).
  - Its header has closed `Platform`, `Game` and `Filetype` enumerations.
  - It has the two named constructors, the read loop and the companion
    filter.

Choices the source fixes:

- Unpacked file names are upper-case hexadecimal, because `unpack` formats
  them with `{:08X}` (`src/ktsl2stbin.rs:199`).
- The header enumerations of `src/ktsl.rs` accept their listed values only,
  because `src/ktsl.rs:35-60` lists no fallback variant.
- `src/ktsl.rs` does not compile as written, and the model makes these
  readings of it:
  - `SoundSection` is undefined; it is read as `KtssCompanionSection`.
  - `get_companion_sections` matches a variant `Adpcm` that this enum calls
    `Sound`; it is read as the companion variant.
  - `Ktsl`'s derived `write` needs `BinWrite` on enumerations that do not
    derive it. That write is not modelled; `Ktsl.KtslRoundTrip` uses the
    `.ktsl2asbin` layout, which is the evident one.
- The enumerations at `src/ktsl.rs:35-60` have `#[repr(u16)]` or
  `#[repr(u32)]` but no `#[br(repr = …)]`. They are read as their
  discriminants in that width.
- Here `Sections.Section` names the variants `Info1`, `Adpcm`, `Ktss`,
  `Padding` and `Unknown`, as in `src/ktsl2asbin.rs`. `src/ktsl.rs` calls the
  second and third `Sound` and `Music`.

## Model

| member | source | states |
|---|---|---|
| Align.PadLen | src/ktsl2stbin.rs:65-68 | the gap an alignment adds is below the boundary, reaches a multiple of it, and is empty exactly when the position is already aligned |
| Align.RoundUp | src/ktsl2stbin.rs:65-68 | `roundUp(p, n)` is a multiple of `n` in `[p, p + n)` |
| Align.RoundUpIsLeast | src/ktsl2stbin.rs:65-68 | no multiple of `n` at or after `p` lies before `roundUp(p, n)` |
| Align.PadLenShift | src/ktsl2stbin.rs:67 | shifting by a multiple of the container's alignment does not change a gap, so offsets within an entry agree with absolute offsets |
| Binary.U32OfBytes | src/ktsl2stbin.rs:84-86 | a `u32` written in either byte order reads back as itself |
| Binary.U32BigIsReversedLittle | src/ktsl2stbin.rs:114-116 | the big-endian bytes of a frame word are its little-endian bytes reversed |
| Binary.ReadBytes | src/sections/padding.rs:5-6 | a counted byte vector is read iff it fits in the data, and it is exactly those bytes |
| Music.DecodePacket | src/sections/music.rs:68-73 | a decoded frame's content has exactly `size` bytes, and the frame takes 8 + `size` bytes |
| Music.PacketRoundTrip | src/sections/music.rs:68-73 | a frame reads back from its big-endian encoding |
| Music.DecodePackets | src/ktsl2stbin.rs:114-116 | exactly `frame_count` valid frames are read, back to back |
| Music.PacketsRoundTrip | src/ktsl2stbin.rs:114-116 | a frame list reads back from its encoding |
| Music.FormatRoundTrip | src/ktsl2stbin.rs:88-95 | the codec, layer and channel fields after the 0x20 alignment read back |
| Music.TimingRoundTrip | src/ktsl2stbin.rs:96-103 | the sample and loop fields and the audio address read back |
| Music.OpusRoundTrip | src/ktsl2stbin.rs:104-110 | the frame and stream fields read back |
| Music.KtssFixedStart | src/ktsl2stbin.rs:85-87 | `codec` is read at the first 0x20 boundary at or after the end of `section_size` |
| Music.KtssAudioStart | src/ktsl2stbin.rs:111-113 | frames start at a 0x10 boundary, 0x10 to 0x1F bytes after the channel map |
| Music.DecodeKtss | src/ktsl2stbin.rs:82-117 | a decoded `Ktss` has `channel_count` map bytes and `frame_count` valid frames, and ends where its layout ends |
| Music.EncodeKtss | src/ktsl2stbin.rs:82-117 | the written `Ktss` ends where that layout ends |
| Music.FixedGroupsRoundTrip | src/ktsl2stbin.rs:88-110 | the format, timing and Opus groups each read back from the fixed bytes |
| Music.KtssVectorsRoundTrip | src/ktsl2stbin.rs:111-116 | the channel map and `frame_count` frames read back, the frames from the aligned start after the map |
| Music.KtssDecodeFromFields | src/ktsl2stbin.rs:82-117 | a `Ktss` whose fields sit in place decodes whatever bytes fill its alignment gaps |
| Music.KtssFixedRoundTrip | src/ktsl2stbin.rs:87-117 | from the fixed fields on, the `Ktss` reads back and ends after its last frame |
| Music.KtssPartsHold | src/ktsl2stbin.rs:82-117 | the written `Ktss` holds its first two words, fixed fields, channel map and frames where the reader looks |
| Music.KtssRoundTrip | src/ktsl2stbin.rs:82-117 | a well-formed `Ktss` reads back as itself from its encoding, gaps written as zeros |
| Music.KtssLayout | src/ktsl2stbin.rs:84-88 | on a 0x20 boundary, bytes 8..0x20 are zero, `codec` is byte 0x20 and the fixed fields end at 0x5C |
| Music.KtssCodecAt | src/sections/music.rs:27-31 | `codec` is the byte at offset 0x20 of the `Ktss`, whatever follows `section_size` |
| Music.KtssRelocate | src/ktsl2stbin.rs:85-87 | a `Ktss` written at any 0x20 boundary has the bytes it would have at offset 0 |
| Music.FrameStart | src/ktsl2stbin.rs:67-68 | the framed `Ktss` begins at the first 0x40 boundary at or after the words before it |
| Music.FrameEnd | src/ktsl2stbin.rs:67-68 | the frame ends on a 0x40 boundary at or after the end of the `Ktss` |
| Music.EncodeFramed | src/ktsl2stbin.rs:65-69 | zero fill to the next 0x40 boundary, the `Ktss`, zero fill to the boundary after it, ending at `FrameEnd`; `Music.FramedRoundTrip` is its inverse |
| Music.DecodeFramed | src/ktsl2stbin.rs:67-69 | the `Ktss` read at the next 0x40 boundary, the position moved to the boundary after it; a decoded frame is well formed and ends at `FrameEnd` |
| Music.FramedRoundTrip | src/ktsl2stbin.rs:67-68 | a framed `Ktss` reads back, skipping both gaps |
| Music.FramedLayout | src/ktsl2stbin.rs:65-69 | after at most 0x40 bytes of words from a 0x40 boundary, the `Ktss` starts one boundary on, and the frame is a whole number of 0x40 blocks |
| Music.NewMusicSection | src/sections/music.rs:16-23 | `MusicSection::new()` has `header_size` 0x40, all other numbers 0 and empty vectors |
| Music.DecodeMusicSection | src/sections/music.rs:4-14 | four words, then a well-formed `Ktss` at the next 0x40 boundary, ending on a 0x40 boundary |
| Music.EncodeMusicSection | src/sections/music.rs:4-14 | the written section ends where that layout ends |
| Music.MusicHeadCancel | src/sections/music.rs:5-13 | the four words of a written `MusicSection` read back and its framed `Ktss` follows them |
| Music.MusicSectionRoundTrip | src/sections/music.rs:4-14 | a `MusicSection` reads back as itself |
| Music.MusicSectionLayout | src/sections/music.rs:9-13 | at a 0x40 boundary, the `Ktss` starts 0x40 on and the section is a multiple of 0x40 long |
| Info.EncodeInfo | src/sections/info.rs:9-23 | magic plus the encoded body are exactly `section_size` bytes |
| Info.DecodeInfo | src/sections/info.rs:9-23 | a decode ends `section_size` bytes after the magic with a trailer of `section_size - 0x1C` bytes; a `section_size` below 0x1C is `SizeUnderflow` |
| Info.InfoRoundTrip | src/sections/info.rs:9-23 | an `InfoSection` reads back as itself |
| Info.InfoReencode | src/sections/info.rs:21-22 | a decoded `InfoSection` re-encodes to the very bytes it came from, trailer included |
| Info.DecodeUnk1 | src/sections/info.rs:41-47 | two header words, `section_size`, then `section_size - 8` bytes; below 8 is `SizeUnderflow` |
| Info.Unk1RoundTrip | src/sections/info.rs:41-47 | an `Unk1InfoSubsection` reads back as itself |
| Info.Unk1Reencode | src/sections/info.rs:46-47 | a decoded `Unk1InfoSubsection` re-encodes to the bytes it came from |
| Info.DecodeInfoSubsection | src/sections/info.rs:25-32 | a decoded subsection is `Unk1` only behind 0x241318 and `Unk2` only behind 0x14AB5 |
| Info.InfoSubsectionDispatch | src/sections/info.rs:25-32 | any other magic fails; each listed magic succeeds iff its variant's body decodes |
| Info.InfoSubsectionRoundTrip | src/sections/info.rs:25-32 | either variant reads back behind its magic |
| Sound.EncodeCompanion | src/sections/sound.rs:4-27 | magic, the 0x5C-byte fixed body and the trailer are exactly `section_size` bytes |
| Sound.DecodeCompanion | src/sections/sound.rs:4-27 | every field at its offset, `unknown_1` 0x10 and `unknown_5` 0xC bytes, a trailer of `section_size - 0x60`; below 0x60 is `SizeUnderflow` |
| Sound.ReadCompanionFixed | src/sections/sound.rs:5-25 | the fixed fields read from their offsets give a record whose fields are those bytes |
| Sound.CompanionRoundTrip | src/sections/sound.rs:4-27 | a companion section reads back as itself |
| Sound.CompanionReencode | src/sections/sound.rs:4-27 | a decoded companion section re-encodes to its own bytes, unknown fields and trailer included |
| Sound.CompanionFieldOffset | src/sections/sound.rs:17-24 | `sample_rate`, `sample_count`, `loop_start`, `ktss_offset` and `ktss_size` (and the other public numbers) sit at 0x34, 0x38, 0x40, 0x50 and 0x54 of the body |
| Sound.CompanionFieldLocal | src/sections/sound.rs:4-27 | changing one public number changes only its four bytes of the encoding |
| Padding.EncodePadding | src/sections/padding.rs:3-6 | magic plus the body are exactly `section_size` bytes |
| Padding.DecodePadding | src/sections/padding.rs:3-6 | `section_size` then `section_size - 8` filler bytes of any value; below 8 is `SizeUnderflow` |
| Padding.PaddingRoundTrip | src/sections/padding.rs:3-6 | a padding section reads back as itself |
| Padding.PaddingReencode | src/sections/padding.rs:5-6 | the filler is kept verbatim from decode to encode |
| Unknown.EncodeUnknown | src/sections/unknown.rs:3-7 | the body after the magic is `section_size` bytes long |
| Unknown.DecodeUnknown | src/sections/unknown.rs:3-7 | `section_size`, `link_id`, then `section_size - 8` bytes; below 8 is `SizeUnderflow` |
| Unknown.UnknownRoundTrip | src/sections/unknown.rs:3-7 | an unknown section reads back as itself |
| Unknown.UnknownReencode | src/sections/unknown.rs:6-7 | its trailer is kept verbatim |
| Sections.SectionEnd | src/ktsl2asbin.rs:208-215 | every section takes more than its magic |
| Sections.EncodeSection | src/ktsl2asbin.rs:208-215 | a section is written as magic plus body, ending at `SectionEnd` |
| Sections.DecodeSection | src/ktsl2asbin.rs:189-203 | a decoded section sits behind the magic of its variant, is well formed, and ends at `SectionEnd` |
| Sections.SectionDispatch | src/ktsl2asbin.rs:189-203 | an unlisted magic fails; each listed magic gives its variant iff that body decodes; 0x368C88BD gives `Info1` when it decodes and `Unknown` only otherwise |
| Sections.UnknownRereadsAsInfo | src/ktsl2asbin.rs:192-202 | an `Unknown` body with `section_size` of at least 0x1C also decodes as `Info1` |
| Sections.UnknownBelowInfo | src/ktsl2asbin.rs:192-202 | a body read as `Unknown` because `Info1` failed has `section_size` below 0x1C |
| Sections.MagicThenBody | src/ktsl2asbin.rs:208-215 | written bytes hold the variant's magic, then its body |
| Sections.ReadsInfo1 | src/ktsl2asbin.rs:192-193 | where the `Info1` magic is followed by a decodable info record, the section is `Info1`, ending where the record ends |
| Sections.ReadsAdpcm | src/ktsl2asbin.rs:194-195 | where the `Adpcm` magic is followed by a decodable companion body, the section is `Adpcm` |
| Sections.ReadsKtss | src/ktsl2asbin.rs:197-198 | where the `Ktss` magic is followed by a decodable music section, the section is `Ktss` |
| Sections.ReadsPadding | src/ktsl2asbin.rs:199-200 | where the `Padding` magic is followed by a decodable padding body, the section is `Padding` |
| Sections.ReadsUnknown | src/ktsl2asbin.rs:192-202 | behind the shared magic, `Unknown` is taken only where no info record decodes and the unknown body does |
| Sections.UnknownWrittenHoldsInfo | src/ktsl2asbin.rs:192-202 | the bytes written for an `Unknown` of `section_size` at least 0x1C hold the shared magic and a decodable info record |
| Sections.InfoSectionRoundTrip | src/ktsl2asbin.rs:192-193 | an `Info1` section reads back |
| Sections.AdpcmSectionRoundTrip | src/ktsl2asbin.rs:194-195 | an `Adpcm` section reads back |
| Sections.KtssSectionRoundTrip | src/ktsl2asbin.rs:197-198 | a `Ktss` section reads back |
| Sections.PaddingSectionRoundTrip | src/ktsl2asbin.rs:199-200 | a `Padding` section reads back |
| Sections.UnknownSectionRoundTrip | src/ktsl2asbin.rs:201-202 | an `Unknown` section that `Info1` does not take reads back |
| Sections.SectionRoundTrip | src/ktsl2asbin.rs:189-215 | for every variant, the magic written equals the magic read, and the section reads back as itself |
| Sections.UnknownWrittenReadsAsInfo | src/ktsl2asbin.rs:192-202 | a written `Unknown` of `section_size` at least 0x1C reads back as `Info1` |
| Sections.DecodedBody | src/ktsl2asbin.rs:189-203 | a decoded section is that variant's body decoder's result behind its magic |
| Sections.MagicBeforeBody | src/ktsl2asbin.rs:208-215 | a magic followed by a body's bytes is the section's encoding |
| Sections.InfoSectionReencode | src/ktsl2asbin.rs:210 | an `Info1` read re-encodes to its own bytes |
| Sections.AdpcmSectionReencode | src/ktsl2asbin.rs:211 | an `Adpcm` read re-encodes to its own bytes |
| Sections.PaddingSectionReencode | src/ktsl2asbin.rs:213 | a `Padding` read re-encodes to its own bytes |
| Sections.UnknownSectionReencode | src/ktsl2asbin.rs:214 | an `Unknown` read re-encodes to its own bytes |
| Sections.SectionReencode | src/ktsl2asbin.rs:189-215 | any decoded section other than `Ktss` re-encodes to the bytes it came from |
| Sections.SectionAdvances | src/ktsl2asbin.rs:73-77 | every section read moves the position forward |
| Sections.SectionFits | src/ktsl2asbin.rs:208-215 | a section's bytes end at `SectionEnd` |
| Sections.SectionRoundTrips | src/ktsl2asbin.rs:189-215 | every valid section reads back where it was written |
| Sections.CompanionIndices | src/ktsl2asbin.rs:45-53 | the positions of exactly the `Adpcm` sections, in increasing order |
| Sections.Companions | src/ktsl2asbin.rs:45-53 | one companion record per `Adpcm` section |
| Sections.CompanionsAtIndices | src/ktsl2asbin.rs:45-53 | the k-th companion is the record of the k-th `Adpcm` section |
| Sections.IndicesFollowVariants | src/ktsl2asbin.rs:45-53 | only which sections are `Adpcm` decides the filter |
| Sections.SetCompanionLocal | src/ktsl2asbin.rs:45-53 | writing through the k-th reference changes that section alone, keeps the filter, and replaces exactly the k-th companion |
| Scan.Continue | src/ktsl2asbin.rs:76 | a pushed prefix keeps its place, and a failure keeps its error |
| Scan.ScanFrom | src/ktsl2asbin.rs:71-77 | `read_options`' loop as a recursion: stop when the position as a `u32` equals the stop, else read one record and go on; `Scan.ScanStops` and `Scan.ScanReadsBack` state what it yields |
| Scan.Starts | src/ktsl2asbin.rs:208 | one start per record plus the end, the first at the start of the run |
| Scan.ReadUntil | src/ktsl2asbin.rs:71-79 | the loop returns what `ScanFrom` reads: records until the position as `u32` equals the stop, or the first decode error |
| Scan.ScanPositions | src/ktsl2asbin.rs:73 | the positions the loop compares start at 0x40 |
| Scan.ContinueAssoc | src/ktsl2asbin.rs:76 | pushing in two steps equals pushing the two prefixes at once |
| Scan.ScanStops | src/ktsl2asbin.rs:73-77 | a successful scan reads each record where the previous ended, meets the stop after the last record and at no earlier position |
| Scan.EncodeAllLength | src/ktsl2asbin.rs:208-216 | the bytes written for a run end at its last start |
| Scan.EncodeAll | src/ktsl2asbin.rs:205-216 | the bytes `write_sections` emits: each record at the position the one before ended; `Scan.EncodeAllLength`, `Scan.EncodeAllSnoc` and `Scan.ScanReadsBack` state their length, order and inverse |
| Scan.EncodeAllSnoc | src/ktsl2asbin.rs:208-216 | writing one more record appends its bytes where the run ended |
| Scan.WriteEach | src/ktsl2asbin.rs:205-219 | the loop writes every record in order; its result is that of the last record alone, and `Ok` for none |
| Scan.ScanEncoded | src/ktsl2asbin.rs:73-77 | over written records whose starts all miss the stop, the scan yields them and goes on after them |
| Scan.EndAfterStart | src/ktsl2asbin.rs:73-77 | a valid record ends after it starts |
| Scan.StartsBeforeEnd | src/ktsl2asbin.rs:73-77 | every start of a run of valid records lies before its end |
| Scan.ScanReadsBack | src/ktsl2asbin.rs:65-80 | records written back to back, with the stop at their end, read back in order |
| Scan.ScanMissesStop | src/ktsl2asbin.rs:73-77 | if the stop lies before the first record and the data ends after the last, the scan fails |
| LinkId.UpperDigit | src/ktsl2stbin.rs:199 | a digit value as an upper-case hexadecimal character |
| LinkId.HexFixed | src/ktsl2stbin.rs:199 | the digits are `k` upper-case hexadecimal digits |
| LinkId.Hex8 | src/ktsl2stbin.rs:199 | `{:08X}` gives 8 hexadecimal digits |
| LinkId.HexFixedValue | src/ktsl2stbin.rs:199 | the 8 digits denote the link id modulo 16^8 |
| LinkId.ParseLinkId | src/ktsl2stbin.rs:176 | an empty stem, a lone `+` or a non-hex digit is an error, and so is a value of 2^32 or more; one or more hex digits (after an optional `+`) whose value fits in `u32` parse to exactly that value |
| LinkId.FileStem | src/ktsl2stbin.rs:176 | the stem is part of the name |
| LinkId.Hex8RoundTrip | src/ktsl2stbin.rs:176 | parsing the 8 digits gives back the link id |
| LinkId.UnpackNameStem | src/ktsl2stbin.rs:199 | the stem of `{:08X}.ktss` is the 8 digits |
| LinkId.UnpackPackLinkId | src/ktsl2stbin.rs:176 | the name `unpack` writes parses back to its link id at `pack`, and a missing stem gives 0 |
| LinkId.PackStem | src/ktsl2stbin.rs:176 | the `map_or("0", …)`: the stem when the walk has one as text, "0" otherwise |
| Stbin.NewKtsr | src/ktsl2stbin.rs:46-57 | magic "KTSR", `section_type` 0x69420, flags 1, platform 0x400, every other field 0 |
| Stbin.EncodeKtsrFields | src/ktsl2stbin.rs:33-44 | the fields take 0x20 bytes |
| Stbin.EncodeKtsr | src/ktsl2stbin.rs:33-44 | the written header is 0x40 bytes |
| Stbin.DecodeKtsr | src/ktsl2stbin.rs:33-44 | the header reads iff 0x20 bytes are there, each field at its offset, the magic unchecked |
| Stbin.KtsrRoundTrip | src/ktsl2stbin.rs:33-44 | a header reads back from its encoding |
| Stbin.KtsrReencode | src/ktsl2stbin.rs:33-44 | a read header's fields re-encode to the first 0x20 bytes |
| Stbin.KtsrLayout | src/ktsl2stbin.rs:33-44 | fields at 0, 4, 8, 0xA, 0xC, 0x10, 0x18 and 0x1C, then zeros to 0x40 |
| Stbin.NewKtslEntry | src/ktsl2stbin.rs:72-80 | `KtslEntry::new()` has `header_size` 0x40 and every other field zero |
| Stbin.EntryWords | src/ktsl2stbin.rs:60-66 | the five words take 0x14 bytes |
| Stbin.KtslEntryEnd | src/ktsl2stbin.rs:59-70 | an entry is longer than its words |
| Stbin.EncodeKtslEntry | src/ktsl2stbin.rs:59-70 | the written entry ends where its layout ends |
| Stbin.DecodeKtslEntry | src/ktsl2stbin.rs:59-70 | five words, a well-formed `Ktss` at the next 0x40, the end of the frame |
| Stbin.EntryWordsCancel | src/ktsl2stbin.rs:60-66 | the five words sit at 0, 4, 8, 0xC and 0x10 |
| Stbin.KtslEntryRoundTrip | src/ktsl2stbin.rs:59-70 | an entry reads back as itself |
| Stbin.KtslEntryLayout | src/ktsl2stbin.rs:59-70 | at a 0x40 boundary, the words, zeros to 0x40, the `Ktss` at 0x40, and a total length that is a nonzero multiple of 0x40 |
| Stbin.EntryExtent | src/ktsl2stbin.rs:172 | the extent is a multiple of 0x40, 1 to 0x40 bytes past `s + 0x40`; an overflowing sum is an error |
| Stbin.ExtentIsNextBoundary | src/ktsl2stbin.rs:172 | the extent is `roundUp(s + 0x41, 0x40)`, so an aligned size gains a full 0x40 |
| Stbin.EntryExtentWrapping | src/ktsl2stbin.rs:172 | the extent as a release build computes it, each addition wrapping: equal to `EntryExtent` wherever neither addition overflows, and at most 0x40, below `s + 0x40`, wherever one does |
| Stbin.WrappedExtentOfLargest | src/ktsl2stbin.rs:172 | for `s` = 0xFFFFFFFF a debug build overflows, and a release build claims an extent of 0x40 |
| Stbin.EncodeStbin | src/ktsl2stbin.rs:133-139 | the archive is as long as its entries end |
| Stbin.EntryAdvances | src/ktsl2stbin.rs:219-221 | every entry read moves the position forward |
| Stbin.EntryFits | src/ktsl2stbin.rs:59-70 | an entry's bytes end at `KtslEntryEnd` |
| Stbin.EntryRoundTrips | src/ktsl2stbin.rs:59-70 | every valid entry reads back where it was written |
| Stbin.DecodeStbin | src/ktsl2stbin.rs:211-224 | a successful read has the header at 0 |
| Stbin.ReadKtsl2stbin | src/ktsl2stbin.rs:211-224 | the loop returns what `DecodeStbin` reads |
| Stbin.StbinReadStops | src/ktsl2stbin.rs:217-221 | entries are read in order from 0x40, each where the previous ended, and the position meets `decomp_size` after the last and at no earlier entry |
| Stbin.StbinParts | src/ktsl2stbin.rs:133-139 | the written archive holds its header at 0 and its entries from 0x40 |
| Stbin.StbinRoundTrip | src/ktsl2stbin.rs:133-139 | an archive below 4 GiB whose `decomp_size` is its length reads back as itself |
| Stbin.PackedArchiveUnreadable | src/ktsl2stbin.rs:153-194 | the archive `pack` writes with the `new()` header is unreadable |
| Stbin.Sealed | src/ktsl2stbin.rs:41 | the archive with `decomp_size` set to its length, nothing else changed |
| Stbin.SealedReadsBack | src/ktsl2stbin.rs:41 | with `decomp_size` set, the packed archive reads back as itself |
| Stbin.PackKtss | src/ktsl2stbin.rs:172-183 | the entry is built iff the extent and link id are defined, with type 0x15F4D409, `header_size` 0x40, `ktss_size` the `Ktss`'s `section_size`, the extent and the parsed link id |
| Stbin.PackFileShaped | src/ktsl2stbin.rs:165-183 | every entry built from a file has that shape |
| Stbin.PackFile | src/ktsl2stbin.rs:165-183 | the `Ktss` read from the start of the file, then `PackKtss`; `Stbin.PackFileShaped` gives the shape of its entry and `Stbin.UnpackThenPack` its inverse |
| Stbin.PackOne | src/ktsl2stbin.rs:158-185 | one step of the walk: a directory pushes nothing, a file its packed entry or the error; `Stbin.PackAllStep` states it |
| Stbin.RunSteps | src/ktsl2stbin.rs:158-186 | the walk's steps in order, each appending its entries, the first failure ending the run; `Stbin.RunSingles` and `Stbin.PackAllStep` state it |
| Stbin.PackAll | src/ktsl2stbin.rs:158-186 | the entries the whole walk pushes, or the first failure; `Stbin.PackFailurePersists`, `Stbin.PackAllShaped` and `Stbin.UnpackAllThenPack` state it |
| Stbin.PackedBefore | src/ktsl2stbin.rs:158-186 | the entries pushed before the first failing file; `Stbin.PackedBeforeUpTo` states it |
| Stbin.PackFailurePersists | src/ktsl2stbin.rs:165-169 | once a file fails, the whole pack fails with its error |
| Stbin.PackAllShaped | src/ktsl2stbin.rs:158-186 | every entry of a successful pack has that shape |
| Stbin.UnpackThenPack | src/ktsl2stbin.rs:196-205 | packing a file that `unpack` wrote, with the stem of its name, gives back its entry |
| Stbin.UnpackEntry | src/ktsl2stbin.rs:197-203 | the file `unpack` writes for an entry: the `{:08X}.ktss` name and the `Ktss` encoded from position 0; `Stbin.UnpackThenPack` is its inverse |
| Stbin.AsWalk | src/ktsl2stbin.rs:158 | the unpacked files as the walk yields them, in order, each with the stem of its name |
| Stbin.RunSingles | src/ktsl2stbin.rs:158-186 | a walk whose steps each push one entry packs into exactly those entries, in walk order |
| Stbin.UnpackAllThenPack | src/ktsl2stbin.rs:158-205 | packing all files `unpack` wrote gives back every entry in order |
| Stbin.PackedBeforeUpTo | src/ktsl2stbin.rs:185 | the entries pushed before the first failure are those packed before it |
| Stbin.PackAllStep | src/ktsl2stbin.rs:158-186 | one more walk step appends that step's entries or fails with its error |
| Stbin.Ktsl2stbin.constructor | src/ktsl2stbin.rs:142-147 | the `new()` header and no entries |
| Stbin.Ktsl2stbin.Pack | src/ktsl2stbin.rs:153-194 | the header is untouched; the entries gain those of the walk up to the first failure; the result is that failure or the written archive |
| Stbin.Ktsl2stbin.Unpack | src/ktsl2stbin.rs:196-205 | one `{:08X}.ktss` file per entry, holding the encoded `Ktss` |
| Asbin.EncodeAsbin | src/ktsl2asbin.rs:26-31 | the bank is as long as its sections end |
| Asbin.DecodeAsbin | src/ktsl2asbin.rs:65-80 | a successful read has the header at 0 |
| Asbin.ReadKtsl2asbin | src/ktsl2asbin.rs:65-80 | the loop returns what `DecodeAsbin` reads |
| Asbin.AsbinReadStops | src/ktsl2asbin.rs:71-77 | sections are read in order from 0x40, each behind its magic where the previous ended, and the position meets `decomp_size` after the last only |
| Asbin.AsbinParts | src/ktsl2asbin.rs:26-31 | the written bank holds its header at 0 and its sections from 0x40 |
| Asbin.AsbinRoundTrip | src/ktsl2asbin.rs:26-80 | a bank below 4 GiB whose `decomp_size` is its length reads back as itself |
| Asbin.WriteSections | src/ktsl2asbin.rs:205-219 | sections in order as magic plus body; the result is the last section's only, `Ok` for none |
| Asbin.Ktsl2asbin.constructor | src/ktsl2asbin.rs:34-39 | the `new()` header and no sections |
| Asbin.Ktsl2asbin.Pack | src/ktsl2asbin.rs:55-59 | `write` succeeds iff the last section's write does, and writes the bank |
| Asbin.Ktsl2asbin.GetCompanionSections | src/ktsl2asbin.rs:45-53 | a reference to each `Adpcm` section in order, each naming that section's record |
| Asbin.Ktsl2asbin.SetCompanion | src/ktsl2asbin.rs:45-53 | a write through a reference changes that section alone |
| Ktsl.DecodePlatform | src/ktsl.rs:35-41 | `Platform` decodes 0x400 only, as `Switch` |
| Ktsl.DecodeGame | src/ktsl.rs:43-49 | `Game` decodes 0xB75674CE only, as `ThreeHouses` |
| Ktsl.DecodeFiletype | src/ktsl.rs:51-60 | `Filetype` decodes 0x1A487B77 and 0xFCDD9402 only |
| Ktsl.EnumsRoundTrip | src/ktsl.rs:35-60 | each variant's value decodes as that variant |
| Ktsl.ToRaw | src/ktsl.rs:22-33 | the raw header is valid iff the enumerated one is |
| Ktsl.NewKtsr | src/ktsl.rs:63-77 | magic "KTSR", `StreamTable`, flags 1, `Switch`, `ThreeHouses`, zeros |
| Ktsl.DecodeKtsr | src/ktsl.rs:22-33 | a read header takes 0x20 bytes |
| Ktsl.KtsrAgreesWithRaw | src/ktsl.rs:22-60 | it reads what the raw header reads iff the three values are listed, and otherwise fails on the first unlisted one |
| Ktsl.EncodeKtsr | src/ktsl.rs:22-33 | the written header is 0x40 bytes |
| Ktsl.KtsrRoundTrip | src/ktsl.rs:22-33 | the header reads back from its encoding |
| Ktsl.DecodeKtsl | src/ktsl.rs:149-167 | a successful read has a valid header |
| Ktsl.KtslAgreesWithAsbin | src/ktsl.rs:149-167 | it reads the sections that the `.ktsl2asbin` reader reads, and succeeds wherever that reader and its own header read succeed |
| Ktsl.KtslRoundTrip | src/ktsl.rs:149-167 | a container below 4 GiB whose `decomp_size` is its length reads back as itself |
| Ktsl.Ktsl.NewAsbin | src/ktsl.rs:106-114 | `Ktsr::new()` with `AgdpcmStorage`, no entries |
| Ktsl.Ktsl.NewStbin | src/ktsl.rs:116-124 | `Ktsr::new()` with `StreamTable`, no entries |
| Ktsl.NewHeadersDiffer | src/ktsl.rs:105-124 | the two headers differ from `Ktsr::new()` in the file type alone |
| Ktsl.Ktsl.Read | src/ktsl.rs:149-167 | the loop returns what `DecodeKtsl` reads |
| Ktsl.Ktsl.GetCompanionSections | src/ktsl.rs:131-139 | a reference to each companion section in order |
| Ktsl.Ktsl.SetCompanion | src/ktsl.rs:131-139 | a write through a reference changes that section alone |

## Left out

- File and stream I/O are not modelled. This covers `open`, `File::create`,
  the fixed output paths, and `BufReader`/`BufWriter`. Decoders read a byte
  sequence; encoders return one.
- Whether the writer accepts each section's bytes is the parameter `accepts`
  of `WriteSections` and `Pack`.
- `Asbin.Ktsl2asbin.Pack`: the outcome of writing the header itself is not
  modelled. Only the section results, which `write_sections` returns, decide
  it.
- The directory walk (`jwalk`) is a given sequence of `WalkEntry` values in
  walk order. Its own errors (the `unwrap` on each entry) are not modelled.
- `Stbin.Ktsl2stbin.Pack` returns `Err` where the source panics, keeping the
  entries already pushed.
- `Stbin.Ktsl2stbin.Unpack` runs sequentially and returns (name, bytes)
  pairs. The source's `rayon` iteration and file writes are not modelled.
- The stopwatch and `println!` are not modelled.
- The `--gzip` option is unimplemented in the source.
- `src/main.rs` is not part of this model.
- `ftell_read` is not modelled; nothing calls it.
- Opus audio in `LopusPacket.content` is opaque bytes.
- The `Ktss` fields are grouped into three sub-records (format, timing,
  opus). Their order and widths are those of the source.
- A `section_size` below a trailer's fixed part is a decode error, so the
  enumeration goes on to the next variant. A debug build of the source would
  panic on the subtraction instead.
- Error payloads are not modelled. These are binread's messages and
  positions; an end-of-data error carries no position.
- The write of `Ktsl` (`src/ktsl.rs:97-103, 141-146`) is not modelled,
  because its derive does not compile. `Ktsl.KtslRoundTrip` states the
  `.ktsl2asbin` layout instead.
- `Music.EncodeMusicSection` and `Sections.EncodeSection`, with every
  encoder above them, align on absolute positions. The source's `BinWrite`
  takes a writer without `Seek` (`src/ktsl2asbin.rs:205-214`), so its
  `align_after` may count from the start of the value being written
  instead. The two readings agree where that start is on the boundary, as
  every `.ktsl2stbin` entry is (0x40-aligned, `Align.PadLenShift`). A
  `.ktsl2asbin` `Ktss` section is not: written at 0x40 behind its 4-byte
  magic, a relative writer fills to 0x84 where the reader expects 0x80.
  `Music.MusicSectionRoundTrip`, `Sections.KtssSectionRoundTrip`,
  `Sections.SectionRoundTrip`, `Sections.SectionRoundTrips`,
  `Asbin.AsbinRoundTrip` and `Ktsl.KtslRoundTrip` hold for the absolute
  reading of the write only.
- `Sections.SectionRoundTrip` covers an `Unknown` only when its
  `section_size` is below 0x1C. A larger one reads back as `Info1`
  (`Sections.UnknownWrittenReadsAsInfo`).
- `Sections.SectionReencode` leaves out `Ktss`. Its alignment gaps are
  skipped on read, so a read `Ktss` section need not re-encode to the bytes
  it came from.
- References returned by `get_companion_sections` are modelled as indices
  into `entries`, with writes through them as `SetCompanion`. Aliasing of
  `&mut` references is not modelled.
- `LinkId.FileStem`'s contract states only that the stem is part of the
  name. That `pack` gives back an unpacked name's link id is proved in
  `LinkId.UnpackPackLinkId`.
- The walk gives each file's stem as `Option<string>`: `None` stands for a
  path without a stem or one whose stem is not UTF-8. The name after the
  stem plays no part, as in `file_stem().and_then(to_str)`.
- `Stbin.EntryExtent` models a debug build, where an overflowing `u32`
  addition panics (`Err(Overflow)` here, from `s` = 0xFFFFFF80 on). A release
  build wraps instead and claims an extent of at most 0x40, smaller than the
  entry; `Stbin.EntryExtentWrapping` states that, and `pack` here uses the
  debug semantics.

## Findings

| source | as written | input that shows it | evidently intended | confidence | as-written member | corrected member |
|---|---|---|---|---|---|---|
| src/ktsl2stbin.rs:153-194 | `pack` never sets `decomp_size`, which keeps the 0 of `Ktsr::new()`; the reader stops only when the position equals `decomp_size` | any pack whose archive is below 4 GiB, even of an empty directory: the scan never meets 0 and runs past the end | `decomp_size` set to the archive's length before writing | not executed | Stbin.PackedArchiveUnreadable | Stbin.Sealed, Stbin.SealedReadsBack |
