/** The stream table container of src/ktsl2stbin.rs: the `Ktsr` header with
    its numbers kept raw, the `KtslEntry` records that follow it from 0x40,
    the scan that reads entries until the position reaches `decomp_size`, and
    the arithmetic and naming inside `pack` and `unpack`. */
module Stbin {
  import opened Align
  import opened Binary
  import opened Music
  import opened LinkId
  import opened Scan

  // ---------------------------------------------------------------------
  // `Ktsr`, the header

  datatype Ktsr = Ktsr(
    magic: seq<u8>, sectionType: u32, flags: u16, platformId: u16, gameId: u32,
    padding: u64, decompSize: u32, compSize: u32)

  predicate KtsrValid(h: Ktsr) {
    |h.magic| == 4
  }

  /** "KTSR" */
  const KTSR_MAGIC: seq<u8> := [0x4B, 0x54, 0x53, 0x52]
  /** The bytes the header's fields take. */
  const KTSR_FIELDS: nat := 0x20
  /** Where the entries start; `align_after(0x40)` makes the header this long. */
  const ENTRIES_START: nat := 0x40

  /** `Ktsr::new()`. */
  function NewKtsr(): (h: Ktsr)
    ensures KtsrValid(h) && h.magic == KTSR_MAGIC
    ensures h.sectionType == 0x69420 && h.flags == 1 && h.platformId == 0x400
    ensures h.gameId == 0 && h.padding == 0 && h.decompSize == 0 && h.compSize == 0
  {
    Ktsr(KTSR_MAGIC, 0x69420, 1, 0x400, 0, 0, 0, 0)
  }

  function EncodeKtsrFields(h: Ktsr): (bs: seq<u8>)
    ensures KtsrValid(h) ==> |bs| == KTSR_FIELDS
  {
    h.magic + U32Bytes(h.sectionType, Little) + U16Bytes(h.flags, Little) + U16Bytes(h.platformId, Little)
      + U32Bytes(h.gameId, Little) + U64Bytes(h.padding) + U32Bytes(h.decompSize, Little)
      + U32Bytes(h.compSize, Little)
  }

  /** The header as written at the start of the file: its fields, then zero
      fill up to 0x40. */
  function EncodeKtsr(h: Ktsr): (bs: seq<u8>)
    ensures KtsrValid(h) ==> |bs| == ENTRIES_START
  {
    EncodeKtsrFields(h) + Zeros(ENTRIES_START - KTSR_FIELDS)
  }

  /** Every field of `h` at its offset from the start of `data`. */
  predicate KtsrAt(data: seq<u8>, h: Ktsr) {
    && KTSR_FIELDS <= |data|
    && Slice(data, 0, 4) == h.magic
    && U32At(data, 4, Little) == h.sectionType
    && U16At(data, 8, Little) == h.flags && U16At(data, 0xA, Little) == h.platformId
    && U32At(data, 0xC, Little) == h.gameId && U64At(data, 0x10) == h.padding
    && U32At(data, 0x18, Little) == h.decompSize && U32At(data, 0x1C, Little) == h.compSize
  }

  /** `Ktsr::read` from the start of the data. Reading never looks at the
      magic, so only data shorter than the fields fails. */
  function DecodeKtsr(data: seq<u8>): (r: Result<Parsed<Ktsr>>)
    ensures r.Ok? <==> KTSR_FIELDS <= |data|
    ensures r.Ok? ==> KtsrValid(r.value.value) && KtsrAt(data, r.value.value) && r.value.next == KTSR_FIELDS
  {
    if KTSR_FIELDS <= |data| then
      Ok(Parsed(Ktsr(Slice(data, 0, 4), U32At(data, 4, Little), U16At(data, 8, Little), U16At(data, 0xA, Little),
        U32At(data, 0xC, Little), U64At(data, 0x10), U32At(data, 0x18, Little), U32At(data, 0x1C, Little)),
        KTSR_FIELDS))
    else Err(UnexpectedEof)
  }

  lemma KtsrCancel(data: seq<u8>, h: Ktsr)
    requires KtsrValid(h) && Holds(data, 0, EncodeKtsrFields(h))
    ensures KtsrAt(data, h)
  {
    var m, w0, w1, w2 := h.magic, U32Bytes(h.sectionType, Little), U16Bytes(h.flags, Little), U16Bytes(h.platformId, Little);
    var w3, w4, w5, w6 := U32Bytes(h.gameId, Little), U64Bytes(h.padding), U32Bytes(h.decompSize, Little), U32Bytes(h.compSize, Little);
    HoldsSplit(data, 0, m + w0 + w1 + w2 + w3 + w4 + w5, w6);
    HoldsSplit(data, 0, m + w0 + w1 + w2 + w3 + w4, w5);
    HoldsSplit(data, 0, m + w0 + w1 + w2 + w3, w4);
    HoldsSplit(data, 0, m + w0 + w1 + w2, w3);
    HoldsSplit(data, 0, m + w0 + w1, w2);
    HoldsSplit(data, 0, m + w0, w1);
    HoldsSplit(data, 0, m, w0);
    BytesCancel(data, 0, m);
    U32Cancel(data, 4, h.sectionType, Little);
    U16Cancel(data, 8, h.flags, Little);
    U16Cancel(data, 0xA, h.platformId, Little);
    U32Cancel(data, 0xC, h.gameId, Little);
    U64Cancel(data, 0x10, h.padding);
    U32Cancel(data, 0x18, h.decompSize, Little);
    U32Cancel(data, 0x1C, h.compSize, Little);
  }

  lemma KtsrHolds(data: seq<u8>, h: Ktsr)
    requires KtsrAt(data, h)
    ensures KtsrValid(h) && Holds(data, 0, EncodeKtsrFields(h))
  {
    var m, w0, w1, w2 := h.magic, U32Bytes(h.sectionType, Little), U16Bytes(h.flags, Little), U16Bytes(h.platformId, Little);
    var w3, w4, w5, w6 := U32Bytes(h.gameId, Little), U64Bytes(h.padding), U32Bytes(h.decompSize, Little), U32Bytes(h.compSize, Little);
    BytesHolds(data, 0, 4);
    U32Holds(data, 4, Little);
    U16Holds(data, 8, Little);
    U16Holds(data, 0xA, Little);
    U32Holds(data, 0xC, Little);
    U64Holds(data, 0x10);
    U32Holds(data, 0x18, Little);
    U32Holds(data, 0x1C, Little);
    HoldsJoin(data, 0, m, w0);
    HoldsJoin(data, 0, m + w0, w1);
    HoldsJoin(data, 0, m + w0 + w1, w2);
    HoldsJoin(data, 0, m + w0 + w1 + w2, w3);
    HoldsJoin(data, 0, m + w0 + w1 + w2 + w3, w4);
    HoldsJoin(data, 0, m + w0 + w1 + w2 + w3 + w4, w5);
    HoldsJoin(data, 0, m + w0 + w1 + w2 + w3 + w4 + w5, w6);
  }

  lemma KtsrRoundTrip(data: seq<u8>, h: Ktsr)
    requires KtsrValid(h) && Holds(data, 0, EncodeKtsr(h))
    ensures DecodeKtsr(data) == Ok(Parsed(h, KTSR_FIELDS))
  {
    HoldsSplit(data, 0, EncodeKtsrFields(h), Zeros(ENTRIES_START - KTSR_FIELDS));
    KtsrCancel(data, h);
  }

  /** Decoding then encoding gives back the 0x20 bytes of fields, whatever
      the magic is. */
  lemma KtsrReencode(data: seq<u8>)
    requires KTSR_FIELDS <= |data|
    ensures Holds(data, 0, EncodeKtsrFields(DecodeKtsr(data).value.value))
  {
    KtsrHolds(data, DecodeKtsr(data).value.value);
  }

  /** The encoded header is 0x40 bytes: the fields at their offsets, then
      zeros from 0x20. */
  lemma KtsrLayout(h: Ktsr)
    requires KtsrValid(h)
    ensures var bs := EncodeKtsr(h);
      && |bs| == ENTRIES_START && KtsrAt(bs, h)
      && forall i :: KTSR_FIELDS <= i < ENTRIES_START ==> bs[i] == 0
  {
    var bs := EncodeKtsr(h);
    HoldsWhole(bs);
    KtsrRoundTrip(bs, h);
  }

  // ---------------------------------------------------------------------
  // `KtslEntry`: five words, then the framed `Ktss`

  datatype KtslEntry = KtslEntry(
    sectionType: u32, sectionSize: u32, linkId: u32, headerSize: u32, ktssSize: u32, ktss: Ktss)

  /** The bytes of the five leading words. */
  const ENTRY_WORDS: nat := 20
  /** The magic of a stream entry, which `pack` stores as `section_type`. */
  const KTSS_SECTION_TYPE: u32 := 0x15F4D409

  /** `KtslEntry::new()`. */
  function NewKtslEntry(): (e: KtslEntry)
    ensures e.sectionType == 0 && e.headerSize == KTSL_HEADER_SIZE
    ensures e.sectionSize == 0 && e.linkId == 0 && e.ktssSize == 0 && e.ktss == DEFAULT_KTSS
  {
    KtslEntry(0, 0, 0, KTSL_HEADER_SIZE, 0, DEFAULT_KTSS)
  }

  function EntryWords(e: KtslEntry): (bs: seq<u8>)
    ensures |bs| == ENTRY_WORDS
  {
    U32Bytes(e.sectionType, Little) + U32Bytes(e.sectionSize, Little) + U32Bytes(e.linkId, Little)
      + U32Bytes(e.headerSize, Little) + U32Bytes(e.ktssSize, Little)
  }

  /** The absolute position after an entry written at `at`. */
  function KtslEntryEnd(e: KtslEntry, at: nat): (p: nat)
    ensures at + ENTRY_WORDS < p
  {
    FrameEnd(e.ktss, at + ENTRY_WORDS)
  }

  function EncodeKtslEntry(e: KtslEntry, at: nat): (bs: seq<u8>)
    ensures at + |bs| == KtslEntryEnd(e, at)
  {
    EntryWords(e) + EncodeFramed(e.ktss, at + ENTRY_WORDS)
  }

  function DecodeKtslEntry(data: seq<u8>, at: nat): (r: Result<Parsed<KtslEntry>>)
    ensures r.Ok? ==> at + ENTRY_WORDS <= |data|
    ensures r.Ok? ==> KtssValid(r.value.value.ktss) && r.value.next == KtslEntryEnd(r.value.value, at)
  {
    if at + ENTRY_WORDS <= |data| then
      var k :- DecodeFramed(data, at + ENTRY_WORDS);
      Ok(Parsed(KtslEntry(U32At(data, at, Little), U32At(data, at + 4, Little), U32At(data, at + 8, Little),
        U32At(data, at + 12, Little), U32At(data, at + 16, Little), k.value), k.next))
    else Err(UnexpectedEof)
  }

  lemma EntryWordsCancel(data: seq<u8>, at: nat, e: KtslEntry)
    requires Holds(data, at, EntryWords(e))
    ensures at + ENTRY_WORDS <= |data|
    ensures U32At(data, at, Little) == e.sectionType && U32At(data, at + 4, Little) == e.sectionSize
    ensures U32At(data, at + 8, Little) == e.linkId && U32At(data, at + 12, Little) == e.headerSize
    ensures U32At(data, at + 16, Little) == e.ktssSize
  {
    var w0, w1, w2 := U32Bytes(e.sectionType, Little), U32Bytes(e.sectionSize, Little), U32Bytes(e.linkId, Little);
    var w3, w4 := U32Bytes(e.headerSize, Little), U32Bytes(e.ktssSize, Little);
    HoldsSplit(data, at, w0 + w1 + w2 + w3, w4);
    HoldsSplit(data, at, w0 + w1 + w2, w3);
    HoldsSplit(data, at, w0 + w1, w2);
    HoldsSplit(data, at, w0, w1);
    U32Cancel(data, at, e.sectionType, Little);
    U32Cancel(data, at + 4, e.sectionSize, Little);
    U32Cancel(data, at + 8, e.linkId, Little);
    U32Cancel(data, at + 12, e.headerSize, Little);
    U32Cancel(data, at + 16, e.ktssSize, Little);
  }

  lemma KtslEntryRoundTrip(data: seq<u8>, at: nat, e: KtslEntry)
    requires KtssValid(e.ktss) && Holds(data, at, EncodeKtslEntry(e, at))
    ensures DecodeKtslEntry(data, at) == Ok(Parsed(e, KtslEntryEnd(e, at)))
  {
    HoldsSplit(data, at, EntryWords(e), EncodeFramed(e.ktss, at + ENTRY_WORDS));
    EntryWordsCancel(data, at, e);
    FramedRoundTrip(data, at + ENTRY_WORDS, e.ktss);
  }

  /** An entry at a 0x40 boundary: its `Ktss` starts 0x40 bytes in, the
      bytes between the words and the `Ktss` are zero, and its whole length
      is a multiple of 0x40. */
  lemma KtslEntryLayout(e: KtslEntry, at: nat)
    requires at % 0x40 == 0
    ensures FrameStart(at + ENTRY_WORDS) == at + 0x40
    ensures var bs := EncodeKtslEntry(e, at);
      && |bs| % 0x40 == 0 && 0x40 <= |bs|
      && forall i :: ENTRY_WORDS <= i < 0x40 ==> bs[i] == 0
  {
    FramedLayout(e.ktss, at, ENTRY_WORDS);
    assert (KtslEntryEnd(e, at) - at) % 0x40 == 0;
    var pad := Pad(at + ENTRY_WORDS, 0x40);
    assert |pad| == 0x40 - ENTRY_WORDS;
    assert forall i :: ENTRY_WORDS <= i < 0x40 ==> EncodeKtslEntry(e, at)[i] == pad[i - ENTRY_WORDS];
  }

  // ---------------------------------------------------------------------
  // The entry extent `pack` computes

  /** `section_size` for an entry whose `Ktss` declares `s`:
      `s + 0x40 + (0x40 - (s + 0x40) % 0x40)` in `u32`, where an overflowing
      addition is an error (the debug build panics). */
  function EntryExtent(s: u32): (r: Result<u32>)
    ensures r.Ok? <==> s as nat < U32_MOD - 0x80
    ensures r.Ok? ==> r.value % 0x40 == 0 && s as nat + 0x40 < r.value <= s as nat + 0x80
  {
    if s as nat + KTSL_HEADER_SIZE as nat >= U32_MOD then Err(Overflow)
    else
      var t: u32 := s + KTSL_HEADER_SIZE;
      var gap := 0x40 - t % 0x40;
      if t as nat + gap >= U32_MOD then Err(Overflow) else Ok(t + gap)
  }

  /** The same sum as a release build computes it, each `u32` addition
      wrapping modulo 2^32. Where the debug build panics, the wrapped extent
      is at most 0x40: smaller than the entry's own words and `Ktss`. */
  function EntryExtentWrapping(s: u32): (r: u32)
    ensures s as nat < U32_MOD - 0x80 ==> EntryExtent(s) == Ok(r)
    ensures s as nat >= U32_MOD - 0x80 ==> r <= 0x40 && (r as nat) < s as nat + KTSL_HEADER_SIZE as nat
  {
    var t: u32 := (s as nat + KTSL_HEADER_SIZE as nat) % U32_MOD;
    var gap: u32 := 0x40 - t % 0x40;
    (t as nat + gap as nat) % U32_MOD
  }

  /** The largest size shows the wrap: the debug build fails, and the
      release build claims an extent of 0x40. */
  lemma WrappedExtentOfLargest()
    ensures EntryExtent(0xFFFF_FFFF) == Err(Overflow)
    ensures EntryExtentWrapping(0xFFFF_FFFF) == 0x40
  {
  }

  /** The extent is the first multiple of 0x40 past `s + 0x40`; a size that
      is already a multiple of 0x40 gains a whole extra 0x40. */
  lemma ExtentIsNextBoundary(s: u32)
    requires s as nat < U32_MOD - 0x80
    ensures EntryExtent(s).value == RoundUp(s as nat + 0x41, 0x40)
    ensures s % 0x40 == 0 ==> EntryExtent(s).value == s + 0x80
  {
    var r := EntryExtent(s).value;
    RoundUpIsLeast(s as nat + 0x41, 0x40, r);
    var q := RoundUp(s as nat + 0x41, 0x40);
    assert q <= r;
    if q < r {
      assert r - 0x40 < q < r;
      MultiplesApart(q, r - 0x40 + 0x40, 0x40);
    }
  }

  // ---------------------------------------------------------------------
  // The archive: header, then entries from 0x40

  datatype StbinFile = StbinFile(header: Ktsr, entries: seq<KtslEntry>)

  predicate KtslEntryValid(e: KtslEntry) {
    KtssValid(e.ktss)
  }

  predicate EntriesValid(es: seq<KtslEntry>) {
    forall i :: 0 <= i < |es| ==> KtslEntryValid(es[i])
  }

  /** Where the entries written from 0x40 end. */
  function EntriesEnd(es: seq<KtslEntry>): nat {
    Starts(KtslEntryEnd, es, ENTRIES_START)[|es|]
  }

  /** `Ktsl2stbin` as `write` lays it out: the header, then the entries from
      0x40 (where `align(0x40)` adds nothing). */
  function EncodeStbin(a: StbinFile): (bs: seq<u8>)
    ensures KtsrValid(a.header) ==> |bs| == EntriesEnd(a.entries)
  {
    EntryFits();
    EncodeAllLength(EncodeKtslEntry, KtslEntryEnd, a.entries, ENTRIES_START);
    EncodeKtsr(a.header) + EncodeAll(EncodeKtslEntry, KtslEntryEnd, a.entries, ENTRIES_START)
  }

  lemma EntryAdvances()
    ensures Advances(DecodeKtslEntry)
  {
  }

  lemma EntryFits()
    ensures Fits(EncodeKtslEntry, KtslEntryEnd)
  {
  }

  lemma EntryRoundTrips()
    ensures RoundTrips(EncodeKtslEntry, KtslEntryEnd, DecodeKtslEntry, KtslEntryValid)
  {
    forall data: seq<u8>, p: nat, e: KtslEntry | KtslEntryValid(e) && Holds(data, p, EncodeKtslEntry(e, p))
      ensures DecodeKtslEntry(data, p) == Ok(Parsed(e, KtslEntryEnd(e, p)))
    {
      KtslEntryRoundTrip(data, p, e);
    }
  }

  /** `Ktsl2stbin::read`: the header, a seek to 0x40, then the entry loop,
      where a failing entry is an `unwrap` panic. */
  function DecodeStbin(data: seq<u8>): (r: Result<StbinFile>)
    ensures r.Ok? ==> KtsrValid(r.value.header) && KtsrAt(data, r.value.header)
  {
    EntryAdvances();
    var h :- DecodeKtsr(data);
    var es :- ScanFrom(DecodeKtslEntry, data, ENTRIES_START, h.value.decompSize);
    Ok(StbinFile(h.value, es))
  }

  /** `read_options`. */
  method ReadKtsl2stbin(data: seq<u8>) returns (r: Result<StbinFile>)
    ensures r == DecodeStbin(data)
  {
    var h := DecodeKtsr(data);
    if h.Err? {
      return Err(h.error);
    }
    EntryAdvances();
    var es := ReadUntil(DecodeKtslEntry, data, ENTRIES_START, h.value.value.decompSize);
    if es.Err? {
      return Err(es.error);
    }
    r := Ok(StbinFile(h.value.value, es.value));
  }

  /** What a successful read holds: valid entries, each read where the one
      before it ended, the first at 0x40; the scan passes `decomp_size` at
      no position before the last entry ends, and the entries end on it. */
  lemma StbinReadStops(data: seq<u8>)
    requires DecodeStbin(data).Ok?
    ensures var a := DecodeStbin(data).value; var ps := ScanPositions(DecodeKtslEntry, data, ENTRIES_START, a.header.decompSize);
      && EntriesValid(a.entries)
      && |ps| == |a.entries| + 1 && ps[0] == ENTRIES_START
      && ps[|a.entries|] % U32_MOD == a.header.decompSize as nat
      && (forall i :: 0 <= i < |a.entries| ==> ps[i] % U32_MOD != a.header.decompSize as nat)
      && (forall i :: 0 <= i < |a.entries| ==> ps[i + 1] == KtslEntryEnd(a.entries[i], ps[i]))
  {
    EntryAdvances();
    var h := DecodeKtsr(data).value.value;
    var es := ScanFrom(DecodeKtslEntry, data, ENTRIES_START, h.decompSize).value;
    assert DecodeStbin(data).value == StbinFile(h, es);
    var ps := ScanPositions(DecodeKtslEntry, data, ENTRIES_START, h.decompSize);
    ScanStops(DecodeKtslEntry, data, ENTRIES_START, h.decompSize);
    forall i | 0 <= i < |es|
      ensures KtslEntryValid(es[i]) && ps[i + 1] == KtslEntryEnd(es[i], ps[i])
    {
      assert DecodeKtslEntry(data, ps[i]) == Ok(Parsed(es[i], ps[i + 1]));
    }
  }

  /** The bytes `write` produces hold the header where `read` looks for it
      and the entries from 0x40. */
  lemma StbinParts(a: StbinFile)
    requires KtsrValid(a.header)
    ensures DecodeKtsr(EncodeStbin(a)) == Ok(Parsed(a.header, KTSR_FIELDS))
    ensures Holds(EncodeStbin(a), ENTRIES_START, EncodeAll(EncodeKtslEntry, KtslEntryEnd, a.entries, ENTRIES_START))
  {
    var data := EncodeStbin(a);
    HoldsWhole(data);
    HoldsSplit(data, 0, EncodeKtsr(a.header), EncodeAll(EncodeKtslEntry, KtslEntryEnd, a.entries, ENTRIES_START));
    KtsrRoundTrip(data, a.header);
  }

  /** An archive below 4 GiB whose `decomp_size` is its own length reads
      back as itself. */
  lemma StbinRoundTrip(a: StbinFile)
    requires KtsrValid(a.header) && EntriesValid(a.entries)
    requires a.header.decompSize as nat == EntriesEnd(a.entries)
    ensures DecodeStbin(EncodeStbin(a)) == Ok(a)
  {
    StbinParts(a);
    EntryAdvances();
    EntryFits();
    EntryRoundTrips();
    ScanReadsBack(EncodeKtslEntry, KtslEntryEnd, DecodeKtslEntry, KtslEntryValid,
      EncodeStbin(a), ENTRIES_START, a.entries, a.header.decompSize);
  }

  /** `pack` leaves the header of `Ktsl2stbin::new()` as it is, so its
      `decomp_size` stays 0: the scan over what it writes never meets it and
      runs off the end. */
  lemma PackedArchiveUnreadable(es: seq<KtslEntry>)
    requires EntriesValid(es) && EntriesEnd(es) < U32_MOD
    ensures DecodeStbin(EncodeStbin(StbinFile(NewKtsr(), es))).Err?
  {
    var a := StbinFile(NewKtsr(), es);
    StbinParts(a);
    EntryAdvances();
    EntryFits();
    EntryRoundTrips();
    ScanMissesStop(EncodeKtslEntry, KtslEntryEnd, DecodeKtslEntry, KtslEntryValid,
      EncodeStbin(a), ENTRIES_START, es, 0);
  }

  /** The header `pack` evidently means to write: `decomp_size` set to the
      length of the archive. */
  function Sealed(a: StbinFile): (b: StbinFile)
    requires EntriesEnd(a.entries) < U32_MOD
    ensures b.entries == a.entries && b.header.decompSize as nat == EntriesEnd(a.entries)
    ensures b.header == a.header.(decompSize := b.header.decompSize)
  {
    a.(header := a.header.(decompSize := EntriesEnd(a.entries)))
  }

  /** With `decomp_size` set, what `pack` writes reads back. */
  lemma SealedReadsBack(a: StbinFile)
    requires KtsrValid(a.header) && EntriesValid(a.entries) && EntriesEnd(a.entries) < U32_MOD
    ensures DecodeStbin(EncodeStbin(Sealed(a))) == Ok(Sealed(a))
  {
    StbinRoundTrip(Sealed(a));
  }

  // ---------------------------------------------------------------------
  // `pack` and `unpack`, without the file system

  /** What the directory walk yields: a directory, which `pack` skips, or a
      file with its stem as text (`None` when the path has no stem or the
      stem is not UTF-8) and its bytes. */
  datatype WalkEntry = Directory | File(stem: Option<string>, contents: seq<u8>)

  /** The entry `pack` builds from the `Ktss` of a file: the extent first
      (where an overflowing `u32` addition panics), then the link id parsed
      from the stem (where `unwrap` panics on a bad stem). */
  function PackKtss(stem: Option<string>, k: Ktss): (r: Result<KtslEntry>)
    ensures r.Ok? <==> EntryExtent(k.sectionSize).Ok? && ParseLinkId(PackStem(stem)).Ok?
    ensures EntryExtent(k.sectionSize).Err? ==> r == Err(EntryExtent(k.sectionSize).error)
    ensures r.Ok? ==>
      && r.value.ktss == k
      && r.value.sectionType == KTSS_SECTION_TYPE && r.value.headerSize == KTSL_HEADER_SIZE
      && r.value.ktssSize == k.sectionSize
      && r.value.sectionSize == EntryExtent(k.sectionSize).value
      && r.value.linkId == ParseLinkId(PackStem(stem)).value
  {
    var size :- EntryExtent(k.sectionSize);
    var linkId :- ParseLinkId(PackStem(stem));
    Ok(NewKtslEntry().(linkId := linkId, sectionType := KTSS_SECTION_TYPE, sectionSize := size,
      ktssSize := k.sectionSize, ktss := k))
  }

  /** The entry `pack` builds from one file: the `Ktss` read from the start
      of the file (where a failed read panics), then `PackKtss`. */
  function PackFile(stem: Option<string>, contents: seq<u8>): Result<KtslEntry> {
    var k :- DecodeKtss(contents, 0);
    PackKtss(stem, k.value)
  }

  /** The shape of every entry `pack` builds. */
  predicate PackShaped(e: KtslEntry) {
    && KtssValid(e.ktss)
    && e.sectionType == KTSS_SECTION_TYPE && e.headerSize == KTSL_HEADER_SIZE
    && e.ktssSize == e.ktss.sectionSize
    && EntryExtent(e.ktss.sectionSize) == Ok(e.sectionSize)
  }

  lemma PackFileShaped(stem: Option<string>, contents: seq<u8>)
    requires PackFile(stem, contents).Ok?
    ensures PackShaped(PackFile(stem, contents).value)
  {
    assert DecodeKtss(contents, 0).Ok?;
  }

  /** What one step of the walk pushes: nothing for a directory, the
      packed entry for a file. */
  function PackOne(w: WalkEntry): Result<seq<KtslEntry>> {
    match w
    case Directory => Ok([])
    case File(stem, contents) =>
      var e :- PackFile(stem, contents);
      Ok([e])
  }

  /** The steps of a walk run in order, each appending what it yields; the
      first step that fails ends the run with its error. */
  function RunSteps<W, E>(step: W -> Result<seq<E>>, walk: seq<W>): Result<seq<E>>
    decreases |walk|
  {
    if |walk| == 0 then Ok([])
    else
      var init :- RunSteps(step, walk[..|walk| - 1]);
      var last :- step(walk[|walk| - 1]);
      Ok(init + last)
  }

  /** A run each of whose steps yields the one element at the same index
      yields those elements, in order. */
  lemma {:induction false} RunSingles<W, E>(step: W -> Result<seq<E>>, walk: seq<W>, es: seq<E>)
    requires |walk| == |es|
    requires forall i :: 0 <= i < |walk| ==> step(walk[i]) == Ok([es[i]])
    ensures RunSteps(step, walk) == Ok(es)
    decreases |walk|
  {
    if |walk| > 0 {
      var n := |walk| - 1;
      var init := walk[..n];
      forall i | 0 <= i < n
        ensures step(init[i]) == Ok([es[..n][i]])
      {
        assert init[i] == walk[i];
      }
      RunSingles(step, init, es[..n]);
      assert es[..n] + [es[n]] == es;
    }
  }

  /** The entries the walk yields, packed in walk order; the first file
      that fails stops the whole pack. */
  function PackAll(walk: seq<WalkEntry>): Result<seq<KtslEntry>> {
    RunSteps(PackOne, walk)
  }

  /** The entries pushed before the first failing file: all of them when
      no file fails. */
  function PackedBefore(walk: seq<WalkEntry>): seq<KtslEntry>
    decreases |walk|
  {
    if |walk| == 0 then []
    else if PackAll(walk).Ok? then PackAll(walk).value
    else PackedBefore(walk[..|walk| - 1])
  }

  /** Once a prefix of the walk fails, every longer prefix fails with the
      same error and has pushed the same entries. */
  lemma {:induction false} PackFailurePersists(walk: seq<WalkEntry>, i: nat)
    requires i <= |walk| && PackAll(walk[..i]).Err?
    ensures PackAll(walk).Err? && PackAll(walk).error == PackAll(walk[..i]).error
    ensures PackedBefore(walk) == PackedBefore(walk[..i])
    decreases |walk| - i
  {
    if i < |walk| {
      var longer := walk[..i + 1];
      assert longer[..|longer| - 1] == walk[..i];
      PackFailurePersists(walk, i + 1);
    } else {
      assert walk[..i] == walk;
    }
  }

  /** Every entry of a successful pack has the shape `pack` gives. */
  lemma {:induction false} PackAllShaped(walk: seq<WalkEntry>)
    requires PackAll(walk).Ok?
    ensures forall i :: 0 <= i < |PackAll(walk).value| ==> PackShaped(PackAll(walk).value[i])
    decreases |walk|
  {
    if |walk| > 0 {
      PackAllShaped(walk[..|walk| - 1]);
      match walk[|walk| - 1]
      case Directory =>
      case File(stem, contents) =>
        PackFileShaped(stem, contents);
    }
  }

  /** A file as `unpack` writes it. */
  datatype Unpacked = Unpacked(name: string, contents: seq<u8>)

  /** `unpack` for one entry: the `{:08X}.ktss` name and the `Ktss` written
      on its own, from position 0. */
  function UnpackEntry(e: KtslEntry): Unpacked {
    Unpacked(UnpackName(e.linkId), EncodeKtss(e.ktss, 0))
  }

  /** Packing a file `unpack` wrote gives back the entry it came from. */
  lemma UnpackThenPack(e: KtslEntry)
    requires PackShaped(e)
    ensures PackFile(Some(FileStem(UnpackEntry(e).name)), UnpackEntry(e).contents) == Ok(e)
  {
    var bs := EncodeKtss(e.ktss, 0);
    HoldsWhole(bs);
    KtssRoundTrip(bs, 0, e.ktss);
    UnpackPackLinkId(e.linkId);
  }

  /** The walk over the files `unpack` writes, in the order it wrote them;
      each name is valid text, so its stem is always there. */
  function AsWalk(files: seq<Unpacked>): (walk: seq<WalkEntry>)
    ensures |walk| == |files|
    ensures forall i :: 0 <= i < |files| ==> walk[i] == File(Some(FileStem(files[i].name)), files[i].contents)
  {
    if |files| == 0 then [] else AsWalk(files[..|files| - 1]) + [File(Some(FileStem(files[|files| - 1].name)), files[|files| - 1].contents)]
  }

  /** Unpacking entries of the shape `pack` gives and packing the files in
      the same order gives back the entries. */
  lemma UnpackAllThenPack(es: seq<KtslEntry>)
    requires forall i :: 0 <= i < |es| ==> PackShaped(es[i])
    ensures PackAll(AsWalk(seq(|es|, i requires 0 <= i < |es| => UnpackEntry(es[i])))) == Ok(es)
  {
    var files := seq(|es|, i requires 0 <= i < |es| => UnpackEntry(es[i]));
    var walk := AsWalk(files);
    forall i | 0 <= i < |walk|
      ensures PackOne(walk[i]) == Ok([es[i]])
    {
      UnpackThenPack(es[i]);
    }
    RunSingles(PackOne, walk, es);
  }

  /** When the walk first fails at position `i`, the entries pushed are
      those packed from the files before it. */
  lemma PackedBeforeUpTo(walk: seq<WalkEntry>, i: nat)
    requires i < |walk| && PackAll(walk[..i]).Ok? && PackAll(walk[..i + 1]).Err?
    ensures PackedBefore(walk) == PackAll(walk[..i]).value
  {
    PackFailurePersists(walk, i + 1);
    var w := walk[..i + 1];
    assert w[..|w| - 1] == walk[..i];
  }

  /** `PackAll` of a longer walk from that of a shorter one, as the loop
      sees it. */
  lemma PackAllStep(walk: seq<WalkEntry>, i: nat)
    requires i < |walk| && PackAll(walk[..i]).Ok?
    ensures PackOne(walk[i]).Err? ==> PackAll(walk[..i + 1]) == Err(PackOne(walk[i]).error)
    ensures PackOne(walk[i]).Ok? ==> PackAll(walk[..i + 1]) == Ok(PackAll(walk[..i]).value + PackOne(walk[i]).value)
  {
    assert walk[..i + 1][..i] == walk[..i];
  }

  /** The stream table as `pack` and `unpack` see it. */
  class Ktsl2stbin {
    var header: Ktsr
    var entries: seq<KtslEntry>

    /** `Ktsl2stbin::new()`. */
    constructor ()
      ensures header == NewKtsr() && entries == []
    {
      header := NewKtsr();
      entries := [];
    }

    function Contents(): StbinFile
      reads this
    {
      StbinFile(header, entries)
    }

    /** `pack`: push one entry per file the walk yields, in walk order, then
        write the archive. The first file that fails ends the pack with its
        error (the source panics); the entries pushed before it stay. The
        header is not touched, `decomp_size` included. */
    method Pack(walk: seq<WalkEntry>) returns (r: Result<seq<u8>>)
      modifies this
      ensures header == old(header)
      ensures entries == old(entries) + PackedBefore(walk)
      ensures r.Ok? <==> PackAll(walk).Ok?
      ensures r.Err? ==> r.error == PackAll(walk).error
      ensures r.Ok? ==> r.value == EncodeStbin(Contents())
    {
      for i := 0 to |walk|
        invariant header == old(header)
        invariant PackAll(walk[..i]).Ok? && entries == old(entries) + PackAll(walk[..i]).value
      {
        PackAllStep(walk, i);
        var pushed := PackOne(walk[i]);
        if pushed.Err? {
          PackFailurePersists(walk, i + 1);
          PackedBeforeUpTo(walk, i);
          return Err(pushed.error);
        }
        entries := entries + pushed.value;
      }
      assert walk[..|walk|] == walk;
      return Ok(EncodeStbin(Contents()));
    }

    /** `unpack`: one file per entry, in entry order (the source writes them
        in parallel, each to its own path). */
    method Unpack() returns (files: seq<Unpacked>)
      ensures |files| == |entries|
      ensures forall i :: 0 <= i < |entries| ==> files[i] == UnpackEntry(entries[i])
    {
      files := [];
      for i := 0 to |entries|
        invariant |files| == i
        invariant forall k :: 0 <= k < i ==> files[k] == UnpackEntry(entries[k])
      {
        files := files + [UnpackEntry(entries[i])];
      }
    }
  }
}
