/** The generic container of src/ktsl.rs: the `Ktsr` header with its file
    type, platform and game read as closed enumerations, then magic-tagged
    sections from 0x40, read until the position reaches `decomp_size`.

    The section enumeration has the table of src/ktsl2asbin.rs, with the
    companion and stream variants named `Sound` and `Music`; it is the
    `Sections.Section` type here, where they are `Adpcm` and `Ktss`. */
module Ktsl {
  import opened Binary
  import opened Scan
  import opened Sections
  import Stbin
  import Asbin
  import Sound

  // ---------------------------------------------------------------------
  // The header enumerations: each accepts its listed values only

  datatype Platform = Switch
  datatype Game = ThreeHouses
  datatype Filetype = AgdpcmStorage | StreamTable

  function PlatformRepr(p: Platform): u16 {
    match p
    case Switch => 0x400
  }

  function GameRepr(g: Game): u32 {
    match g
    case ThreeHouses => 0xB75674CE
  }

  function FiletypeRepr(f: Filetype): u32 {
    match f
    case AgdpcmStorage => 0x1A487B77
    case StreamTable => 0xFCDD9402
  }

  function DecodePlatform(v: u16): (r: Result<Platform>)
    ensures r.Ok? <==> v == 0x400
    ensures r.Ok? ==> PlatformRepr(r.value) == v
    ensures r.Err? ==> r.error == BadEnumValue(v)
  {
    if v == 0x400 then Ok(Switch) else Err(BadEnumValue(v))
  }

  function DecodeGame(v: u32): (r: Result<Game>)
    ensures r.Ok? <==> v == 0xB75674CE
    ensures r.Ok? ==> GameRepr(r.value) == v
    ensures r.Err? ==> r.error == BadEnumValue(v)
  {
    if v == 0xB75674CE then Ok(ThreeHouses) else Err(BadEnumValue(v))
  }

  function DecodeFiletype(v: u32): (r: Result<Filetype>)
    ensures r.Ok? <==> v == 0x1A487B77 || v == 0xFCDD9402
    ensures r.Ok? ==> FiletypeRepr(r.value) == v
    ensures r.Err? ==> r.error == BadEnumValue(v)
  {
    if v == 0x1A487B77 then Ok(AgdpcmStorage)
    else if v == 0xFCDD9402 then Ok(StreamTable)
    else Err(BadEnumValue(v))
  }

  /** Every variant's value reads back as that variant. */
  lemma EnumsRoundTrip(p: Platform, g: Game, f: Filetype)
    ensures DecodePlatform(PlatformRepr(p)) == Ok(p)
    ensures DecodeGame(GameRepr(g)) == Ok(g)
    ensures DecodeFiletype(FiletypeRepr(f)) == Ok(f)
  {
  }

  // ---------------------------------------------------------------------
  // `Ktsr`

  datatype Ktsr = Ktsr(
    magic: seq<u8>, sectionType: Filetype, flags: u16, platformId: Platform, gameId: Game,
    padding: u64, decompSize: u32, compSize: u32)

  predicate KtsrValid(h: Ktsr) {
    |h.magic| == 4
  }

  /** The same header with the enumerations as the numbers stored for them. */
  function ToRaw(h: Ktsr): (raw: Stbin.Ktsr)
    ensures KtsrValid(h) <==> Stbin.KtsrValid(raw)
  {
    Stbin.Ktsr(h.magic, FiletypeRepr(h.sectionType), h.flags, PlatformRepr(h.platformId), GameRepr(h.gameId),
      h.padding, h.decompSize, h.compSize)
  }

  /** `Ktsr::new()`. */
  function NewKtsr(): (h: Ktsr)
    ensures KtsrValid(h) && h.magic == Stbin.KTSR_MAGIC
    ensures h.sectionType == StreamTable && h.flags == 1 && h.platformId == Switch && h.gameId == ThreeHouses
    ensures h.padding == 0 && h.decompSize == 0 && h.compSize == 0
  {
    Ktsr(Stbin.KTSR_MAGIC, StreamTable, 1, Switch, ThreeHouses, 0, 0, 0)
  }

  /** `Ktsr::read`: field by field, so data that ends early fails at the
      first field it cuts, and an enumeration value outside the list fails
      once that field is read. The magic is not checked. */
  function DecodeKtsr(data: seq<u8>): (r: Result<Parsed<Ktsr>>)
    ensures r.Ok? ==> KtsrValid(r.value.value) && r.value.next == Stbin.KTSR_FIELDS
  {
    if |data| < 8 then Err(UnexpectedEof)
    else
      var ft :- DecodeFiletype(U32At(data, 4, Little));
      if |data| < 0xC then Err(UnexpectedEof)
      else
        var pl :- DecodePlatform(U16At(data, 0xA, Little));
        if |data| < 0x10 then Err(UnexpectedEof)
        else
          var gm :- DecodeGame(U32At(data, 0xC, Little));
          if |data| < Stbin.KTSR_FIELDS then Err(UnexpectedEof)
          else Ok(Parsed(Ktsr(Slice(data, 0, 4), ft, U16At(data, 8, Little), pl, gm, U64At(data, 0x10),
            U32At(data, 0x18, Little), U32At(data, 0x1C, Little)), Stbin.KTSR_FIELDS))
  }

  /** The enumerated header reads what the raw header reads, whenever the
      three stored numbers are listed values; otherwise it fails on the
      first that is not. */
  lemma KtsrAgreesWithRaw(data: seq<u8>)
    requires Stbin.KTSR_FIELDS <= |data|
    ensures var raw := Stbin.DecodeKtsr(data).value.value;
      && (DecodeKtsr(data).Ok? ==> raw == ToRaw(DecodeKtsr(data).value.value))
      && (DecodeKtsr(data).Ok? <==>
            DecodeFiletype(raw.sectionType).Ok? && DecodePlatform(raw.platformId).Ok? && DecodeGame(raw.gameId).Ok?)
      && (DecodeFiletype(raw.sectionType).Err? ==> DecodeKtsr(data) == Err(BadEnumValue(raw.sectionType)))
      && (DecodeFiletype(raw.sectionType).Ok? && DecodePlatform(raw.platformId).Err? ==>
            DecodeKtsr(data) == Err(BadEnumValue(raw.platformId)))
      && (DecodeFiletype(raw.sectionType).Ok? && DecodePlatform(raw.platformId).Ok? && DecodeGame(raw.gameId).Err? ==>
            DecodeKtsr(data) == Err(BadEnumValue(raw.gameId)))
  {
    var raw := Stbin.DecodeKtsr(data).value.value;
    assert Stbin.KtsrAt(data, raw);
  }

  /** The header written with the numbers of its enumerations. */
  function EncodeKtsr(h: Ktsr): (bs: seq<u8>)
    ensures KtsrValid(h) ==> |bs| == Stbin.ENTRIES_START
  {
    Stbin.EncodeKtsr(ToRaw(h))
  }

  lemma KtsrRoundTrip(data: seq<u8>, h: Ktsr)
    requires KtsrValid(h) && Holds(data, 0, EncodeKtsr(h))
    ensures DecodeKtsr(data) == Ok(Parsed(h, Stbin.KTSR_FIELDS))
  {
    Stbin.KtsrRoundTrip(data, ToRaw(h));
    KtsrAgreesWithRaw(data);
    EnumsRoundTrip(h.platformId, h.gameId, h.sectionType);
  }

  // ---------------------------------------------------------------------
  // The container

  datatype KtslFile = KtslFile(header: Ktsr, entries: seq<Section>)

  /** `Ktsl::read_options`: the header, a seek to 0x40, then sections until
      the position, as a `u32`, equals `decomp_size`. */
  function DecodeKtsl(data: seq<u8>): (r: Result<KtslFile>)
    ensures r.Ok? ==> KtsrValid(r.value.header)
  {
    SectionAdvances();
    var h :- DecodeKtsr(data);
    var es :- ScanFrom(DecodeSection, data, Stbin.ENTRIES_START, h.value.decompSize);
    Ok(KtslFile(h.value, es))
  }

  /** `Ktsl` and `Ktsl2asbin` read the same sections from the same bytes;
      `Ktsl` only adds the check of the header's enumerations. */
  lemma KtslAgreesWithAsbin(data: seq<u8>)
    ensures DecodeKtsl(data).Ok? ==>
      Asbin.DecodeAsbin(data) == Ok(Asbin.AsbinFile(ToRaw(DecodeKtsl(data).value.header), DecodeKtsl(data).value.entries))
    ensures Asbin.DecodeAsbin(data).Ok? && DecodeKtsr(data).Ok? ==> DecodeKtsl(data).Ok?
  {
    if Stbin.KTSR_FIELDS <= |data| {
      KtsrAgreesWithRaw(data);
    }
  }

  /** A container with all sections valid, below 4 GiB and with
      `decomp_size` its own length, reads back as itself from the bytes of
      its header and sections. */
  lemma KtslRoundTrip(f: KtslFile)
    requires KtsrValid(f.header) && Asbin.SectionsValid(f.entries)
    requires f.header.decompSize as nat == Asbin.SectionsEnd(f.entries)
    ensures DecodeKtsl(Asbin.EncodeAsbin(Asbin.AsbinFile(ToRaw(f.header), f.entries))) == Ok(f)
  {
    var a := Asbin.AsbinFile(ToRaw(f.header), f.entries);
    var data := Asbin.EncodeAsbin(a);
    Asbin.AsbinRoundTrip(a);
    Asbin.AsbinParts(a);
    HoldsWhole(data);
    HoldsSplit(data, 0, Stbin.EncodeKtsr(ToRaw(f.header)), Asbin.EncodeSections(a.entries, Stbin.ENTRIES_START));
    KtsrRoundTrip(data, f.header);
    KtslAgreesWithAsbin(data);
  }

  /** The container held in memory. */
  class Ktsl {
    var header: Ktsr
    var entries: seq<Section>

    /** `Ktsl::new_asbin()`. */
    constructor NewAsbin()
      ensures header == NewKtsr().(sectionType := AgdpcmStorage) && entries == []
    {
      header := NewKtsr().(sectionType := AgdpcmStorage);
      entries := [];
    }

    /** `Ktsl::new_stbin()`. */
    constructor NewStbin()
      ensures header == NewKtsr().(sectionType := StreamTable) && entries == []
    {
      header := NewKtsr().(sectionType := StreamTable);
      entries := [];
    }

    /** The `read_options` loop. */
    static method Read(data: seq<u8>) returns (r: Result<KtslFile>)
      ensures r == DecodeKtsl(data)
    {
      var h := DecodeKtsr(data);
      if h.Err? {
        return Err(h.error);
      }
      SectionAdvances();
      var es := ReadUntil(DecodeSection, data, Stbin.ENTRIES_START, h.value.value.decompSize);
      if es.Err? {
        return Err(es.error);
      }
      r := Ok(KtslFile(h.value.value, es.value));
    }

    /** `get_companion_sections`: a reference to each companion section, in
        order, given here as its index in `entries`. */
    method GetCompanionSections() returns (refs: seq<nat>)
      ensures refs == CompanionIndices(entries)
      ensures forall k :: 0 <= k < |refs| ==> entries[refs[k]] == Adpcm(Companions(entries)[k])
    {
      refs := CompanionIndices(entries);
      CompanionsAtIndices(entries);
    }

    /** A write through one of those references: the section at `ref`
        becomes the companion `c`, and no other section changes. */
    method SetCompanion(ref: nat, c: Sound.KtssCompanionSection)
      requires ref < |entries| && entries[ref].Adpcm?
      modifies this
      ensures header == old(header)
      ensures entries == old(entries)[ref := Adpcm(c)]
    {
      entries := entries[ref := Adpcm(c)];
    }
  }

  /** The two constructors differ in the file type alone, and `new_stbin`
      keeps that of `Ktsr::new()`. */
  lemma NewHeadersDiffer()
    ensures NewKtsr().(sectionType := StreamTable) == NewKtsr()
    ensures NewKtsr().(sectionType := AgdpcmStorage) != NewKtsr()
    ensures NewKtsr().(sectionType := AgdpcmStorage).(sectionType := StreamTable) == NewKtsr()
  {
  }
}
