/** The sound bank container of src/ktsl2asbin.rs: the raw `Ktsr` header of
    the stream table, then magic-tagged sections from 0x40, read until the
    position reaches `decomp_size` and written by `write_sections`, whose
    result is that of the last section alone. */
module Asbin {
  import opened Binary
  import opened Scan
  import opened Sections
  import opened Stbin
  import opened Sound

  datatype AsbinFile = AsbinFile(header: Ktsr, entries: seq<Section>)

  predicate SectionsValid(es: seq<Section>) {
    forall i :: 0 <= i < |es| ==> SectionValid(es[i])
  }

  /** Where the sections written from 0x40 end. */
  function SectionsEnd(es: seq<Section>): nat {
    Starts(SectionEnd, es, ENTRIES_START)[|es|]
  }

  /** The bytes `write_sections` hands the writer for sections starting at
      `at`. */
  function EncodeSections(es: seq<Section>, at: nat): seq<u8> {
    EncodeAll(EncodeSection, SectionEnd, es, at)
  }

  /** `Ktsl2asbin` as its derived `write` lays it out: the header padded to
      0x40, then the sections. */
  function EncodeAsbin(a: AsbinFile): (bs: seq<u8>)
    ensures KtsrValid(a.header) ==> |bs| == SectionsEnd(a.entries)
  {
    SectionFits();
    EncodeAllLength(EncodeSection, SectionEnd, a.entries, ENTRIES_START);
    EncodeKtsr(a.header) + EncodeSections(a.entries, ENTRIES_START)
  }

  /** `Ktsl2asbin::read_options`: the header, a seek to 0x40, then sections
      until the position, as a `u32`, equals `decomp_size`; a section that
      does not decode fails the read. */
  function DecodeAsbin(data: seq<u8>): (r: Result<AsbinFile>)
    ensures r.Ok? ==> KtsrValid(r.value.header) && KtsrAt(data, r.value.header)
  {
    SectionAdvances();
    var h :- DecodeKtsr(data);
    var es :- ScanFrom(DecodeSection, data, ENTRIES_START, h.value.decompSize);
    Ok(AsbinFile(h.value, es))
  }

  /** The `read_options` loop. */
  method ReadKtsl2asbin(data: seq<u8>) returns (r: Result<AsbinFile>)
    ensures r == DecodeAsbin(data)
  {
    var h := DecodeKtsr(data);
    if h.Err? {
      return Err(h.error);
    }
    SectionAdvances();
    var es := ReadUntil(DecodeSection, data, ENTRIES_START, h.value.value.decompSize);
    if es.Err? {
      return Err(es.error);
    }
    r := Ok(AsbinFile(h.value.value, es.value));
  }

  /** What a successful read holds: valid sections, each read where the one
      before it ended, behind the magic of its variant, the first at 0x40;
      the position meets `decomp_size` after the last section and at no
      earlier section. */
  lemma AsbinReadStops(data: seq<u8>)
    requires DecodeAsbin(data).Ok?
    ensures var a := DecodeAsbin(data).value; var ps := ScanPositions(DecodeSection, data, ENTRIES_START, a.header.decompSize);
      && SectionsValid(a.entries)
      && |ps| == |a.entries| + 1 && ps[0] == ENTRIES_START
      && ps[|a.entries|] % U32_MOD == a.header.decompSize as nat
      && (forall i :: 0 <= i < |a.entries| ==> ps[i] % U32_MOD != a.header.decompSize as nat)
      && (forall i :: 0 <= i < |a.entries| ==>
            && ps[i + 1] == SectionEnd(a.entries[i], ps[i])
            && ps[i] + 4 <= |data| && U32At(data, ps[i], Little) == MagicOf(a.entries[i]))
  {
    SectionAdvances();
    var h := DecodeKtsr(data).value.value;
    var es := ScanFrom(DecodeSection, data, ENTRIES_START, h.decompSize).value;
    assert DecodeAsbin(data).value == AsbinFile(h, es);
    var ps := ScanPositions(DecodeSection, data, ENTRIES_START, h.decompSize);
    ScanStops(DecodeSection, data, ENTRIES_START, h.decompSize);
    forall i | 0 <= i < |es|
      ensures SectionValid(es[i]) && ps[i + 1] == SectionEnd(es[i], ps[i])
      ensures ps[i] + 4 <= |data| && U32At(data, ps[i], Little) == MagicOf(es[i])
    {
      assert DecodeSection(data, ps[i]) == Ok(Parsed(es[i], ps[i + 1]));
    }
  }

  /** The bytes `write` produces hold the header where `read` looks for it
      and the sections from 0x40. */
  lemma AsbinParts(a: AsbinFile)
    requires KtsrValid(a.header)
    ensures DecodeKtsr(EncodeAsbin(a)) == Ok(Parsed(a.header, KTSR_FIELDS))
    ensures Holds(EncodeAsbin(a), ENTRIES_START, EncodeSections(a.entries, ENTRIES_START))
  {
    var data := EncodeAsbin(a);
    HoldsWhole(data);
    HoldsSplit(data, 0, EncodeKtsr(a.header), EncodeSections(a.entries, ENTRIES_START));
    KtsrRoundTrip(data, a.header);
  }

  /** A bank below 4 GiB whose `decomp_size` is its own length, and which
      holds no `Unknown` section that `Info1` would take, reads back as
      itself. */
  lemma AsbinRoundTrip(a: AsbinFile)
    requires KtsrValid(a.header) && SectionsValid(a.entries)
    requires a.header.decompSize as nat == SectionsEnd(a.entries)
    ensures DecodeAsbin(EncodeAsbin(a)) == Ok(a)
  {
    AsbinParts(a);
    SectionAdvances();
    SectionFits();
    SectionRoundTrips();
    ScanReadsBack(EncodeSection, SectionEnd, DecodeSection, SectionValid,
      EncodeAsbin(a), ENTRIES_START, a.entries, a.header.decompSize);
  }

  /** `write_sections`: each section, in order, as its magic and its body.
      Whether the writer takes the bytes of the section at index `i` is
      `accepts(i)`; the result kept is that of the last section, so earlier
      failures are lost, and an empty list gives `Ok`. */
  method WriteSections(es: seq<Section>, at: nat, accepts: nat -> bool) returns (bytes: seq<u8>, r: Result<()>)
    ensures bytes == EncodeSections(es, at)
    ensures |es| == 0 ==> r == Ok(())
    ensures |es| > 0 ==> (r.Ok? <==> accepts(|es| - 1))
    ensures |es| > 0 && r.Err? ==> r.error == WriteFailed(|es| - 1)
  {
    bytes, r := WriteEach(EncodeSection, SectionEnd, es, at, accepts);
  }

  /** The sound bank held in memory. */
  class Ktsl2asbin {
    var header: Ktsr
    var entries: seq<Section>

    /** `Ktsl2asbin::new()`. */
    constructor ()
      ensures header == NewKtsr() && entries == []
    {
      header := NewKtsr();
      entries := [];
    }

    function Contents(): AsbinFile
      reads this
    {
      AsbinFile(header, entries)
    }

    /** `pack`: the header, then `write_sections`, whose result decides
        whether the write succeeded. */
    method Pack(accepts: nat -> bool) returns (r: Result<seq<u8>>)
      requires KtsrValid(header)
      ensures r.Ok? <==> |entries| == 0 || accepts(|entries| - 1)
      ensures r.Ok? ==> r.value == EncodeAsbin(Contents())
    {
      var bytes, written := WriteSections(entries, ENTRIES_START, accepts);
      if written.Err? {
        return Err(written.error);
      }
      r := Ok(EncodeKtsr(header) + bytes);
    }

    /** `get_companion_sections`: a reference to each `Adpcm` section, in
        order, given here as its index in `entries`. */
    method GetCompanionSections() returns (refs: seq<nat>)
      ensures refs == CompanionIndices(entries)
      ensures forall k :: 0 <= k < |refs| ==> entries[refs[k]] == Adpcm(Companions(entries)[k])
    {
      refs := CompanionIndices(entries);
      CompanionsAtIndices(entries);
    }

    /** A write through one of those references: the section at `ref`
        becomes the companion `c`, and no other section changes. */
    method SetCompanion(ref: nat, c: KtssCompanionSection)
      requires ref < |entries| && entries[ref].Adpcm?
      modifies this
      ensures header == old(header)
      ensures entries == old(entries)[ref := Adpcm(c)]
    {
      entries := entries[ref := Adpcm(c)];
    }
  }
}
