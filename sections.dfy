/** The magic-tagged `Section` enum of src/ktsl2asbin.rs (repeated, with the
    variants named `Sound` and `Music`, in src/ktsl.rs): a little-endian
    `u32` magic, then the body it names. Reading tries the variants in
    declaration order and takes the first whose magic matches and whose body
    decodes; 0x368C88BD is declared twice, for `Info1` and, last, `Unknown`.
    Writing (`write_sections`) puts each section's magic before its body.

    Bodies are read and written at absolute positions, because the `Ktss`
    inside a stream entry is aligned relative to the start of the
    container. */
module Sections {
  import opened Binary
  import opened Scan
  import opened Info
  import opened Sound
  import opened Padding
  import opened Unknown
  import Music

  datatype Section =
    | Info1(info: InfoSection)
    | Adpcm(adpcm: KtssCompanionSection)
    | Ktss(ktss: Music.MusicSection)
    | Padding(padding: PaddingSection)
    | Unknown(unknown: UnknownSection)

  const INFO1_MAGIC: u32 := 0x368C88BD
  const ADPCM_MAGIC: u32 := 0x70CBCCC5
  const KTSS_MAGIC: u32 := 0x15F4D409
  const PADDING_MAGIC: u32 := 0xA8DB7261

  /** The magic `write_sections` puts before each variant. */
  function MagicOf(s: Section): u32 {
    match s
    case Info1(_) => INFO1_MAGIC
    case Adpcm(_) => ADPCM_MAGIC
    case Ktss(_) => KTSS_MAGIC
    case Padding(_) => PADDING_MAGIC
    case Unknown(_) => INFO1_MAGIC
  }

  /** A section that reads back as itself: its body is well formed, and an
      `Unknown` is one that `Info1`, tried first, does not take. */
  predicate SectionValid(s: Section) {
    match s
    case Info1(i) => InfoValid(i)
    case Adpcm(c) => CompanionValid(c)
    case Ktss(k) => Music.KtssValid(k.ktss)
    case Padding(p) => PaddingValid(p)
    case Unknown(u) => UnknownValid(u) && u.sectionSize < INFO_FIXED
  }

  /** The body of a section whose magic ends at `body`. */
  function EncodeBody(s: Section, body: nat): seq<u8> {
    match s
    case Info1(i) => EncodeInfo(i)
    case Adpcm(c) => EncodeCompanion(c)
    case Ktss(k) => Music.EncodeMusicSection(k, body)
    case Padding(p) => EncodePadding(p)
    case Unknown(u) => EncodeUnknown(u)
  }

  /** Where a section written at `at` ends. */
  function SectionEnd(s: Section, at: nat): (p: nat)
    ensures at + 4 < p
  {
    match s
    case Ktss(k) => Music.MusicSectionEnd(k, at + 4)
    case _ => at + 4 + |EncodeBody(s, at + 4)|
  }

  /** One section as `write_sections` writes it: magic, then body. */
  function EncodeSection(s: Section, at: nat): (bs: seq<u8>)
    ensures at + |bs| == SectionEnd(s, at)
  {
    U32Bytes(MagicOf(s), Little) + EncodeBody(s, at + 4)
  }

  // ---------------------------------------------------------------------
  // Reading: one attempt per variant

  function TryInfo1(data: seq<u8>, body: nat): Result<Parsed<Section>> {
    var r :- DecodeInfo(data, body);
    Ok(Parsed(Info1(r.value), r.next))
  }

  function TryAdpcm(data: seq<u8>, body: nat): Result<Parsed<Section>> {
    var r :- DecodeCompanion(data, body);
    Ok(Parsed(Adpcm(r.value), r.next))
  }

  function TryKtss(data: seq<u8>, body: nat): Result<Parsed<Section>> {
    var r :- Music.DecodeMusicSection(data, body);
    Ok(Parsed(Ktss(r.value), r.next))
  }

  function TryPadding(data: seq<u8>, body: nat): Result<Parsed<Section>> {
    var r :- DecodePadding(data, body);
    Ok(Parsed(Padding(r.value), r.next))
  }

  function TryUnknown(data: seq<u8>, body: nat): Result<Parsed<Section>> {
    var r :- DecodeUnknown(data, body);
    Ok(Parsed(Unknown(r.value), r.next))
  }

  /** An `Unknown` body with `section_size` of at least 0x1C also decodes
      as an `InfoSection`: the info record needs 4 bytes fewer. */
  lemma UnknownRereadsAsInfo(data: seq<u8>, body: nat)
    requires DecodeUnknown(data, body).Ok? && DecodeUnknown(data, body).value.value.sectionSize >= INFO_FIXED
    ensures DecodeInfo(data, body).Ok?
  {
    var u := DecodeUnknown(data, body).value.value;
    assert body + 8 <= |data| && U32At(data, body, Little) == u.sectionSize;
    assert body + u.sectionSize <= |data|;
  }

  /** So an `Unknown` body that `Info1` does not take is shorter than an
      info record. */
  lemma UnknownBelowInfo(data: seq<u8>, body: nat)
    requires DecodeUnknown(data, body).Ok? && DecodeInfo(data, body).Err?
    ensures DecodeUnknown(data, body).value.value.sectionSize < INFO_FIXED
  {
    if DecodeUnknown(data, body).value.value.sectionSize >= INFO_FIXED {
      UnknownRereadsAsInfo(data, body);
    }
  }

  /** `Section::read`: the first variant, in declaration order, whose magic
      matches and whose body decodes. */
  function DecodeSection(data: seq<u8>, at: nat): (r: Result<Parsed<Section>>)
    ensures r.Ok? ==> at + 4 <= |data| && U32At(data, at, Little) == MagicOf(r.value.value)
    ensures r.Ok? ==> SectionValid(r.value.value) && r.value.next == SectionEnd(r.value.value, at)
  {
    if at + 4 <= |data| then
      var m, body := U32At(data, at, Little), at + 4;
      if m == INFO1_MAGIC && TryInfo1(data, body).Ok? then TryInfo1(data, body)
      else if m == ADPCM_MAGIC && TryAdpcm(data, body).Ok? then TryAdpcm(data, body)
      else if m == KTSS_MAGIC && TryKtss(data, body).Ok? then TryKtss(data, body)
      else if m == PADDING_MAGIC && TryPadding(data, body).Ok? then TryPadding(data, body)
      else if m == INFO1_MAGIC && TryUnknown(data, body).Ok? then
        UnknownBelowInfo(data, body);
        TryUnknown(data, body)
      else Err(NoVariantMatched(at))
    else Err(NoVariantMatched(at))
  }

  /** Which variant reads a section depends on its magic alone, except that
      0x368C88BD goes to `Info1` when an info record decodes there and to
      `Unknown` otherwise; any other magic fails. */
  lemma SectionDispatch(data: seq<u8>, at: nat)
    requires at + 4 <= |data|
    ensures var m, r := U32At(data, at, Little), DecodeSection(data, at);
      && (m != INFO1_MAGIC && m != ADPCM_MAGIC && m != KTSS_MAGIC && m != PADDING_MAGIC ==> r == Err(NoVariantMatched(at)))
      && (m == ADPCM_MAGIC ==> (r.Ok? <==> DecodeCompanion(data, at + 4).Ok?) && (r.Ok? ==> r.value.value.Adpcm?))
      && (m == KTSS_MAGIC ==> (r.Ok? <==> Music.DecodeMusicSection(data, at + 4).Ok?) && (r.Ok? ==> r.value.value.Ktss?))
      && (m == PADDING_MAGIC ==> (r.Ok? <==> DecodePadding(data, at + 4).Ok?) && (r.Ok? ==> r.value.value.Padding?))
      && (m == INFO1_MAGIC && DecodeInfo(data, at + 4).Ok? ==> r.Ok? && r.value.value.Info1?)
      && (m == INFO1_MAGIC && DecodeInfo(data, at + 4).Err? ==>
            (r.Ok? <==> DecodeUnknown(data, at + 4).Ok?) && (r.Ok? ==> r.value.value.Unknown?))
  {
  }

  /** The magic of a section in the bytes written for it, and its body
      just after. */
  lemma MagicThenBody(data: seq<u8>, at: nat, s: Section)
    requires Holds(data, at, EncodeSection(s, at))
    ensures at + 4 <= |data| && U32At(data, at, Little) == MagicOf(s)
    ensures Holds(data, at + 4, EncodeBody(s, at + 4))
  {
    HoldsSplit(data, at, U32Bytes(MagicOf(s), Little), EncodeBody(s, at + 4));
    U32Cancel(data, at, MagicOf(s), Little);
  }

  /** `Info1` is taken wherever its magic is followed by an info record. */
  lemma ReadsInfo1(data: seq<u8>, at: nat, i: InfoSection, next: nat)
    requires at + 4 <= |data| && U32At(data, at, Little) == INFO1_MAGIC
    requires DecodeInfo(data, at + 4) == Ok(Parsed(i, next))
    ensures DecodeSection(data, at) == Ok(Parsed(Info1(i), next))
  {
  }

  lemma ReadsAdpcm(data: seq<u8>, at: nat, c: KtssCompanionSection, next: nat)
    requires at + 4 <= |data| && U32At(data, at, Little) == ADPCM_MAGIC
    requires DecodeCompanion(data, at + 4) == Ok(Parsed(c, next))
    ensures DecodeSection(data, at) == Ok(Parsed(Adpcm(c), next))
  {
  }

  lemma ReadsKtss(data: seq<u8>, at: nat, k: Music.MusicSection, next: nat)
    requires at + 4 <= |data| && U32At(data, at, Little) == KTSS_MAGIC
    requires Music.DecodeMusicSection(data, at + 4) == Ok(Parsed(k, next))
    ensures DecodeSection(data, at) == Ok(Parsed(Ktss(k), next))
  {
  }

  lemma ReadsPadding(data: seq<u8>, at: nat, p: PaddingSection, next: nat)
    requires at + 4 <= |data| && U32At(data, at, Little) == PADDING_MAGIC
    requires DecodePadding(data, at + 4) == Ok(Parsed(p, next))
    ensures DecodeSection(data, at) == Ok(Parsed(Padding(p), next))
  {
  }

  /** `Unknown` is taken behind 0x368C88BD only where no info record
      decodes. */
  lemma ReadsUnknown(data: seq<u8>, at: nat, u: UnknownSection, next: nat)
    requires at + 4 <= |data| && U32At(data, at, Little) == INFO1_MAGIC
    requires DecodeInfo(data, at + 4).Err? && DecodeUnknown(data, at + 4) == Ok(Parsed(u, next))
    ensures DecodeSection(data, at) == Ok(Parsed(Unknown(u), next))
  {
  }

  lemma PaddingSectionRoundTrip(data: seq<u8>, at: nat, p: PaddingSection)
    requires PaddingValid(p) && Holds(data, at, EncodeSection(Padding(p), at))
    ensures DecodeSection(data, at) == Ok(Parsed(Padding(p), SectionEnd(Padding(p), at)))
  {
    MagicThenBody(data, at, Padding(p));
    PaddingRoundTrip(data, at + 4, p);
    ReadsPadding(data, at, p, SectionEnd(Padding(p), at));
  }

  lemma InfoSectionRoundTrip(data: seq<u8>, at: nat, i: InfoSection)
    requires InfoValid(i) && Holds(data, at, EncodeSection(Info1(i), at))
    ensures DecodeSection(data, at) == Ok(Parsed(Info1(i), SectionEnd(Info1(i), at)))
  {
    MagicThenBody(data, at, Info1(i));
    InfoRoundTrip(data, at + 4, i);
    ReadsInfo1(data, at, i, SectionEnd(Info1(i), at));
  }

  lemma AdpcmSectionRoundTrip(data: seq<u8>, at: nat, c: KtssCompanionSection)
    requires CompanionValid(c) && Holds(data, at, EncodeSection(Adpcm(c), at))
    ensures DecodeSection(data, at) == Ok(Parsed(Adpcm(c), SectionEnd(Adpcm(c), at)))
  {
    MagicThenBody(data, at, Adpcm(c));
    CompanionRoundTrip(data, at + 4, c);
    ReadsAdpcm(data, at, c, SectionEnd(Adpcm(c), at));
  }

  lemma KtssSectionRoundTrip(data: seq<u8>, at: nat, k: Music.MusicSection)
    requires Music.KtssValid(k.ktss) && Holds(data, at, EncodeSection(Ktss(k), at))
    ensures DecodeSection(data, at) == Ok(Parsed(Ktss(k), SectionEnd(Ktss(k), at)))
  {
    MagicThenBody(data, at, Ktss(k));
    Music.MusicSectionRoundTrip(data, at + 4, k);
    ReadsKtss(data, at, k, SectionEnd(Ktss(k), at));
  }

  lemma UnknownSectionRoundTrip(data: seq<u8>, at: nat, u: UnknownSection)
    requires UnknownValid(u) && u.sectionSize < INFO_FIXED && Holds(data, at, EncodeSection(Unknown(u), at))
    ensures DecodeSection(data, at) == Ok(Parsed(Unknown(u), SectionEnd(Unknown(u), at)))
  {
    MagicThenBody(data, at, Unknown(u));
    UnknownRoundTrip(data, at + 4, u);
    assert DecodeInfo(data, at + 4).Err?;
    ReadsUnknown(data, at, u, SectionEnd(Unknown(u), at));
  }

  /** A valid section in the bytes `write_sections` writes for it reads back
      as itself, and the read ends where the bytes end. */
  lemma SectionRoundTrip(data: seq<u8>, at: nat, s: Section)
    requires SectionValid(s) && Holds(data, at, EncodeSection(s, at))
    ensures DecodeSection(data, at) == Ok(Parsed(s, SectionEnd(s, at)))
  {
    match s
    case Info1(i) => InfoSectionRoundTrip(data, at, i);
    case Adpcm(c) => AdpcmSectionRoundTrip(data, at, c);
    case Ktss(k) => KtssSectionRoundTrip(data, at, k);
    case Padding(p) => PaddingSectionRoundTrip(data, at, p);
    case Unknown(u) => UnknownSectionRoundTrip(data, at, u);
  }

  /** An `Unknown` section written with `section_size` of at least 0x1C is
      read back as an `Info1`: the writer and the reader agree on the magic
      but not on the variant. */
  lemma UnknownWrittenReadsAsInfo(data: seq<u8>, at: nat, u: UnknownSection)
    requires UnknownValid(u) && u.sectionSize >= INFO_FIXED && Holds(data, at, EncodeSection(Unknown(u), at))
    ensures DecodeSection(data, at).Ok? && DecodeSection(data, at).value.value.Info1?
  {
    UnknownWrittenHoldsInfo(data, at, u);
    var i := DecodeInfo(data, at + 4).value;
    ReadsInfo1(data, at, i.value, i.next);
  }

  /** Behind the magic of such a section, an info record decodes. */
  lemma UnknownWrittenHoldsInfo(data: seq<u8>, at: nat, u: UnknownSection)
    requires UnknownValid(u) && u.sectionSize >= INFO_FIXED && Holds(data, at, EncodeSection(Unknown(u), at))
    ensures at + 4 <= |data| && U32At(data, at, Little) == INFO1_MAGIC
    ensures DecodeInfo(data, at + 4).Ok?
  {
    MagicThenBody(data, at, Unknown(u));
    UnknownRoundTrip(data, at + 4, u);
    UnknownRereadsAsInfo(data, at + 4);
  }

  /** What a successful read took apart: the magic of its variant, and a
      body that the variant's own decoder reads up to the same position. */
  lemma DecodedBody(data: seq<u8>, at: nat)
    requires DecodeSection(data, at).Ok?
    ensures var r := DecodeSection(data, at).value;
      && at + 4 <= |data| && U32At(data, at, Little) == MagicOf(r.value)
      && match r.value
         case Info1(i) => DecodeInfo(data, at + 4) == Ok(Parsed(i, r.next))
         case Adpcm(c) => DecodeCompanion(data, at + 4) == Ok(Parsed(c, r.next))
         case Ktss(k) => Music.DecodeMusicSection(data, at + 4) == Ok(Parsed(k, r.next))
         case Padding(p) => DecodePadding(data, at + 4) == Ok(Parsed(p, r.next))
         case Unknown(u) => DecodeUnknown(data, at + 4) == Ok(Parsed(u, r.next))
  {
  }

  /** The magic put back before a body in place gives the section's bytes. */
  lemma MagicBeforeBody(data: seq<u8>, at: nat, s: Section)
    requires at + 4 <= |data| && U32At(data, at, Little) == MagicOf(s)
    requires Holds(data, at + 4, EncodeBody(s, at + 4))
    ensures Holds(data, at, EncodeSection(s, at))
  {
    U32Holds(data, at, Little);
    HoldsJoin(data, at, U32Bytes(MagicOf(s), Little), EncodeBody(s, at + 4));
  }

  lemma InfoSectionReencode(data: seq<u8>, at: nat, i: InfoSection, next: nat)
    requires at + 4 <= |data| && U32At(data, at, Little) == INFO1_MAGIC
    requires DecodeInfo(data, at + 4) == Ok(Parsed(i, next))
    ensures Holds(data, at, EncodeSection(Info1(i), at))
  {
    InfoReencode(data, at + 4);
    MagicBeforeBody(data, at, Info1(i));
  }

  lemma AdpcmSectionReencode(data: seq<u8>, at: nat, c: KtssCompanionSection, next: nat)
    requires at + 4 <= |data| && U32At(data, at, Little) == ADPCM_MAGIC
    requires DecodeCompanion(data, at + 4) == Ok(Parsed(c, next))
    ensures Holds(data, at, EncodeSection(Adpcm(c), at))
  {
    CompanionReencode(data, at + 4);
    MagicBeforeBody(data, at, Adpcm(c));
  }

  lemma PaddingSectionReencode(data: seq<u8>, at: nat, p: PaddingSection, next: nat)
    requires at + 4 <= |data| && U32At(data, at, Little) == PADDING_MAGIC
    requires DecodePadding(data, at + 4) == Ok(Parsed(p, next))
    ensures Holds(data, at, EncodeSection(Padding(p), at))
  {
    PaddingReencode(data, at + 4);
    MagicBeforeBody(data, at, Padding(p));
  }

  lemma UnknownSectionReencode(data: seq<u8>, at: nat, u: UnknownSection, next: nat)
    requires at + 4 <= |data| && U32At(data, at, Little) == INFO1_MAGIC
    requires DecodeUnknown(data, at + 4) == Ok(Parsed(u, next))
    ensures Holds(data, at, EncodeSection(Unknown(u), at))
  {
    UnknownReencode(data, at + 4);
    MagicBeforeBody(data, at, Unknown(u));
  }

  /** Decode then encode gives back the bytes read, trailers included, for
      every variant but `Ktss`, whose alignment gaps are skipped on read. */
  lemma SectionReencode(data: seq<u8>, at: nat)
    requires DecodeSection(data, at).Ok? && !DecodeSection(data, at).value.value.Ktss?
    ensures Holds(data, at, EncodeSection(DecodeSection(data, at).value.value, at))
  {
    var r := DecodeSection(data, at).value;
    DecodedBody(data, at);
    match r.value
    case Info1(i) => InfoSectionReencode(data, at, i, r.next);
    case Adpcm(c) => AdpcmSectionReencode(data, at, c, r.next);
    case Padding(p) => PaddingSectionReencode(data, at, p, r.next);
    case Unknown(u) => UnknownSectionReencode(data, at, u, r.next);
  }

  // ---------------------------------------------------------------------
  // The section codec as a record codec of the archive scan

  lemma SectionAdvances()
    ensures Advances(DecodeSection)
  {
  }

  lemma SectionFits()
    ensures Fits(EncodeSection, SectionEnd)
  {
  }

  lemma SectionRoundTrips()
    ensures RoundTrips(EncodeSection, SectionEnd, DecodeSection, SectionValid)
  {
    forall data: seq<u8>, p: nat, s: Section | SectionValid(s) && Holds(data, p, EncodeSection(s, p))
      ensures DecodeSection(data, p) == Ok(Parsed(s, SectionEnd(s, p)))
    {
      SectionRoundTrip(data, p, s);
    }
  }

  // ---------------------------------------------------------------------
  // `get_companion_sections`

  /** The indices of the `Adpcm` sections, in order. */
  function CompanionIndices(es: seq<Section>): (ix: seq<nat>)
    ensures forall k :: 0 <= k < |ix| ==> ix[k] < |es| && es[ix[k]].Adpcm?
    ensures forall k, l :: 0 <= k < l < |ix| ==> ix[k] < ix[l]
    ensures forall i :: 0 <= i < |es| && es[i].Adpcm? ==> i in ix
    decreases |es|
  {
    if |es| == 0 then []
    else
      var init := CompanionIndices(es[..|es| - 1]);
      if es[|es| - 1].Adpcm? then init + [|es| - 1] else init
  }

  /** The companion records of the `Adpcm` sections, in order: what the
      references `get_companion_sections` hands out point to. */
  function Companions(es: seq<Section>): (cs: seq<KtssCompanionSection>)
    ensures |cs| == |CompanionIndices(es)|
    decreases |es|
  {
    if |es| == 0 then []
    else
      var init := Companions(es[..|es| - 1]);
      if es[|es| - 1].Adpcm? then init + [es[|es| - 1].adpcm] else init
  }

  /** The k-th companion is the record of the section at the k-th index. */
  lemma {:induction false} CompanionsAtIndices(es: seq<Section>)
    ensures forall k :: 0 <= k < |Companions(es)| ==> Companions(es)[k] == es[CompanionIndices(es)[k]].adpcm
    decreases |es|
  {
    if |es| > 0 {
      var init := es[..|es| - 1];
      CompanionsAtIndices(init);
      forall k | 0 <= k < |CompanionIndices(init)|
        ensures es[CompanionIndices(init)[k]] == init[CompanionIndices(init)[k]]
      {
      }
    }
  }

  /** Sections with the same variants at the same places have the same
      companion indices. */
  lemma {:induction false} IndicesFollowVariants(es: seq<Section>, fs: seq<Section>)
    requires |es| == |fs| && forall i :: 0 <= i < |es| ==> (es[i].Adpcm? <==> fs[i].Adpcm?)
    ensures CompanionIndices(es) == CompanionIndices(fs)
    decreases |es|
  {
    if |es| > 0 {
      IndicesFollowVariants(es[..|es| - 1], fs[..|fs| - 1]);
    }
  }

  /** A write through the k-th reference `get_companion_sections` returns. */
  function WithCompanion(es: seq<Section>, k: nat, c: KtssCompanionSection): seq<Section>
    requires k < |CompanionIndices(es)|
  {
    es[CompanionIndices(es)[k] := Adpcm(c)]
  }

  /** Writing through a reference changes that one companion and nothing
      else: every other section, and every other companion, stays as it
      was. */
  lemma SetCompanionLocal(es: seq<Section>, k: nat, c: KtssCompanionSection)
    requires k < |CompanionIndices(es)|
    ensures var fs := WithCompanion(es, k, c);
      && |fs| == |es|
      && (forall i :: 0 <= i < |es| && i != CompanionIndices(es)[k] ==> fs[i] == es[i])
      && CompanionIndices(fs) == CompanionIndices(es)
      && Companions(fs) == Companions(es)[k := c]
  {
    var fs := WithCompanion(es, k, c);
    IndicesFollowVariants(es, fs);
    CompanionsAtIndices(es);
    CompanionsAtIndices(fs);
    var ix := CompanionIndices(es);
    forall j | 0 <= j < |Companions(fs)|
      ensures Companions(fs)[j] == Companions(es)[k := c][j]
    {
      if j != k {
        assert ix[j] != ix[k] by {
          if j < k { assert ix[j] < ix[k]; } else { assert ix[k] < ix[j]; }
        }
      }
    }
  }
}
