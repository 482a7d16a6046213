/** The link id of a stream table entry and the file name it travels under:
    `pack` reads the id from the stem of each file's name as hexadecimal
    (Rust's `u32::from_str_radix(stem, 16)`, unwrapped; a path without a
    usable stem reads as "0") and `unpack` writes each entry to a file named
    by `format!("{:08X}.ktss", link_id)`. */
module LinkId {
  import opened Align
  import opened Binary

  predicate IsHexDigit(c: char) {
    ('0' <= c <= '9') || ('a' <= c <= 'f') || ('A' <= c <= 'F')
  }

  /** The value of a hexadecimal digit of either case. */
  function DigitValue(c: char): (d: nat)
    requires IsHexDigit(c)
    ensures d < 16
  {
    if '0' <= c <= '9' then c as nat - '0' as nat
    else if 'a' <= c <= 'f' then c as nat - 'a' as nat + 10
    else c as nat - 'A' as nat + 10
  }

  /** The digit `{:X}` writes for `d`: 0-9, then upper-case A-F. */
  function UpperDigit(d: nat): (c: char)
    requires d < 16
    ensures IsHexDigit(c) && DigitValue(c) == d
    ensures !('a' <= c <= 'f')
  {
    if d < 10 then ('0' as nat + d) as char else ('A' as nat + d - 10) as char
  }

  predicate AllHex(s: string) {
    forall i :: 0 <= i < |s| ==> IsHexDigit(s[i])
  }

  /** The number a string of hexadecimal digits denotes, most significant
      digit first, without bound. */
  function HexValue(s: string): nat
    requires AllHex(s)
  {
    if |s| == 0 then 0 else HexValue(s[..|s| - 1]) * 16 + DigitValue(s[|s| - 1])
  }

  function Pow16(k: nat): (p: nat)
    ensures p >= 1
  {
    if k == 0 then 1 else 16 * Pow16(k - 1)
  }

  /** The digits `from_str_radix` reads: the stem without one leading '+'. */
  function StemDigits(stem: string): (digits: string)
    ensures |digits| <= |stem|
  {
    if 0 < |stem| && stem[0] == '+' then stem[1..] else stem
  }

  /** `u32::from_str_radix(stem, 16)` followed by `unwrap`: an optional
      leading '+', then one or more digits of either case. An empty stem, a
      lone '+', any other character (a '-' included) and any value of 2^32 or
      more are errors. */
  function ParseLinkId(stem: string): (r: Result<u32>)
    ensures |stem| == 0 || stem == "+" ==> r == Err(InvalidLinkId)
    ensures (exists i :: 0 <= i < |StemDigits(stem)| && !IsHexDigit(StemDigits(stem)[i])) ==> r == Err(InvalidLinkId)
    ensures r.Ok? ==> AllHex(StemDigits(stem)) && r.value as nat == HexValue(StemDigits(stem))
    ensures 0 < |StemDigits(stem)| && AllHex(StemDigits(stem)) && HexValue(StemDigits(stem)) < U32_MOD
            ==> r == Ok(HexValue(StemDigits(stem)))
    ensures AllHex(StemDigits(stem)) && HexValue(StemDigits(stem)) >= U32_MOD ==> r == Err(InvalidLinkId)
  {
    var digits := StemDigits(stem);
    if |digits| == 0 || !AllHex(digits) then Err(InvalidLinkId)
    else
      var v := HexValue(digits);
      if v < U32_MOD then Ok(v) else Err(InvalidLinkId)
  }

  /** The last `k` hexadecimal digits of `n`, upper case, zero-filled. */
  function HexFixed(n: nat, k: nat): (s: string)
    ensures |s| == k && AllHex(s)
    ensures forall i :: 0 <= i < |s| ==> !('a' <= s[i] <= 'f')
  {
    if k == 0 then [] else HexFixed(n / 16, k - 1) + [UpperDigit(n % 16)]
  }

  /** `format!("{:08X}", n)`: a `u32` always fits in eight digits, so the
      width is never exceeded. */
  function Hex8(n: u32): (s: string)
    ensures |s| == 8 && AllHex(s)
  {
    HexFixed(n, 8)
  }

  /** The name `unpack` gives the file of an entry. */
  function UnpackName(linkId: u32): string {
    Hex8(linkId) + ".ktss"
  }

  /** `Path::file_stem` of a file name: everything before the last '.',
      except that ".." and a name whose only '.' is its first character are
      their own stem. */
  function FileStem(name: string): (stem: string)
    ensures |stem| <= |name|
  {
    if name == ".." then name
    else
      var d := LastDot(name, |name|);
      if d <= 0 then name else name[..d]
  }

  /** The index of the last '.' in `name[..upTo]`, or -1. */
  function LastDot(name: string, upTo: nat): (d: int)
    requires upTo <= |name|
    ensures -1 <= d < upTo
    ensures d >= 0 ==> name[d] == '.' && forall i :: d < i < upTo ==> name[i] != '.'
    ensures d == -1 ==> forall i :: 0 <= i < upTo ==> name[i] != '.'
  {
    if upTo == 0 then -1 else if name[upTo - 1] == '.' then upTo - 1 else LastDot(name, upTo - 1)
  }

  /** The text `pack` parses: the file's stem, or "0" when the path has no
      stem or the stem is not valid UTF-8 (both `None` here). */
  function PackStem(stem: Option<string>): (t: string)
    ensures stem.Some? ==> t == stem.value
    ensures stem.None? ==> t == "0"
  {
    match stem
    case None => "0"
    case Some(st) => st
  }

  /** Splitting off the lowest digit: `n % (16 p)` is the rest taken modulo
      `p`, shifted, plus the lowest digit. */
  lemma ModSplit(n: nat, p: nat)
    requires p >= 1
    ensures ((n / 16) % p) * 16 + n % 16 == n % (16 * p)
  {
    var q, d := n / 16, n % 16;
    var a, b := q / p, q % p;
    DivMod(n, 16);
    DivMod(q, p);
    assert n == q * 16 + d;
    assert q == a * p + b;
    calc {
      n;
      (a * p + b) * 16 + d;
      { MulDistrib(a * p, b, 16); }
      (a * p) * 16 + b * 16 + d;
      { MulAssoc(a, p, 16); }
      a * (16 * p) + (b * 16 + d);
    }
    assert b * 16 + d < 16 * p by {
      MulMono(b, p - 1, 16);
    }
    UniqueDivMod(n, 16 * p, a, b * 16 + d);
  }

  lemma {:induction false} HexFixedValue(n: nat, k: nat)
    ensures HexValue(HexFixed(n, k)) == n % Pow16(k)
  {
    if k > 0 {
      var s := HexFixed(n, k);
      assert s[..k - 1] == HexFixed(n / 16, k - 1);
      HexFixedValue(n / 16, k - 1);
      ModSplit(n, Pow16(k - 1));
    }
  }

  lemma Pow16Eight()
    ensures Pow16(8) == U32_MOD
  {
    assert Pow16(4) == 0x1_0000;
    assert Pow16(8) == 0x1_0000 * Pow16(4);
  }

  /** Parsing the stem `unpack` writes yields the link id back. */
  lemma Hex8RoundTrip(n: u32)
    ensures ParseLinkId(Hex8(n)) == Ok(n)
  {
    var s := Hex8(n);
    HexFixedValue(n, 8);
    Pow16Eight();
    UniqueDivMod(n, U32_MOD, 0, n);
    assert HexValue(s) == n;
    assert IsHexDigit(s[0]);
    assert StemDigits(s) == s;
  }

  /** The stem of the file `unpack` writes is the eight-digit id. */
  lemma UnpackNameStem(n: u32)
    ensures FileStem(UnpackName(n)) == Hex8(n)
  {
    var name := UnpackName(n);
    assert name[8] == '.';
    assert LastDot(name, |name|) == 8;
  }

  /** Pack reads back the link id of every file unpack writes, and the
      missing stem reads as 0. */
  lemma UnpackPackLinkId(n: u32)
    ensures ParseLinkId(PackStem(Some(FileStem(UnpackName(n))))) == Ok(n)
    ensures ParseLinkId(PackStem(None)) == Ok(0)
  {
    UnpackNameStem(n);
    Hex8RoundTrip(n);
  }
}
