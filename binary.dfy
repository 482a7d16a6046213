/** The binary reading and writing that the container's `binread` / `binwrite`
    layouts describe: fixed-width integers in either byte order, raw byte
    vectors of a given count, alignment gaps and fixed padding.

    A decoder reads a fixed byte sequence `data` at an absolute position and
    returns the value it read together with the position just after it.
    Seeking (alignment, `pad_after`) never fails, even past the end of the
    data; reading does. An encoder returns the bytes of one value; a layout
    whose gaps depend on where it starts is given its absolute start.

    Round trips are stated with `Holds(data, at, bs)`: the bytes `bs` sit in
    `data` at `at`. The `...Cancel` lemmas read one field back from such a
    statement, and the `...Holds` lemmas go the other way. */
module Binary {
  import opened Align

  type u8 = x: int | 0 <= x < 0x100
  type u16 = x: int | 0 <= x < 0x1_0000
  type u32 = x: int | 0 <= x < 0x1_0000_0000
  type u64 = x: int | 0 <= x < 0x1_0000_0000_0000_0000

  const U32_MOD: nat := 0x1_0000_0000

  datatype Endian = Little | Big

  /** Why a decode, or a step of packing, failed. */
  datatype Error =
    | UnexpectedEof                               // a read ran past the end of the data
    | SizeUnderflow(sectionSize: u32, fixed: nat) // `section_size - fixed` would wrap below zero
    | BadEnumValue(value: nat)                    // a closed header enumeration saw another value
    | NoVariantMatched(pos: nat)                  // no variant of a magic-tagged enum decodes here
    | Overflow                                    // u32 arithmetic would overflow
    | InvalidLinkId                               // a file stem that is not a u32 in hexadecimal
    | WriteFailed(index: nat)                     // the writer refused the bytes of the section at `index`

  datatype Result<T> = Ok(value: T) | Err(error: Error) {
    predicate IsFailure() { Err? }
    function PropagateFailure<U>(): Result<U>
      requires Err?
    {
      Err(error)
    }
    function Extract(): T
      requires Ok?
    {
      value
    }
  }

  datatype Option<T> = None | Some(value: T)

  /** A decoded value and the absolute position just after it. */
  datatype Parsed<T> = Parsed(value: T, next: nat)

  // ---------------------------------------------------------------------
  // Integers as bytes. The least significant byte comes first in
  // little-endian order and last in big-endian order.

  function U16Bytes(n: u16, e: Endian): (bs: seq<u8>)
    ensures |bs| == 2
  {
    var b0, b1 := n % 256, n / 256;
    if e == Little then [b0, b1] else [b1, b0]
  }

  function U32Bytes(n: u32, e: Endian): (bs: seq<u8>)
    ensures |bs| == 4
  {
    var q1 := n / 256;
    var q2 := q1 / 256;
    var b0, b1, b2, b3 := n % 256, q1 % 256, q2 % 256, q2 / 256;
    if e == Little then [b0, b1, b2, b3] else [b3, b2, b1, b0]
  }

  /** A little-endian u64: its low word, then its high word. */
  function U64Bytes(n: u64): (bs: seq<u8>)
    ensures |bs| == 8
  {
    U32Bytes(n % U32_MOD, Little) + U32Bytes(n / U32_MOD, Little)
  }

  /** The number whose bytes, in the order they are stored, are `x0`, `x1`. */
  function U16Of(x0: u8, x1: u8, e: Endian): u16 {
    if e == Little then x0 + 256 * x1 else x1 + 256 * x0
  }

  function U32Of(x0: u8, x1: u8, x2: u8, x3: u8, e: Endian): u32 {
    if e == Little then x0 + 256 * (x1 + 256 * (x2 + 256 * x3))
    else x3 + 256 * (x2 + 256 * (x1 + 256 * x0))
  }

  lemma U16OfBytes(n: u16, e: Endian)
    ensures var bs := U16Bytes(n, e); U16Of(bs[0], bs[1], e) == n
  {
  }

  lemma U32OfBytes(n: u32, e: Endian)
    ensures var bs := U32Bytes(n, e); U32Of(bs[0], bs[1], bs[2], bs[3], e) == n
  {
    var q1 := n / 256;
    var q2 := q1 / 256;
    assert n == n % 256 + 256 * q1;
    assert q1 == q1 % 256 + 256 * q2;
  }

  lemma U16BytesOf(x0: u8, x1: u8, e: Endian)
    ensures U16Bytes(U16Of(x0, x1, e), e) == [x0, x1]
  {
  }

  lemma U32BytesOf(x0: u8, x1: u8, x2: u8, x3: u8, e: Endian)
    ensures U32Bytes(U32Of(x0, x1, x2, x3, e), e) == [x0, x1, x2, x3]
  {
    var b0, b1, b2, b3: int := x0, x1, x2, x3;
    if e == Big {
      b0, b1, b2, b3 := x3, x2, x1, x0;
    }
    var n := U32Of(x0, x1, x2, x3, e);
    assert n == b0 + 256 * (b1 + 256 * (b2 + 256 * b3));
    var q1 := n / 256;
    assert n % 256 == b0 && q1 == b1 + 256 * (b2 + 256 * b3);
    assert q1 % 256 == b1 && q1 / 256 == b2 + 256 * b3;
  }

  function Reverse<T>(s: seq<T>): (r: seq<T>)
    ensures |r| == |s|
    ensures forall i :: 0 <= i < |s| ==> r[i] == s[|s| - 1 - i]
  {
    if |s| == 0 then [] else Reverse(s[1..]) + [s[0]]
  }

  /** The big-endian form of a word is its little-endian form reversed: the
      frames of an audio stream use the opposite byte order of everything
      around them. */
  lemma U32BigIsReversedLittle(n: u32)
    ensures U32Bytes(n, Big) == Reverse(U32Bytes(n, Little))
  {
  }

  function Zeros(k: nat): (z: seq<u8>)
    ensures |z| == k && forall i :: 0 <= i < k ==> z[i] == 0
  {
    seq(k, _ => 0)
  }

  /** The zero fill that `align_after(n)` writes at absolute position `at`. */
  function Pad(at: nat, n: Boundary): (z: seq<u8>)
    ensures |z| == PadLen(at, n) && at + |z| == RoundUp(at, n)
  {
    Zeros(PadLen(at, n))
  }

  // ---------------------------------------------------------------------
  // Reading

  function U16At(data: seq<u8>, p: nat, e: Endian): u16
    requires p + 2 <= |data|
  {
    U16Of(data[p], data[p + 1], e)
  }

  function U32At(data: seq<u8>, p: nat, e: Endian): u32
    requires p + 4 <= |data|
  {
    U32Of(data[p], data[p + 1], data[p + 2], data[p + 3], e)
  }

  function U64At(data: seq<u8>, p: nat): u64
    requires p + 8 <= |data|
  {
    U32At(data, p, Little) + U32_MOD * U32At(data, p + 4, Little)
  }

  /** The `k` bytes of `data` from `p` on. */
  function Slice(data: seq<u8>, p: nat, k: nat): (s: seq<u8>)
    requires p + k <= |data|
    ensures |s| == k && forall i :: 0 <= i < k ==> s[i] == data[p + i]
  {
    seq(k, i requires 0 <= i < k => data[p + i])
  }

  /** A `Vec<u8>` read with `count = k`. */
  function ReadBytes(data: seq<u8>, p: nat, k: nat): (r: Result<Parsed<seq<u8>>>)
    ensures r.Ok? <==> p + k <= |data|
    ensures r.Ok? ==> r.value.next == p + k && r.value.value == Slice(data, p, k)
  {
    if p + k <= |data| then Ok(Parsed(Slice(data, p, k), p + k)) else Err(UnexpectedEof)
  }

  function ReadU32(data: seq<u8>, p: nat, e: Endian): (r: Result<Parsed<u32>>)
    ensures r.Ok? <==> p + 4 <= |data|
    ensures r.Ok? ==> r.value.next == p + 4 && r.value.value == U32At(data, p, e)
  {
    if p + 4 <= |data| then Ok(Parsed(U32At(data, p, e), p + 4)) else Err(UnexpectedEof)
  }

  // ---------------------------------------------------------------------
  // Bytes in place

  /** `data` holds `bs` at the absolute position `at`. */
  predicate Holds(data: seq<u8>, at: nat, bs: seq<u8>) {
    at + |bs| <= |data| && forall i :: 0 <= i < |bs| ==> data[at + i] == bs[i]
  }

  lemma HoldsWhole(data: seq<u8>)
    ensures Holds(data, 0, data)
  {
  }

  lemma HoldsSplit(data: seq<u8>, at: nat, a: seq<u8>, b: seq<u8>)
    requires Holds(data, at, a + b)
    ensures Holds(data, at, a) && Holds(data, at + |a|, b)
  {
    forall i | 0 <= i < |a| ensures data[at + i] == a[i] {
      assert (a + b)[i] == a[i];
    }
    forall i | 0 <= i < |b| ensures data[at + |a| + i] == b[i] {
      assert (a + b)[|a| + i] == b[i];
    }
  }

  lemma HoldsJoin(data: seq<u8>, at: nat, a: seq<u8>, b: seq<u8>)
    requires Holds(data, at, a) && Holds(data, at + |a|, b)
    ensures Holds(data, at, a + b)
  {
    forall i | 0 <= i < |a + b| ensures data[at + i] == (a + b)[i] {
      if i >= |a| {
        assert data[at + |a| + (i - |a|)] == b[i - |a|];
      }
    }
  }

  /** Everything in place inside a larger block is in place in the data. */
  lemma HoldsInside(data: seq<u8>, at: nat, bs: seq<u8>, off: nat, part: seq<u8>)
    requires Holds(data, at, bs) && Holds(bs, off, part)
    ensures Holds(data, at + off, part)
  {
    forall i | 0 <= i < |part| ensures data[at + off + i] == part[i] {
      assert bs[off + i] == part[i];
      assert data[at + (off + i)] == bs[off + i];
    }
  }

  lemma U8Cancel(data: seq<u8>, at: nat, n: u8)
    requires Holds(data, at, [n])
    ensures at < |data| && data[at] == n
  {
    assert data[at + 0] == [n][0];
  }

  lemma U16Cancel(data: seq<u8>, at: nat, n: u16, e: Endian)
    requires Holds(data, at, U16Bytes(n, e))
    ensures at + 2 <= |data| && U16At(data, at, e) == n
  {
    var bs := U16Bytes(n, e);
    assert data[at + 0] == bs[0] && data[at + 1] == bs[1];
    U16OfBytes(n, e);
  }

  lemma U32Cancel(data: seq<u8>, at: nat, n: u32, e: Endian)
    requires Holds(data, at, U32Bytes(n, e))
    ensures at + 4 <= |data| && U32At(data, at, e) == n
  {
    var bs := U32Bytes(n, e);
    assert data[at + 0] == bs[0] && data[at + 1] == bs[1] && data[at + 2] == bs[2] && data[at + 3] == bs[3];
    U32OfBytes(n, e);
  }

  lemma U64Cancel(data: seq<u8>, at: nat, n: u64)
    requires Holds(data, at, U64Bytes(n))
    ensures at + 8 <= |data| && U64At(data, at) == n
  {
    HoldsSplit(data, at, U32Bytes(n % U32_MOD, Little), U32Bytes(n / U32_MOD, Little));
    U32Cancel(data, at, n % U32_MOD, Little);
    U32Cancel(data, at + 4, n / U32_MOD, Little);
  }

  lemma BytesCancel(data: seq<u8>, at: nat, bs: seq<u8>)
    requires Holds(data, at, bs)
    ensures ReadBytes(data, at, |bs|) == Ok(Parsed(bs, at + |bs|))
  {
    assert Slice(data, at, |bs|) == bs;
  }

  lemma U8Holds(data: seq<u8>, at: nat)
    requires at < |data|
    ensures Holds(data, at, [data[at]])
  {
    assert data[at + 0] == data[at];
  }

  lemma U16Holds(data: seq<u8>, at: nat, e: Endian)
    requires at + 2 <= |data|
    ensures Holds(data, at, U16Bytes(U16At(data, at, e), e))
  {
    U16BytesOf(data[at], data[at + 1], e);
    assert data[at + 0] == data[at];
  }

  lemma U32Holds(data: seq<u8>, at: nat, e: Endian)
    requires at + 4 <= |data|
    ensures Holds(data, at, U32Bytes(U32At(data, at, e), e))
  {
    U32BytesOf(data[at], data[at + 1], data[at + 2], data[at + 3], e);
    assert data[at + 0] == data[at];
  }

  lemma U64Holds(data: seq<u8>, at: nat)
    requires at + 8 <= |data|
    ensures Holds(data, at, U64Bytes(U64At(data, at)))
  {
    var lo, hi := U32At(data, at, Little), U32At(data, at + 4, Little);
    var n := U64At(data, at);
    assert n % U32_MOD == lo && n / U32_MOD == hi;
    U32Holds(data, at, Little);
    U32Holds(data, at + 4, Little);
    HoldsJoin(data, at, U32Bytes(lo, Little), U32Bytes(hi, Little));
  }

  lemma BytesHolds(data: seq<u8>, at: nat, k: nat)
    requires at + k <= |data|
    ensures Holds(data, at, Slice(data, at, k))
  {
  }
}
