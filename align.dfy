/** Alignment arithmetic behind the `align_before`, `align_after` and `align`
    field attributes of the container's layouts. Positions are absolute byte
    offsets from the start of the container (or of the file being read). */
module Align {

  /** An alignment boundary: always a positive number of bytes. */
  type Boundary = n: nat | 0 < n witness 1

  /** The number of filler bytes that take `pos` to the next multiple of `n`;
      zero when `pos` is already aligned. */
  function PadLen(pos: nat, n: Boundary): (k: nat)
    ensures k < n
    ensures (pos + k) % n == 0
    ensures pos % n == 0 <==> k == 0
  {
    var r := pos % n;
    if r == 0 then 0
    else
      PadLenStep(pos, n);
      n - r
  }

  lemma PadLenStep(pos: nat, n: Boundary)
    requires pos % n != 0
    ensures (pos + (n - pos % n)) % n == 0
  {
    DivMod(pos, n);
    var q := pos / n;
    assert pos + (n - pos % n) == (q + 1) * n + 0 by { MulDistrib(q, 1, n); }
    UniqueDivMod(pos + (n - pos % n), n, q + 1, 0);
  }

  /** The least multiple of `n` that is at least `pos`. */
  function RoundUp(pos: nat, n: Boundary): (r: nat)
    ensures pos <= r < pos + n
    ensures r % n == 0
  {
    pos + PadLen(pos, n)
  }

  /** No multiple of `n` lies between `pos` and `RoundUp(pos, n)`. */
  lemma RoundUpIsLeast(pos: nat, n: Boundary, m: nat)
    requires pos <= m && m % n == 0
    ensures RoundUp(pos, n) <= m
  {
    var r := RoundUp(pos, n);
    if m < r {
      // both are multiples of n and 0 <= r - m < n, so they coincide
      MultiplesApart(m, r, n);
    }
  }

  /** Two multiples of `n` less than `n` apart are equal. */
  lemma MultiplesApart(a: nat, b: nat, n: Boundary)
    requires a % n == 0 && b % n == 0
    requires a <= b < a + n
    ensures a == b
  {
    DivMod(a, n);
    DivMod(b, n);
    var qa, qb := a / n, b / n;
    assert a == qa * n && b == qb * n;
    if qa < qb {
      assert qa + 1 <= qb;
      MulMono(qa + 1, qb, n);
    } else if qb < qa {
      MulMono(qb + 1, qa, n);
    }
  }

  /** Alignment steps depend only on the position modulo a multiple of the
      boundary: a layout that starts on a `m`-boundary, where `n` divides `m`,
      pads exactly as if it started at offset 0. */
  lemma {:induction false} PadLenShift(base: nat, off: nat, n: Boundary, m: Boundary)
    requires base % m == 0 && m % n == 0
    ensures PadLen(base + off, n) == PadLen(off, n)
  {
    DivMod(base, m);
    DivMod(m, n);
    var q := (base / m) * (m / n);
    assert base == q * n by {
      assert base == (base / m) * m;
      assert m == (m / n) * n;
      MulAssoc(base / m, m / n, n);
    }
    ShiftByMultiple(off, q, n);
  }

  lemma ShiftByMultiple(x: nat, q: nat, n: Boundary)
    ensures (x + q * n) % n == x % n
  {
    DivMod(x, n);
    var y := x + q * n;
    DivMod(y, n);
    assert y == (x / n + q) * n + x % n by { MulDistrib(x / n, q, n); }
    UniqueDivMod(y, n, x / n + q, x % n);
  }

  lemma UniqueDivMod(y: nat, n: Boundary, q: int, r: int)
    requires 0 <= r < n && y == q * n + r
    ensures y % n == r
  {
    DivMod(y, n);
    var q0, r0 := y / n, y % n;
    if q < q0 {
      MulMono(q + 1, q0, n);
      MulDistrib(q, 1, n);
    } else if q0 < q {
      MulMono(q0 + 1, q, n);
      MulDistrib(q0, 1, n);
    }
  }

  lemma DivMod(x: nat, n: Boundary)
    ensures x == (x / n) * n + x % n
    ensures 0 <= x % n < n
  {
  }

  lemma MulMono(a: int, b: int, n: nat)
    requires a <= b
    ensures a * n <= b * n
  {
  }

  lemma MulDistrib(a: int, b: int, n: int)
    ensures (a + b) * n == a * n + b * n
  {
  }

  lemma MulAssoc(a: int, b: int, n: int)
    ensures (a * b) * n == a * (b * n)
  {
  }
}
