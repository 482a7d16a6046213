/** The entry loop that all three containers' `read_options` run after the
    header (src/ktsl2stbin.rs, src/ktsl2asbin.rs, src/ktsl.rs): from a start
    position, stop as soon as the stream position cast to `u32` equals
    `decomp_size`, otherwise read one record and go on after it. The record
    decoder and encoder are parameters here, so whatever is proved holds
    for every container. */
module Scan {
  import opened Align
  import opened Binary

  type Decoder<T> = (seq<u8>, nat) -> Result<Parsed<T>>
  type Encoder<!T> = (T, nat) -> seq<u8>

  /** Every record read successfully starts inside the data and ends
      after it starts, so the loop cannot spin in place. */
  ghost predicate Advances<T>(dec: Decoder<T>) {
    forall data: seq<u8>, p: nat :: dec(data, p).Ok? ==> p < |data| && p < dec(data, p).value.next
  }

  type EndOf<!T> = (T, nat) -> nat

  /** `end` says where the bytes `enc` writes for a record end. */
  ghost predicate Fits<T(!new)>(enc: Encoder<T>, end: EndOf<T>) {
    forall e: T, p: nat :: p + |enc(e, p)| == end(e, p)
  }

  /** A record in the bytes `enc` writes for it, at the position it was
      written for, reads back as itself and ends where its bytes end. */
  ghost predicate RoundTrips<T(!new)>(enc: Encoder<T>, end: EndOf<T>, dec: Decoder<T>, valid: T -> bool) {
    forall data: seq<u8>, p: nat, e: T {:trigger Holds(data, p, enc(e, p))} ::
      valid(e) && Holds(data, p, enc(e, p)) ==> dec(data, p) == Ok(Parsed(e, end(e, p)))
  }

  /** How far `pos` is from the end of `data`; every turn of the loop lowers
      it. */
  function ScanRoom(data: seq<u8>, pos: nat): nat {
    if pos <= |data| then |data| - pos + 1 else 0
  }

  /** `prefix` followed by what the rest of a scan yields. */
  function Continue<T>(prefix: seq<T>, r: Result<seq<T>>): (c: Result<seq<T>>)
    ensures c.Ok? == r.Ok? && (r.Ok? ==> c.value == prefix + r.value) && (r.Err? ==> c.error == r.error)
  {
    if r.Ok? then Ok(prefix + r.value) else Err(r.error)
  }

  /** The loop from `pos`, as a function: the records in stream order, or
      the first failure (an `unwrap` panic or a `?`). */
  function ScanFrom<T>(dec: Decoder<T>, data: seq<u8>, pos: nat, stop: u32): (r: Result<seq<T>>)
    requires Advances(dec)
    decreases ScanRoom(data, pos)
  {
    if pos % U32_MOD == stop as nat then Ok([])
    else
      var e :- dec(data, pos);
      var rest :- ScanFrom(dec, data, e.next, stop);
      Ok([e.value] + rest)
  }

  /** The positions the loop compares with `stop`, in order: one per record
      read, then the one it stops on (or fails at). */
  function ScanPositions<T>(dec: Decoder<T>, data: seq<u8>, pos: nat, stop: u32): (ps: seq<nat>)
    requires Advances(dec)
    ensures |ps| > 0 && ps[0] == pos
    decreases ScanRoom(data, pos)
  {
    if pos % U32_MOD == stop as nat || dec(data, pos).Err? then [pos]
    else [pos] + ScanPositions(dec, data, dec(data, pos).value.next, stop)
  }

  /** The `while` loop, pushing each record onto a vector. */
  method ReadUntil<T>(dec: Decoder<T>, data: seq<u8>, start: nat, stop: u32) returns (r: Result<seq<T>>)
    requires Advances(dec)
    ensures r == ScanFrom(dec, data, start, stop)
  {
    var entries: seq<T> := [];
    var pos: nat := start;
    assert entries + [] == entries;
    ContinueEmpty(ScanFrom(dec, data, pos, stop));
    while pos % U32_MOD != stop as nat
      invariant ScanFrom(dec, data, start, stop) == Continue(entries, ScanFrom(dec, data, pos, stop))
      decreases ScanRoom(data, pos)
    {
      var e := dec(data, pos);
      if e.Err? {
        return Err(e.error);
      }
      ContinueAssoc(entries, [e.value.value], ScanFrom(dec, data, e.value.next, stop));
      entries := entries + [e.value.value];
      pos := e.value.next;
    }
    assert entries + [] == entries;
    r := Ok(entries);
  }

  lemma ContinueEmpty<T>(r: Result<seq<T>>)
    ensures Continue([], r) == r
  {
    if r.Ok? {
      assert [] + r.value == r.value;
    }
  }

  lemma ContinueAssoc<T>(a: seq<T>, b: seq<T>, r: Result<seq<T>>)
    ensures Continue(a, Continue(b, r)) == Continue(a + b, r)
  {
    if r.Ok? {
      assert a + (b + r.value) == (a + b) + r.value;
    }
  }

  /** A successful scan reads each record where the one before it ended,
      passes no position equal to `stop` before the last record, and ends on
      one that is. */
  lemma {:induction false} ScanStops<T>(dec: Decoder<T>, data: seq<u8>, pos: nat, stop: u32)
    requires Advances(dec) && ScanFrom(dec, data, pos, stop).Ok?
    ensures var es, ps := ScanFrom(dec, data, pos, stop).value, ScanPositions(dec, data, pos, stop);
      && |ps| == |es| + 1
      && ps[|es|] % U32_MOD == stop as nat
      && (forall i :: 0 <= i < |es| ==> ps[i] % U32_MOD != stop as nat)
      && (forall i :: 0 <= i < |es| ==> dec(data, ps[i]) == Ok(Parsed(es[i], ps[i + 1])))
    decreases ScanRoom(data, pos)
  {
    if pos % U32_MOD != stop as nat {
      var e := dec(data, pos).value;
      ScanStops(dec, data, e.next, stop);
    }
  }

  // ---------------------------------------------------------------------
  // Records written one after another

  /** Each record written at the position where the previous one ended. */
  function EncodeAll<T>(enc: Encoder<T>, end: EndOf<T>, es: seq<T>, pos: nat): seq<u8> {
    if |es| == 0 then [] else enc(es[0], pos) + EncodeAll(enc, end, es[1..], end(es[0], pos))
  }

  /** Where each record of `es` starts when written from `pos`, and last,
      where the whole run ends. */
  function Starts<T>(end: EndOf<T>, es: seq<T>, pos: nat): (ps: seq<nat>)
    ensures |ps| == |es| + 1 && ps[0] == pos
  {
    if |es| == 0 then [pos] else [pos] + Starts(end, es[1..], end(es[0], pos))
  }

  /** A run of records takes the bytes from its first start to its end. */
  lemma {:induction false} EncodeAllLength<T(!new)>(enc: Encoder<T>, end: EndOf<T>, es: seq<T>, pos: nat)
    requires Fits(enc, end)
    ensures pos + |EncodeAll(enc, end, es, pos)| == Starts(end, es, pos)[|es|]
    decreases |es|
  {
    if |es| > 0 {
      EncodeAllLength(enc, end, es[1..], end(es[0], pos));
      assert Starts(end, es[1..], end(es[0], pos))[|es| - 1] == Starts(end, es, pos)[|es|];
    }
  }

  /** Writing one more record continues the run where it ended. */
  lemma {:induction false} EncodeAllSnoc<T>(enc: Encoder<T>, end: EndOf<T>, es: seq<T>, e: T, pos: nat)
    ensures EncodeAll(enc, end, es + [e], pos) == EncodeAll(enc, end, es, pos) + enc(e, Starts(end, es, pos)[|es|])
    ensures Starts(end, es + [e], pos)[|es| + 1] == end(e, Starts(end, es, pos)[|es|])
    decreases |es|
  {
    if |es| == 0 {
      assert [e][1..] == [];
    } else {
      var next := end(es[0], pos);
      assert (es + [e])[1..] == es[1..] + [e];
      EncodeAllSnoc(enc, end, es[1..], e, next);
      assert Starts(end, es[1..], next)[|es| - 1] == Starts(end, es, pos)[|es|];
      assert Starts(end, es[1..] + [e], next)[|es|] == Starts(end, es + [e], pos)[|es| + 1];
    }
  }

  /** A loop that hands the writer each record in turn, where `accepts(i)`
      says whether the writer takes the bytes of record `i`, and that keeps
      the outcome of the last write alone. */
  method WriteEach<T>(enc: Encoder<T>, end: EndOf<T>, es: seq<T>, at: nat, accepts: nat -> bool)
    returns (bytes: seq<u8>, r: Result<()>)
    ensures bytes == EncodeAll(enc, end, es, at)
    ensures |es| == 0 ==> r == Ok(())
    ensures |es| > 0 ==> (r.Ok? <==> accepts(|es| - 1))
    ensures |es| > 0 && r.Err? ==> r.error == WriteFailed(|es| - 1)
  {
    bytes, r := [], Ok(());
    var pos := at;
    for i := 0 to |es|
      invariant bytes == EncodeAll(enc, end, es[..i], at)
      invariant pos == Starts(end, es[..i], at)[i]
      invariant i == 0 ==> r == Ok(())
      invariant i > 0 ==> r == (if accepts(i - 1) then Ok(()) else Err(WriteFailed(i - 1)))
    {
      EncodeAllSnoc(enc, end, es[..i], es[i], at);
      assert es[..i] + [es[i]] == es[..i + 1];
      bytes := bytes + enc(es[i], pos);
      r := if accepts(i) then Ok(()) else Err(WriteFailed(i));
      pos := end(es[i], pos);
    }
    assert es[..|es|] == es;
  }

  /** Over bytes that hold records written from `pos`, the scan reads those
      records back and carries on from their end, provided it passes no
      stopping position before the last one. */
  lemma {:induction false} ScanEncoded<T(!new)>(enc: Encoder<T>, end: EndOf<T>, dec: Decoder<T>, valid: T -> bool,
                                                data: seq<u8>, pos: nat, es: seq<T>, stop: u32)
    requires Advances(dec) && Fits(enc, end) && RoundTrips(enc, end, dec, valid)
    requires forall i :: 0 <= i < |es| ==> valid(es[i])
    requires Holds(data, pos, EncodeAll(enc, end, es, pos))
    requires forall i :: 0 <= i < |es| ==> Starts(end, es, pos)[i] % U32_MOD != stop as nat
    ensures ScanFrom(dec, data, pos, stop) == Continue(es, ScanFrom(dec, data, Starts(end, es, pos)[|es|], stop))
    decreases |es|
  {
    if |es| == 0 {
      ContinueEmpty(ScanFrom(dec, data, pos, stop));
    } else {
      var next := end(es[0], pos);
      var ss := Starts(end, es, pos);
      HoldsSplit(data, pos, enc(es[0], pos), EncodeAll(enc, end, es[1..], next));
      assert valid(es[0]) && ss[0] % U32_MOD != stop as nat;
      assert dec(data, pos) == Ok(Parsed(es[0], next));
      forall i | 0 <= i < |es[1..]|
        ensures Starts(end, es[1..], next)[i] % U32_MOD != stop as nat
      {
        assert Starts(end, es[1..], next)[i] == ss[i + 1];
      }
      ScanEncoded(enc, end, dec, valid, data, next, es[1..], stop);
      assert Starts(end, es[1..], next)[|es[1..]|] == ss[|es|];
      ContinueAssoc([es[0]], es[1..], ScanFrom(dec, data, ss[|es|], stop));
      assert [es[0]] + es[1..] == es;
    }
  }

  /** A valid record ends after it starts. */
  lemma EndAfterStart<T(!new)>(enc: Encoder<T>, end: EndOf<T>, dec: Decoder<T>, valid: T -> bool, e: T, p: nat)
    requires Advances(dec) && Fits(enc, end) && RoundTrips(enc, end, dec, valid) && valid(e)
    ensures p < end(e, p)
  {
    var data := Zeros(p) + enc(e, p);
    assert Holds(data, p, enc(e, p));
    assert dec(data, p).Ok?;
  }

  /** Records that each take a byte start from `pos` and strictly before the
      run ends. */
  lemma {:induction false} StartsBeforeEnd<T(!new)>(enc: Encoder<T>, end: EndOf<T>, dec: Decoder<T>, valid: T -> bool,
                                                    es: seq<T>, pos: nat, i: nat)
    requires Advances(dec) && Fits(enc, end) && RoundTrips(enc, end, dec, valid)
    requires forall k :: 0 <= k < |es| ==> valid(es[k])
    requires i < |es|
    ensures pos <= Starts(end, es, pos)[i] < Starts(end, es, pos)[|es|]
    decreases |es|
  {
    EndAfterStart(enc, end, dec, valid, es[0], pos);
    var next := end(es[0], pos);
    var ss := Starts(end, es, pos);
    assert Starts(end, es[1..], next)[|es[1..]|] == ss[|es|];
    if i > 0 {
      StartsBeforeEnd(enc, end, dec, valid, es[1..], next, i - 1);
      assert Starts(end, es[1..], next)[i - 1] == ss[i];
    } else if |es| > 1 {
      StartsBeforeEnd(enc, end, dec, valid, es[1..], next, 0);
    }
  }

  /** Records written from `pos`, with `stop` the end of their run, are
      exactly what the scan reads back. */
  lemma ScanReadsBack<T(!new)>(enc: Encoder<T>, end: EndOf<T>, dec: Decoder<T>, valid: T -> bool,
                               data: seq<u8>, pos: nat, es: seq<T>, stop: u32)
    requires Advances(dec) && Fits(enc, end) && RoundTrips(enc, end, dec, valid)
    requires forall i :: 0 <= i < |es| ==> valid(es[i])
    requires Holds(data, pos, EncodeAll(enc, end, es, pos))
    requires stop as nat == Starts(end, es, pos)[|es|]
    ensures ScanFrom(dec, data, pos, stop) == Ok(es)
  {
    var ss := Starts(end, es, pos);
    forall i | 0 <= i < |es|
      ensures ss[i] % U32_MOD != stop as nat
    {
      StartsBeforeEnd(enc, end, dec, valid, es, pos, i);
      UniqueDivMod(ss[i], U32_MOD, 0, ss[i]);
    }
    ScanEncoded(enc, end, dec, valid, data, pos, es, stop);
    UniqueDivMod(stop as nat, U32_MOD, 0, stop as nat);
    assert es + [] == es;
  }

  /** Records written from `pos` up to the end of the data, below 2^32, with
      `stop` before `pos`: the scan never meets `stop` and runs off the
      end. */
  lemma ScanMissesStop<T(!new)>(enc: Encoder<T>, end: EndOf<T>, dec: Decoder<T>, valid: T -> bool,
                                data: seq<u8>, pos: nat, es: seq<T>, stop: u32)
    requires Advances(dec) && Fits(enc, end) && RoundTrips(enc, end, dec, valid)
    requires forall i :: 0 <= i < |es| ==> valid(es[i])
    requires Holds(data, pos, EncodeAll(enc, end, es, pos)) && Starts(end, es, pos)[|es|] == |data|
    requires |data| < U32_MOD && stop as nat < pos
    ensures ScanFrom(dec, data, pos, stop).Err?
  {
    var ss := Starts(end, es, pos);
    forall i | 0 <= i < |es|
      ensures ss[i] % U32_MOD != stop as nat
    {
      StartsBeforeEnd(enc, end, dec, valid, es, pos, i);
      UniqueDivMod(ss[i], U32_MOD, 0, ss[i]);
    }
    ScanEncoded(enc, end, dec, valid, data, pos, es, stop);
    if |es| > 0 {
      StartsBeforeEnd(enc, end, dec, valid, es, pos, 0);
    }
    UniqueDivMod(|data|, U32_MOD, 0, |data|);
    assert dec(data, |data|).Err?;
  }
}
