/**
  Scatter/gather copy. Memory is one array of bytes and an I/O vector a list of address ranges in it,
  so that pointer arithmetic and rewriting an entry's length are what they are in the original.
 */
module ScatterGather {
  import opened Words
  import opened Sums

  datatype Iov = Iov(base: nat, len: nat)

  function LenOf(v: Iov): nat { v.len }

  /** `xio_iov_length` */
  function Length(iov: seq<Iov>): nat { Total(LenOf, iov) }

  predicate InBounds(v: Iov, size: nat) { v.base + v.len <= size }

  predicate Disjoint(v: Iov, w: Iov) {
    v.len == 0 || w.len == 0 || v.base + v.len <= w.base || w.base + w.len <= v.base
  }

  /** Every range lies in memory, the destination ranges do not overlap, nor do they touch the source. */
  predicate NotAliased(size: nat, dst: seq<Iov>, src: seq<Iov>) {
    && (forall i :: 0 <= i < |dst| ==> InBounds(dst[i], size))
    && (forall i :: 0 <= i < |src| ==> InBounds(src[i], size))
    && (forall i, j :: 0 <= i < j < |dst| ==> Disjoint(dst[i], dst[j]))
    && (forall i, j :: 0 <= i < |dst| && 0 <= j < |src| ==> Disjoint(dst[i], src[j]))
  }

  /** The `len` bytes at `base`; nothing if they are not all in memory. */
  function Read(m: seq<U8>, base: nat, len: nat): seq<U8> {
    if len == 0 || |m| < base + len then [] else Read(m, base, len - 1) + [m[base + len - 1]]
  }

  /** The bytes an I/O vector denotes, one range after the other. */
  function Bytes(m: seq<U8>, iov: seq<Iov>): seq<U8> {
    if iov == [] then []
    else
      var v := iov[|iov| - 1];
      Bytes(m, iov[..|iov| - 1]) + Read(m, v.base, v.len)
  }

  /** Empty entries at the end of a vector. */
  function TrailingEmpty(iov: seq<Iov>): (n: nat)
    ensures n <= |iov|
  {
    if iov == [] || iov[|iov| - 1].len != 0 then 0 else 1 + TrailingEmpty(iov[..|iov| - 1])
  }

  /** When the copy succeeds. A source that fits with room to spare always does; one that fills the
      destination exactly must not have more empty entries at its end than the destination has. */
  predicate Fits(dst: seq<Iov>, src: seq<Iov>) {
    && dst != [] && src != []
    && (Length(src) < Length(dst) || (Length(src) == Length(dst) && TrailingEmpty(src) <= TrailingEmpty(dst)))
  }

  /** Length alone decides unless the source fills the destination exactly and has the more empty
      entries at its end; so it always decides when the last source entry is not empty. */
  lemma FitsByLength(dst: seq<Iov>, src: seq<Iov>)
    requires dst != [] && src != []
    ensures (Fits(dst, src) <==> Length(src) <= Length(dst))
            <==> Length(src) != Length(dst) || TrailingEmpty(src) <= TrailingEmpty(dst)
    ensures src[|src| - 1].len != 0 ==> (Fits(dst, src) <==> Length(src) <= Length(dst))
  {
  }

  /** One byte and an empty entry do not go into a one-byte destination. */
  lemma EmptyEntryDoesNotFit() returns (dst: seq<Iov>, src: seq<Iov>)
    ensures dst != [] && src != [] && Length(src) <= Length(dst) && !Fits(dst, src)
    ensures NotAliased(2, dst, src)
  {
    dst, src := [Iov(0, 1)], [Iov(1, 1), Iov(2, 0)];
    assert dst[1..] == [] && src[1..] == [Iov(2, 0)] && src[1..][1..] == [];
    assert src[..1] == [Iov(1, 1)];
  }

  // ----- lengths ---------------------------------------------------------------------------------

  lemma LengthSplit(iov: seq<Iov>, k: nat)
    requires k < |iov|
    ensures Length(iov[..k + 1]) == Length(iov[..k]) + iov[k].len
    ensures Length(iov) == Length(iov[..k]) + iov[k].len + Length(iov[k + 1..])
    ensures Length(iov[k..]) == iov[k].len + Length(iov[k + 1..])
  {
    assert iov[..k + 1] == iov[..k] + [iov[k]];
    TotalAppend(LenOf, iov[..k], iov[k]);
    assert iov == iov[..k + 1] + iov[k + 1..];
    TotalConcat(LenOf, iov[..k + 1], iov[k + 1..]);
    assert iov[k..] == [iov[k]] + iov[k + 1..];
    TotalConcat(LenOf, [iov[k]], iov[k + 1..]);
    assert [iov[k]][1..] == [];
  }

  /** The entries from `k` on hold no bytes exactly when all of them are trailing empty ones. */
  lemma {:induction false} TailIsEmpty(iov: seq<Iov>, k: nat)
    requires k <= |iov|
    ensures Length(iov[k..]) == 0 <==> |iov| - TrailingEmpty(iov) <= k
  {
    if k == |iov| {
    } else {
      var n := |iov| - 1;
      assert iov[k..] == iov[..n][k..] + [iov[n]];
      TotalAppend(LenOf, iov[..n][k..], iov[n]);
      TailIsEmpty(iov[..n], k);
    }
  }

  // ----- reading ---------------------------------------------------------------------------------

  lemma {:induction false} ReadIsSlice(m: seq<U8>, base: nat, len: nat)
    requires base + len <= |m|
    ensures Read(m, base, len) == m[base..base + len]
  {
    if len > 0 { ReadIsSlice(m, base, len - 1); }
  }

  lemma {:induction false} ReadSplit(m: seq<U8>, base: nat, a: nat, b: nat)
    requires base + a + b <= |m|
    ensures Read(m, base, a + b) == Read(m, base, a) + Read(m, base + a, b)
    decreases b
  {
    if b == 0 {
      assert Read(m, base, a) + [] == Read(m, base, a);
    } else {
      ReadSplit(m, base, a, b - 1);
      var x, y, z := Read(m, base, a), Read(m, base + a, b - 1), [m[base + a + b - 1]];
      assert x + (y + z) == (x + y) + z;
    }
  }

  lemma {:induction false} ReadSame(m: seq<U8>, m': seq<U8>, base: nat, base': nat, len: nat)
    requires base + len <= |m| && base' + len <= |m'|
    requires forall i :: base <= i < base + len ==> m[i] == m'[base' + (i - base)]
    ensures Read(m, base, len) == Read(m', base', len)
  {
    if len > 0 {
      ReadSame(m, m', base, base', len - 1);
      assert m[base + len - 1] == m'[base' + (len - 1)];
    }
  }

  lemma BytesAppend(m: seq<U8>, iov: seq<Iov>, v: Iov)
    ensures Bytes(m, iov + [v]) == Bytes(m, iov) + Read(m, v.base, v.len)
  {
    assert (iov + [v])[..|iov|] == iov;
  }

  /** `m` and `m'` agree on the range `v`. */
  predicate Agree(m: seq<U8>, m': seq<U8>, v: Iov) {
    |m| == |m'| && forall i :: v.base <= i < v.base + v.len && i < |m| ==> m[i] == m'[i]
  }

  lemma {:induction false} BytesSame(m: seq<U8>, m': seq<U8>, iov: seq<Iov>)
    requires |m| == |m'|
    requires forall k :: 0 <= k < |iov| ==> InBounds(iov[k], |m|) && Agree(m, m', iov[k])
    ensures Bytes(m, iov) == Bytes(m', iov)
  {
    if iov != [] {
      var v := iov[|iov| - 1];
      BytesSame(m, m', iov[..|iov| - 1]);
      assert Agree(m, m', v) && InBounds(v, |m|);
      ReadSame(m, m', v.base, v.base, v.len);
    }
  }

  // ----- the copy in progress --------------------------------------------------------------------

  /** `k` whole entries of a vector and `off` bytes of the next. */
  function Part(iov: seq<Iov>, k: nat, off: nat): seq<Iov>
    requires k < |iov|
  {
    iov[..k] + [Iov(iov[k].base, off)]
  }

  lemma PartBytes(m: seq<U8>, iov: seq<Iov>, k: nat, off: nat, n: nat)
    requires k < |iov| && iov[k].base + off + n <= |m|
    ensures Bytes(m, Part(iov, k, off + n)) == Bytes(m, Part(iov, k, off)) + Read(m, iov[k].base + off, n)
  {
    BytesAppend(m, iov[..k], Iov(iov[k].base, off));
    BytesAppend(m, iov[..k], Iov(iov[k].base, off + n));
    ReadSplit(m, iov[k].base, off, n);
    var x, y, z := Bytes(m, iov[..k]), Read(m, iov[k].base, off), Read(m, iov[k].base + off, n);
    assert x + (y + z) == (x + y) + z;
  }

  /** A whole entry and nothing of the next is the same bytes. */
  lemma PartNext(m: seq<U8>, iov: seq<Iov>, k: nat)
    requires k + 1 < |iov|
    ensures Bytes(m, Part(iov, k + 1, 0)) == Bytes(m, Part(iov, k, iov[k].len))
  {
    assert iov[..k + 1] == Part(iov, k, iov[k].len);
    BytesAppend(m, iov[..k + 1], Iov(iov[k + 1].base, 0));
    assert Bytes(m, iov[..k + 1]) + [] == Bytes(m, iov[..k + 1]);
  }

  predicate Within(v: Iov, i: int) { v.base <= i < v.base + v.len }

  predicate Covers(iov: seq<Iov>, i: int) { exists k :: 0 <= k < |iov| && Within(iov[k], i) }

  /** `m` differs from `m0` only inside `iov`. */
  predicate OnlyInside(m0: seq<U8>, m: seq<U8>, iov: seq<Iov>) {
    && |m| == |m0|
    && forall i :: 0 <= i < |m| && !Covers(iov, i) ==> m[i] == m0[i]
  }

  lemma CoversGrow(f: seq<Iov>, f': seq<Iov>, i: int)
    requires |f| <= |f'|
    requires forall k :: 0 <= k < |f| ==> f'[k].base == f[k].base && f[k].len <= f'[k].len
    ensures Covers(f, i) ==> Covers(f', i)
  {
    if Covers(f, i) {
      var k :| 0 <= k < |f| && Within(f[k], i);
      assert Within(f'[k], i);
    }
  }

  /** `m'` is `m` with `n` bytes copied from `s` to `d`. */
  predicate Copies(m: seq<U8>, m': seq<U8>, d: nat, s: nat, n: nat) {
    && |m'| == |m| && d + n <= |m| && s + n <= |m|
    && (forall i :: 0 <= i < |m| && !(d <= i < d + n) ==> m'[i] == m[i])
    && (forall i :: d <= i < d + n ==> m'[i] == m[s + (i - d)])
  }

  datatype Cursor = Cursor(d: nat, dOff: nat, s: nat, sOff: nat)

  predicate Placed(dst: seq<Iov>, src: seq<Iov>, c: Cursor) {
    && c.d < |dst| && c.s < |src| && c.dOff <= dst[c.d].len && c.sOff <= src[c.s].len
    && Length(dst[..c.d]) + c.dOff == Length(src[..c.s]) + c.sOff
  }

  /** What has been filled is what has been read. */
  predicate Copying(m0: seq<U8>, m: seq<U8>, dst: seq<Iov>, src: seq<Iov>, c: Cursor) {
    && Placed(dst, src, c)
    && Bytes(m, Part(dst, c.d, c.dOff)) == Bytes(m0, Part(src, c.s, c.sOff))
  }

  lemma WritesStayInside(m0: seq<U8>, m: seq<U8>, m': seq<U8>, dst: seq<Iov>, d: nat, off: nat, s: nat, n: nat)
    requires d < |dst| && OnlyInside(m0, m, Part(dst, d, off)) && Copies(m, m', dst[d].base + off, s, n)
    ensures OnlyInside(m0, m', Part(dst, d, off + n))
  {
    var f, f' := Part(dst, d, off), Part(dst, d, off + n);
    forall i | 0 <= i < |m| && !Covers(f', i) ensures m'[i] == m0[i] {
      assert !Within(f'[d], i);
      CoversGrow(f, f', i);
    }
  }

  /** The source is as it was before the copy began. */
  lemma SourceIntact(m0: seq<U8>, m: seq<U8>, dst: seq<Iov>, src: seq<Iov>, d: nat, off: nat, s: nat)
    requires NotAliased(|m0|, dst, src) && d < |dst| && off <= dst[d].len && s < |src|
    requires OnlyInside(m0, m, Part(dst, d, off))
    ensures Agree(m0, m, src[s])
  {
    forall i | src[s].base <= i < src[s].base + src[s].len ensures m[i] == m0[i] {
      var f := Part(dst, d, off);
      forall k | 0 <= k < |f| ensures !Within(f[k], i) { assert Disjoint(dst[k], src[s]); }
    }
  }

  /** What was filled before is not overwritten. */
  lemma FilledIntact(m: seq<U8>, m': seq<U8>, dst: seq<Iov>, d: nat, off: nat, s: nat, n: nat)
    requires d < |dst| && off + n <= dst[d].len && Copies(m, m', dst[d].base + off, s, n)
    requires forall i :: 0 <= i < |dst| ==> InBounds(dst[i], |m|)
    requires forall i, j :: 0 <= i < j < |dst| ==> Disjoint(dst[i], dst[j])
    ensures Bytes(m', Part(dst, d, off)) == Bytes(m, Part(dst, d, off))
  {
    var f := Part(dst, d, off);
    forall k | 0 <= k < |f| ensures InBounds(f[k], |m|) && Agree(m, m', f[k]) {
      if k < d { assert Disjoint(dst[k], dst[d]); }
    }
    BytesSame(m, m', f);
  }

  lemma CopiedIsSource(m0: seq<U8>, m: seq<U8>, m': seq<U8>, v: Iov, to: nat, off: nat, n: nat)
    requires off + n <= v.len && InBounds(v, |m0|) && Agree(m0, m, v) && Copies(m, m', to, v.base + off, n)
    ensures Read(m', to, n) == Read(m0, v.base + off, n)
  {
    var from := v.base + off;
    forall i | to <= i < to + n ensures m'[i] == m0[from + (i - to)] {
      assert m0[from + (i - to)] == m[from + (i - to)];
    }
    ReadSame(m', m0, to, from, n);
  }

  lemma PartsAdvance(m0: seq<U8>, m: seq<U8>, dst: seq<Iov>, src: seq<Iov>, c: Cursor, n: nat)
    requires c.d < |dst| && c.s < |src|
    requires dst[c.d].base + c.dOff + n <= |m| && src[c.s].base + c.sOff + n <= |m0|
    requires Bytes(m, Part(dst, c.d, c.dOff)) == Bytes(m0, Part(src, c.s, c.sOff))
    requires Read(m, dst[c.d].base + c.dOff, n) == Read(m0, src[c.s].base + c.sOff, n)
    ensures Bytes(m, Part(dst, c.d, c.dOff + n)) == Bytes(m0, Part(src, c.s, c.sOff + n))
  {
    PartBytes(m, dst, c.d, c.dOff, n);
    PartBytes(m0, src, c.s, c.sOff, n);
  }

  /** Copying `n` more bytes, within the current entry on both sides. */
  lemma CopyStep(m0: seq<U8>, m: seq<U8>, m': seq<U8>, dst: seq<Iov>, src: seq<Iov>, c: Cursor, n: nat)
    requires Copying(m0, m, dst, src, c)
    requires n <= dst[c.d].len - c.dOff && n <= src[c.s].len - c.sOff
    requires InBounds(dst[c.d], |m'|) && InBounds(src[c.s], |m0|)
    requires Bytes(m', Part(dst, c.d, c.dOff)) == Bytes(m, Part(dst, c.d, c.dOff))
    requires Read(m', dst[c.d].base + c.dOff, n) == Read(m0, src[c.s].base + c.sOff, n)
    ensures Copying(m0, m', dst, src, c.(dOff := c.dOff + n, sOff := c.sOff + n))
  {
    hide Bytes, Read, Part, Length;
    PartsAdvance(m0, m', dst, src, c, n);
  }

  /** The current source entry is used up. */
  lemma NextSource(m0: seq<U8>, m: seq<U8>, dst: seq<Iov>, src: seq<Iov>, c: Cursor)
    requires Copying(m0, m, dst, src, c) && c.sOff == src[c.s].len && c.s + 1 < |src|
    ensures Copying(m0, m, dst, src, c.(s := c.s + 1, sOff := 0))
  {
    LengthSplit(src, c.s);
    PartNext(m0, src, c.s);
  }

  /** The current destination entry is full. */
  lemma NextDestination(m0: seq<U8>, m: seq<U8>, dst: seq<Iov>, src: seq<Iov>, c: Cursor)
    requires Copying(m0, m, dst, src, c) && c.dOff == dst[c.d].len && c.d + 1 < |dst|
    ensures Copying(m0, m, dst, src, c.(d := c.d + 1, dOff := 0))
  {
    LengthSplit(dst, c.d);
    PartNext(m, dst, c.d);
  }

  lemma InsideNext(m0: seq<U8>, m: seq<U8>, dst: seq<Iov>, d: nat)
    requires d + 1 < |dst| && OnlyInside(m0, m, Part(dst, d, dst[d].len))
    ensures OnlyInside(m0, m, Part(dst, d + 1, 0))
  {
    var f, f' := Part(dst, d, dst[d].len), Part(dst, d + 1, 0);
    forall i | 0 <= i < |m| && !Covers(f', i) ensures m[i] == m0[i] {
      CoversGrow(f, f', i);
    }
  }

  // ----- which way the loop ends -----------------------------------------------------------------

  /** Bytes still to be read, and room still to be filled. */
  function SourceLeft(src: seq<Iov>, c: Cursor): int
    requires c.s < |src|
  {
    Length(src[c.s..]) - c.sOff
  }

  /** When source and destination are equally long and all bytes are across, both cursors are equally
      far past the last byte. */
  predicate InStep(dst: seq<Iov>, src: seq<Iov>, s: nat, d: nat, left: int) {
    Length(src) == Length(dst) && left == 0 ==>
      s - (|src| - TrailingEmpty(src)) == d - (|dst| - TrailingEmpty(dst))
  }

  /** Both current entries end together. */
  lemma InStepBoth(dst: seq<Iov>, src: seq<Iov>, c: Cursor)
    requires Placed(dst, src, c) && dst[c.d].len - c.dOff == src[c.s].len - c.sOff
    requires InStep(dst, src, c.s, c.d, SourceLeft(src, c))
    ensures InStep(dst, src, c.s + 1, c.d + 1, Length(src[c.s + 1..]))
  {
    LengthSplit(src, c.s);
    LengthSplit(dst, c.d);
    TailIsEmpty(src, c.s);
    TailIsEmpty(src, c.s + 1);
    TailIsEmpty(dst, c.d);
    TailIsEmpty(dst, c.d + 1);
  }

  /** Ending with both entries: the copy is complete exactly when the source fits. */
  lemma EndBoth(dst: seq<Iov>, src: seq<Iov>, c: Cursor)
    requires Placed(dst, src, c) && dst[c.d].len - c.dOff == src[c.s].len - c.sOff
    requires InStep(dst, src, c.s, c.d, SourceLeft(src, c))
    requires c.s + 1 == |src| || c.d + 1 == |dst|
    ensures Fits(dst, src) <==> c.s + 1 == |src|
  {
    InStepBoth(dst, src, c);
    LengthSplit(src, c.s);
    LengthSplit(dst, c.d);
    TailIsEmpty(src, c.s + 1);
    TailIsEmpty(dst, c.d + 1);
  }

  /** The source entry ends first. */
  lemma SourceEndsFirst(dst: seq<Iov>, src: seq<Iov>, c: Cursor)
    requires Placed(dst, src, c) && src[c.s].len - c.sOff < dst[c.d].len - c.dOff
    ensures InStep(dst, src, c.s + 1, c.d, Length(src[c.s + 1..]))
    ensures c.s + 1 == |src| ==> Fits(dst, src)
  {
    LengthSplit(src, c.s);
    LengthSplit(dst, c.d);
  }

  /** The destination entry ends first. */
  lemma DestinationEndsFirst(dst: seq<Iov>, src: seq<Iov>, c: Cursor)
    requires Placed(dst, src, c) && dst[c.d].len - c.dOff < src[c.s].len - c.sOff
    ensures SourceLeft(src, c) > dst[c.d].len - c.dOff
    ensures c.d + 1 == |dst| ==> !Fits(dst, src)
  {
    LengthSplit(src, c.s);
    LengthSplit(dst, c.d);
  }

  /** A part of a vector denotes a prefix of its bytes. */
  lemma PartIsPrefix(m: seq<U8>, iov: seq<Iov>, k: nat, off: nat) returns (rest: seq<U8>)
    requires k < |iov| && off <= iov[k].len && InBounds(iov[k], |m|)
    ensures Bytes(m, iov) == Bytes(m, Part(iov, k, off)) + rest
  {
    var n := iov[k].len - off;
    PartBytes(m, iov, k, off, n);
    assert iov[..k + 1] == Part(iov, k, off + n);
    var z := PrefixBytes(m, iov, k + 1);
    rest := Read(m, iov[k].base + off, n) + z;
    AddAssoc(Bytes(m, Part(iov, k, off)), Read(m, iov[k].base + off, n), z);
  }

  lemma AddAssoc(x: seq<U8>, y: seq<U8>, z: seq<U8>)
    ensures (x + y) + z == x + (y + z)
  {
  }

  lemma {:induction false} PrefixBytes(m: seq<U8>, iov: seq<Iov>, k: nat) returns (rest: seq<U8>)
    requires k <= |iov|
    ensures Bytes(m, iov) == Bytes(m, iov[..k]) + rest
    decreases |iov|
  {
    if k == |iov| {
      assert iov[..k] == iov;
      rest := [];
    } else {
      var v := iov[|iov| - 1];
      var r := PrefixBytes(m, iov[..|iov| - 1], k);
      assert iov[..|iov| - 1][..k] == iov[..k];
      rest := r + Read(m, v.base, v.len);
      AddAssoc(Bytes(m, iov[..k]), r, Read(m, v.base, v.len));
    }
  }

  // ----- the code --------------------------------------------------------------------------------

  /** `memcpy` on ranges that do not overlap. */
  method Memcpy(mem: array<U8>, d: nat, s: nat, n: nat)
    requires d + n <= mem.Length && s + n <= mem.Length && Disjoint(Iov(d, n), Iov(s, n))
    modifies mem
    ensures Copies(old(mem[..]), mem[..], d, s, n)
  {
    for i := 0 to n
      invariant forall j :: 0 <= j < mem.Length && !(d <= j < d + i) ==> mem[j] == old(mem[j])
      invariant forall j :: d <= j < d + i ==> mem[j] == old(mem[s + (j - d)])
    {
      mem[d + i] := mem[s + i];
    }
  }

  lemma Apart(size: nat, dst: seq<Iov>, src: seq<Iov>, d: nat, s: nat)
    requires NotAliased(size, dst, src) && d < |dst| && s < |src|
    ensures InBounds(dst[d], size) && InBounds(src[s], size) && Disjoint(dst[d], src[s])
  {
  }

  /** One `memcpy` of the loop, with what it does to the copy in progress. */
  method CopyChunk(mem: array<U8>, daddr: nat, saddr: nat, n: nat,
                   ghost m0: seq<U8>, ghost dst: seq<Iov>, ghost src: seq<Iov>, ghost c: Cursor)
    requires |m0| == mem.Length && NotAliased(mem.Length, dst, src)
    requires Copying(m0, mem[..], dst, src, c) && OnlyInside(m0, mem[..], Part(dst, c.d, c.dOff))
    requires n <= dst[c.d].len - c.dOff && n <= src[c.s].len - c.sOff
    requires daddr == dst[c.d].base + c.dOff && saddr == src[c.s].base + c.sOff
    modifies mem
    ensures Copying(m0, mem[..], dst, src, c.(dOff := c.dOff + n, sOff := c.sOff + n))
    ensures OnlyInside(m0, mem[..], Part(dst, c.d, c.dOff + n))
  {
    hide NotAliased, Bytes, OnlyInside, Part, Read, Copies;
    ghost var m := mem[..];
    Apart(mem.Length, dst, src, c.d, c.s);
    Memcpy(mem, daddr, saddr, n);
    ChunkDone(m0, m, mem[..], dst, src, c, n);
  }

  lemma ChunkDone(m0: seq<U8>, m: seq<U8>, m': seq<U8>, dst: seq<Iov>, src: seq<Iov>, c: Cursor, n: nat)
    requires NotAliased(|m0|, dst, src)
    requires Copying(m0, m, dst, src, c) && OnlyInside(m0, m, Part(dst, c.d, c.dOff))
    requires n <= dst[c.d].len - c.dOff && n <= src[c.s].len - c.sOff
    requires Copies(m, m', dst[c.d].base + c.dOff, src[c.s].base + c.sOff, n)
    ensures Copying(m0, m', dst, src, c.(dOff := c.dOff + n, sOff := c.sOff + n))
    ensures OnlyInside(m0, m', Part(dst, c.d, c.dOff + n))
  {
    hide Copies, OnlyInside, Bytes, Agree, Read;
    var from := src[c.s].base + c.sOff;
    assert |m'| == |m| == |m0| by { SameSize(m0, m, m', Part(dst, c.d, c.dOff), dst[c.d].base + c.dOff, from, n); }
    FilledIntact(m, m', dst, c.d, c.dOff, from, n);
    SourceIntact(m0, m, dst, src, c.d, c.dOff, c.s);
    CopiedIsSource(m0, m, m', src[c.s], dst[c.d].base + c.dOff, c.sOff, n);
    CopyStep(m0, m, m', dst, src, c, n);
    WritesStayInside(m0, m, m', dst, c.d, c.dOff, from, n);
  }

  lemma SameSize(m0: seq<U8>, m: seq<U8>, m': seq<U8>, f: seq<Iov>, d: nat, s: nat, n: nat)
    requires OnlyInside(m0, m, f) && Copies(m, m', d, s, n)
    ensures |m'| == |m| == |m0|
  {
  }

  /** The whole state of the loop, as a predicate on values. */
  predicate Stage(m0: seq<U8>, m: seq<U8>, dst: seq<Iov>, src: seq<Iov>, c: Cursor) {
    && Copying(m0, m, dst, src, c)
    && OnlyInside(m0, m, Part(dst, c.d, c.dOff))
    && InStep(dst, src, c.s, c.d, SourceLeft(src, c))
  }

  lemma StartStage(m0: seq<U8>, dst: seq<Iov>, src: seq<Iov>)
    requires dst != [] && src != []
    ensures Stage(m0, m0, dst, src, Cursor(0, 0, 0, 0))
  {
    assert dst[..0] == [] && src[..0] == [] && dst[0..] == dst && src[0..] == src;
    BytesAppend(m0, [], Iov(dst[0].base, 0));
    BytesAppend(m0, [], Iov(src[0].base, 0));
    TailIsEmpty(src, 0);
    TailIsEmpty(dst, 0);
  }

  /** All of the source has been read. */
  lemma AllRead(m0: seq<U8>, m: seq<U8>, dst: seq<Iov>, src: seq<Iov>, c: Cursor)
    requires Copying(m0, m, dst, src, c) && c.s + 1 == |src| && c.sOff == src[c.s].len
    ensures Bytes(m, Part(dst, c.d, c.dOff)) == Bytes(m0, src)
  {
    assert Part(src, c.s, c.sOff) == src;
  }

  /** All of the destination has been filled, with a prefix of the source. */
  lemma AllFilled(m0: seq<U8>, m: seq<U8>, dst: seq<Iov>, src: seq<Iov>, c: Cursor)
    requires Copying(m0, m, dst, src, c) && OnlyInside(m0, m, Part(dst, c.d, c.dOff))
    requires c.d + 1 == |dst| && c.dOff == dst[c.d].len && InBounds(src[c.s], |m0|)
    ensures OnlyInside(m0, m, dst)
    ensures Bytes(m, dst) <= Bytes(m0, src)
  {
    assert Part(dst, c.d, c.dOff) == dst;
    var rest := PartIsPrefix(m0, src, c.s, c.sOff);
    SumStartsWith(Bytes(m, dst), rest);
  }

  lemma SumStartsWith(x: seq<U8>, y: seq<U8>)
    ensures x <= x + y
  {
  }

  /** After a chunk that used up the source entry only. */
  lemma AfterSource(m0: seq<U8>, m: seq<U8>, dst: seq<Iov>, src: seq<Iov>, b: Cursor, c: Cursor)
    requires Placed(dst, src, b) && src[b.s].len - b.sOff < dst[b.d].len - b.dOff
    requires c == b.(dOff := b.dOff + (src[b.s].len - b.sOff), sOff := src[b.s].len)
    requires Copying(m0, m, dst, src, c) && OnlyInside(m0, m, Part(dst, c.d, c.dOff))
    ensures c.s + 1 < |src| ==> Stage(m0, m, dst, src, c.(s := c.s + 1, sOff := 0))
    ensures c.s + 1 == |src| ==> Fits(dst, src) && Bytes(m, Part(dst, c.d, c.dOff)) == Bytes(m0, src)
  {
    hide Bytes, OnlyInside, Fits, InStep, Length;
    SourceEndsFirst(dst, src, b);
    if c.s + 1 < |src| { NextSource(m0, m, dst, src, c); } else { AllRead(m0, m, dst, src, c); }
  }

  /** After a chunk that filled the destination entry only. */
  lemma AfterDestination(m0: seq<U8>, m: seq<U8>, dst: seq<Iov>, src: seq<Iov>, b: Cursor, c: Cursor)
    requires Placed(dst, src, b) && dst[b.d].len - b.dOff < src[b.s].len - b.sOff && InBounds(src[b.s], |m0|)
    requires c == b.(dOff := dst[b.d].len, sOff := b.sOff + (dst[b.d].len - b.dOff))
    requires Copying(m0, m, dst, src, c) && OnlyInside(m0, m, Part(dst, c.d, c.dOff))
    ensures c.d + 1 < |dst| ==> Stage(m0, m, dst, src, c.(d := c.d + 1, dOff := 0))
    ensures c.d + 1 == |dst| ==> !Fits(dst, src) && OnlyInside(m0, m, dst)
                                 && Bytes(m, dst) <= Bytes(m0, src)
  {
    hide Bytes, OnlyInside, Fits, Length;
    DestinationEndsFirst(dst, src, b);
    if c.d + 1 < |dst| {
      NextDestination(m0, m, dst, src, c);
      InsideNext(m0, m, dst, c.d);
    } else {
      AllFilled(m0, m, dst, src, c);
    }
  }

  /** After a chunk that ended both entries. */
  lemma AfterBoth(m0: seq<U8>, m: seq<U8>, dst: seq<Iov>, src: seq<Iov>, b: Cursor, c: Cursor)
    requires Placed(dst, src, b) && dst[b.d].len - b.dOff == src[b.s].len - b.sOff && InBounds(src[b.s], |m0|)
    requires InStep(dst, src, b.s, b.d, SourceLeft(src, b))
    requires c == b.(dOff := dst[b.d].len, sOff := src[b.s].len)
    requires Copying(m0, m, dst, src, c) && OnlyInside(m0, m, Part(dst, c.d, c.dOff))
    ensures c.d + 1 < |dst| && c.s + 1 < |src| ==> Stage(m0, m, dst, src, Cursor(c.d + 1, 0, c.s + 1, 0))
    ensures c.s + 1 == |src| ==> Fits(dst, src) && Bytes(m, Part(dst, c.d, c.dOff)) == Bytes(m0, src)
    ensures c.d + 1 == |dst| && c.s + 1 < |src| ==>
              !Fits(dst, src) && OnlyInside(m0, m, dst) && Bytes(m, dst) <= Bytes(m0, src)
  {
    hide Bytes, OnlyInside, Fits, InStep, Length;
    InStepBoth(dst, src, b);
    if c.s + 1 == |src| {
      EndBoth(dst, src, b);
      AllRead(m0, m, dst, src, c);
    } else if c.d + 1 == |dst| {
      EndBoth(dst, src, b);
      AllFilled(m0, m, dst, src, c);
    } else {
      NextSource(m0, m, dst, src, c);
      NextDestination(m0, m, dst, src, c.(s := c.s + 1, sOff := 0));
      InsideNext(m0, m, dst, c.d);
    }
  }

  /** The local variables of `memcpyv`. */
  datatype Locals = Locals(d: nat, s: nat, daddr: nat, saddr: nat, dlen: nat, slen: nat, dstLen: nat)

  predicate Match(v: Locals, dst: seq<Iov>, src: seq<Iov>, c: Cursor) {
    && v.d == c.d < |dst| && v.s == c.s < |src| && v.dstLen == c.dOff
    && v.daddr == dst[c.d].base + c.dOff && v.dlen == dst[c.d].len - c.dOff
    && v.saddr == src[c.s].base + c.sOff && v.slen == src[c.s].len - c.sOff
  }

  /** What a finished copy has done: `n` entries used, or 0 and no success. */
  predicate Outcome(m0: seq<U8>, m: seq<U8>, dst0: seq<Iov>, dst: seq<Iov>, src: seq<Iov>, n: nat) {
    && n <= |dst| == |dst0|
    && (n != 0 <==> Fits(dst0, src))
    && (if n == 0
        then dst == dst0 && OnlyInside(m0, m, dst) && (dst != [] && src != [] ==> Bytes(m, dst) <= Bytes(m0, src))
        else dst[n - 1].base == dst0[n - 1].base && dst[n - 1].len <= dst0[n - 1].len
             && dst == dst0[n - 1 := dst[n - 1]]
             && OnlyInside(m0, m, dst[..n]) && Bytes(m, dst[..n]) == Bytes(m0, src))
  }

  /** The `slen < dlen` branch. */
  method SourceShorter(mem: array<U8>, dst: array<Iov>, src: seq<Iov>, v: Locals, ghost m0: seq<U8>, ghost c: Cursor)
    returns (finished: bool, n: nat, w: Locals, ghost e: Cursor)
    requires |m0| == mem.Length && NotAliased(mem.Length, dst[..], src)
    requires Stage(m0, mem[..], dst[..], src, c) && Match(v, dst[..], src, c) && v.slen < v.dlen
    modifies mem, dst
    ensures finished ==> Outcome(m0, mem[..], old(dst[..]), dst[..], src, n)
    ensures !finished ==> dst[..] == old(dst[..]) && Stage(m0, mem[..], dst[..], src, e) && Match(w, dst[..], src, e)
    ensures w.d + w.s == v.d + v.s + 1
  {
    hide Bytes, Fits, InStep, Length, OnlyInside;
    ghost var dst0 := dst[..];
    CopyChunk(mem, v.daddr, v.saddr, v.slen, m0, dst0, src, c);
    e := c.(dOff := c.dOff + v.slen, sOff := c.sOff + v.slen);
    AfterSource(m0, mem[..], dst0, src, c, e);
    var s, dstLen := v.s + 1, v.dstLen + v.slen;
    if s == |src| {
      dst[v.d] := Iov(dst[v.d].base, dstLen);
      assert dst[..v.d + 1] == Part(dst0, v.d, dstLen);
      finished, n, w := true, v.d + 1, v.(s := s);
    } else {
      finished, n := false, 0;
      w := Locals(v.d, s, v.daddr + v.slen, src[s].base, v.dlen - v.slen, src[s].len, dstLen);
      e := e.(s := e.s + 1, sOff := 0);
    }
  }

  /** The `dlen < slen` branch. */
  method DestinationShorter(mem: array<U8>, dst: array<Iov>, src: seq<Iov>, v: Locals, ghost m0: seq<U8>, ghost c: Cursor)
    returns (finished: bool, n: nat, w: Locals, ghost e: Cursor)
    requires |m0| == mem.Length && NotAliased(mem.Length, dst[..], src)
    requires Stage(m0, mem[..], dst[..], src, c) && Match(v, dst[..], src, c) && v.dlen < v.slen
    modifies mem, dst
    ensures finished ==> Outcome(m0, mem[..], old(dst[..]), dst[..], src, n)
    ensures !finished ==> dst[..] == old(dst[..]) && Stage(m0, mem[..], dst[..], src, e) && Match(w, dst[..], src, e)
    ensures w.d + w.s == v.d + v.s + 1
  {
    hide Bytes, Fits, InStep, Length, OnlyInside;
    ghost var dst0 := dst[..];
    CopyChunk(mem, v.daddr, v.saddr, v.dlen, m0, dst0, src, c);
    e := c.(dOff := c.dOff + v.dlen, sOff := c.sOff + v.dlen);
    AfterDestination(m0, mem[..], dst0, src, c, e);
    dst[v.d] := Iov(dst[v.d].base, v.dstLen + v.dlen);
    assert dst[..] == dst0;
    var d := v.d + 1;
    if d == dst.Length {
      finished, n, w := true, 0, v.(d := d);
    } else {
      finished, n := false, 0;
      w := Locals(d, v.s, dst[d].base, v.saddr + v.dlen, dst[d].len, v.slen - v.dlen, 0);
      e := e.(d := e.d + 1, dOff := 0);
    }
  }

  /** The branch where both entries end together. */
  method SameLength(mem: array<U8>, dst: array<Iov>, src: seq<Iov>, v: Locals, ghost m0: seq<U8>, ghost c: Cursor)
    returns (finished: bool, n: nat, w: Locals, ghost e: Cursor)
    requires |m0| == mem.Length && NotAliased(mem.Length, dst[..], src)
    requires Stage(m0, mem[..], dst[..], src, c) && Match(v, dst[..], src, c) && v.dlen == v.slen
    modifies mem, dst
    ensures finished ==> Outcome(m0, mem[..], old(dst[..]), dst[..], src, n)
    ensures !finished ==> dst[..] == old(dst[..]) && Stage(m0, mem[..], dst[..], src, e) && Match(w, dst[..], src, e)
    ensures w.d + w.s == v.d + v.s + 2
  {
    hide Bytes, Fits, InStep, Length, OnlyInside;
    ghost var dst0 := dst[..];
    CopyChunk(mem, v.daddr, v.saddr, v.dlen, m0, dst0, src, c);
    e := c.(dOff := c.dOff + v.dlen, sOff := c.sOff + v.dlen);
    AfterBoth(m0, mem[..], dst0, src, c, e);
    dst[v.d] := Iov(dst[v.d].base, v.dstLen + v.dlen);
    assert dst[..] == dst0;
    var d, s := v.d + 1, v.s + 1;
    if d == dst.Length || s == |src| {
      assert dst[..d] == Part(dst0, v.d, dst0[v.d].len);
      finished, w := true, v.(d := d, s := s);
      n := if s < |src| then 0 else d;
    } else {
      finished, n := false, 0;
      w := Locals(d, s, dst[d].base, src[s].base, dst[d].len, src[s].len, 0);
      e := Cursor(e.d + 1, 0, e.s + 1, 0);
    }
  }

  /** `memcpyv`. Returns how many destination entries were used, 0 if the copy could not complete. The
      length of the last entry used is cut to what it holds; nothing outside those entries changes. */
  method Memcpyv(mem: array<U8>, dst: array<Iov>, src: seq<Iov>) returns (n: nat)
    requires NotAliased(mem.Length, dst[..], src)
    modifies mem, dst
    ensures Outcome(old(mem[..]), mem[..], old(dst[..]), dst[..], src, n)
  {
    if dst.Length < 1 || |src| < 1 { return 0; }
    ghost var m0, c := mem[..], Cursor(0, 0, 0, 0);
    hide Outcome, Bytes, Fits, InStep, Length, OnlyInside;
    StartStage(m0, dst[..], src);
    var v := Locals(0, 0, dst[0].base, src[0].base, dst[0].len, src[0].len, 0);
    var finished := false;
    n := 0;
    while !finished
      invariant finished ==> Outcome(m0, mem[..], old(dst[..]), dst[..], src, n)
      invariant !finished ==> dst[..] == old(dst[..]) && Stage(m0, mem[..], dst[..], src, c) && Match(v, dst[..], src, c)
      decreases if finished then 0 else 1 + dst.Length + |src| - v.d - v.s
    {
      if v.slen < v.dlen {
        finished, n, v, c := SourceShorter(mem, dst, src, v, m0, c);
      } else if v.dlen < v.slen {
        finished, n, v, c := DestinationShorter(mem, dst, src, v, m0, c);
      } else {
        finished, n, v, c := SameLength(mem, dst, src, v, m0, c);
      }
    }
  }
}
