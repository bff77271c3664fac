/**
  The object pool: chunks of memory are carved into objects, each behind a header and a pointer back to
  that header. Addresses are numbers; sizes are those of a 64-bit machine.
 */
module ObjectPool {

  type Addr = nat

  const CHUNK_HEADER: nat := 16
  const OBJ_HEADER: nat := 32
  const WORD: nat := 8

  datatype Option<T> = None | Some(value: T)

  /** What one object takes: header, back pointer and the object itself. */
  function Stride(size: nat): nat { OBJ_HEADER + WORD + size }

  function ObjectOf(header: Addr): Addr { header + OBJ_HEADER + WORD }

  /** Where the i-th header of a chunk is; with `i` the number of objects, the end of the chunk. */
  function HeaderAt(base: Addr, size: nat, i: nat): Addr {
    if i == 0 then base + CHUNK_HEADER else HeaderAt(base, size, i - 1) + Stride(size)
  }

  /** The end of the chunk is where the allocated size says. */
  lemma {:induction false} ChunkEnd(base: Addr, size: nat, n: nat)
    ensures HeaderAt(base, size, n) == base + CHUNK_HEADER + n * Stride(size)
  {
    if n > 0 { ChunkEnd(base, size, n - 1); }
  }

  lemma {:induction false} HeadersApart(base: Addr, size: nat, i: nat, j: nat)
    requires i < j
    ensures base + CHUNK_HEADER <= HeaderAt(base, size, i)
    ensures HeaderAt(base, size, i) + Stride(size) <= HeaderAt(base, size, j)
    decreases j
  {
    if i < j - 1 {
      HeadersApart(base, size, i, j - 1);
    } else if i > 0 {
      HeadersApart(base, size, i - 1, i);
    }
  }

  /** The headers of a chunk, the last carved first. */
  function Carved(base: Addr, size: nat, n: nat): (hs: seq<Addr>)
    ensures |hs| == n
  {
    if n == 0 then [] else [HeaderAt(base, size, n - 1)] + Carved(base, size, n - 1)
  }

  lemma {:induction false} CarvedAt(base: Addr, size: nat, n: nat, k: nat)
    requires k < n
    ensures Carved(base, size, n)[k] == HeaderAt(base, size, n - 1 - k)
  {
    if k > 0 { CarvedAt(base, size, n - 1, k - 1); }
  }

  /** Neither header, back pointer nor object of one lies in those of the other. */
  predicate Apart(h: Addr, g: Addr, size: nat) { h + Stride(size) <= g || g + Stride(size) <= h }

  predicate AllApart(hs: seq<Addr>, size: nat) {
    forall i, j :: 0 <= i < j < |hs| ==> Apart(hs[i], hs[j], size)
  }

  datatype Chunk = Chunk(base: Addr, end: Addr)

  predicate Inside(h: Addr, size: nat, c: Chunk) { c.base + CHUNK_HEADER <= h && h + Stride(size) <= c.end }

  predicate InSome(h: Addr, size: nat, chunks: seq<Chunk>) {
    exists k :: 0 <= k < |chunks| && Inside(h, size, chunks[k])
  }

  /** The first `n` objects of a new chunk with room for `m` are inside it and apart. */
  lemma CarvedApart(base: Addr, size: nat, n: nat, m: nat)
    requires n <= m
    ensures AllApart(Carved(base, size, n), size)
    ensures forall h :: h in Carved(base, size, n) ==> Inside(h, size, Chunk(base, HeaderAt(base, size, m)))
  {
    hide Carved, HeaderAt;
    var hs := Carved(base, size, n);
    forall i, j | 0 <= i < j < n ensures Apart(hs[i], hs[j], size) {
      CarvedAt(base, size, n, i);
      CarvedAt(base, size, n, j);
      HeadersApart(base, size, n - 1 - j, n - 1 - i);
    }
    forall h | h in hs ensures Inside(h, size, Chunk(base, HeaderAt(base, size, m))) {
      var i :| 0 <= i < n && hs[i] == h;
      CarvedAt(base, size, n, i);
      HeadersApart(base, size, n - 1 - i, m);
    }
  }

  /** Chunks the allocator hands out do not overlap. */
  predicate ClearOf(c: Chunk, chunks: seq<Chunk>) {
    forall k :: 0 <= k < |chunks| ==> c.end <= chunks[k].base || chunks[k].end <= c.base
  }

  lemma GrowthApart(hs: seq<Addr>, gs: seq<Addr>, size: nat, c: Chunk, chunks: seq<Chunk>)
    requires AllApart(hs, size) && AllApart(gs, size) && ClearOf(c, chunks)
    requires forall h :: h in hs ==> Inside(h, size, c)
    requires forall g :: g in gs ==> InSome(g, size, chunks)
    ensures AllApart(hs + gs, size)
  {
    forall i, j | 0 <= i < j < |hs + gs| ensures Apart((hs + gs)[i], (hs + gs)[j], size) {
      if i < |hs| <= j {
        assert hs[i] in hs && gs[j - |hs|] in gs;
        var k :| 0 <= k < |chunks| && Inside(gs[j - |hs|], size, chunks[k]);
      }
    }
  }

  lemma Together(hs: seq<Addr>, size: nat, h: Addr, g: Addr)
    requires AllApart(hs, size) && h in hs && g in hs && h != g
    ensures Apart(h, g, size)
  {
  }

  lemma {:induction false} AtMostOnce(hs: seq<Addr>, size: nat, h: Addr)
    requires AllApart(hs, size)
    ensures multiset(hs)[h] <= 1
  {
    if hs != [] {
      var r := hs[1..];
      assert hs == [hs[0]] + r && AllApart(r, size);
      AtMostOnce(r, size, h);
    }
  }

  /** Each header points to its object and each object, through the word before it, to its header. */
  predicate Pointers(mem: map<Addr, Addr>, hs: seq<Addr>) {
    forall h :: h in hs ==>
      && h in mem && mem[h] == ObjectOf(h)
      && h + OBJ_HEADER in mem && mem[h + OBJ_HEADER] == h
  }

  lemma PointersGrow(mem: map<Addr, Addr>, h: Addr, hs: seq<Addr>, size: nat)
    requires Pointers(mem, hs) && AllApart([h] + hs, size)
    ensures Pointers(mem[h := ObjectOf(h)][h + OBJ_HEADER := h], [h] + hs)
  {
    forall g | g in hs ensures Apart(h, g, size) {
      var i :| 0 <= i < |hs| && hs[i] == g;
      assert ([h] + hs)[0] == h && ([h] + hs)[i + 1] == g;
    }
  }

  /** What lay in a chunk still does when there is one more, and so do the new headers. */
  lemma SomeStill(gs: seq<Addr>, hs: seq<Addr>, size: nat, c: Chunk, chunks: seq<Chunk>)
    requires forall h :: h in hs ==> Inside(h, size, c)
    requires forall g :: g in gs ==> InSome(g, size, chunks)
    ensures forall h :: h in hs + gs ==> InSome(h, size, [c] + chunks)
  {
    forall h | h in hs + gs ensures InSome(h, size, [c] + chunks) {
      if h in hs {
        assert Inside(h, size, ([c] + chunks)[0]);
      } else {
        var k :| 0 <= k < |chunks| && Inside(h, size, chunks[k]);
        assert Inside(h, size, ([c] + chunks)[k + 1]);
      }
    }
  }

  class Pool {
    const objSize: nat
    const growNr: nat
    var freeList: seq<Addr>
    var usedList: seq<Addr>
    var chunksList: seq<Chunk>
    var totalNr: nat
    /** The pointers the pool has stored. */
    var mem: map<Addr, Addr>
    /** Every header carved so far. */
    ghost var Headers: seq<Addr>

    ghost predicate Laid()
      reads this`Headers, this`mem, this`chunksList
    {
      && AllApart(Headers, objSize) && Pointers(mem, Headers)
      && forall h :: h in Headers ==> InSome(h, objSize, chunksList)
    }

    /** Free and used partition all objects. */
    ghost predicate Valid()
      reads this
    {
      && Laid() && multiset(freeList) + multiset(usedList) == multiset(Headers)
      && |Headers| <= totalNr
    }

    constructor (size: nat, grow: nat)
      ensures Valid() && objSize == size && growNr == grow && freeList == usedList == Headers == []
    {
      objSize, growNr := size, grow;
      freeList, usedList, chunksList, totalNr, mem, Headers := [], [], [], 0, map[], [];
    }

    /** The carving loop. */
    method Carve(base: Addr, n: nat, ghost chunks: seq<Chunk>)
      requires AllApart(Headers, objSize) && Pointers(mem, Headers)
      requires forall h :: h in Headers ==> InSome(h, objSize, chunks)
      requires ClearOf(Chunk(base, HeaderAt(base, objSize, n)), chunks)
      modifies this`freeList, this`mem
      ensures freeList == Carved(base, objSize, n) + old(freeList)
      ensures Pointers(mem, Carved(base, objSize, n) + Headers)
    {
      hide AllApart, Pointers, ClearOf, InSome, Inside;
      ghost var free := freeList;
      var obj: Addr := base + CHUNK_HEADER;
      assert [] + Headers == Headers;
      for i := 0 to n
        invariant obj == HeaderAt(base, objSize, i)
        invariant freeList == Carved(base, objSize, i) + free
        invariant Pointers(mem, Carved(base, objSize, i) + Headers)
      {
        ghost var hs := Carved(base, objSize, i) + Headers;
        CarvedApart(base, objSize, i + 1, n);
        GrowthApart(Carved(base, objSize, i + 1), Headers, objSize, Chunk(base, HeaderAt(base, objSize, n)), chunks);
        assert Carved(base, objSize, i + 1) + Headers == [obj] + hs;
        PointersGrow(mem, obj, hs, objSize);
        ghost var m: map<Addr, Addr> := mem;
        mem := mem[obj := obj + OBJ_HEADER];
        mem := mem[mem[obj] := obj];
        mem := mem[obj := mem[obj] + WORD];
        assert mem == m[obj := ObjectOf(obj)][obj + OBJ_HEADER := obj];
        freeList := [obj] + freeList;
        obj := mem[obj] + objSize;
      }
    }

    /** `xio_objpool_realloc`; `at` is where the allocator places the chunk, if it grants one. */
    method Realloc(n: nat, at: Option<Addr>) returns (ok: bool)
      requires Valid()
      requires at.Some? ==> ClearOf(Chunk(at.value, HeaderAt(at.value, objSize, n)), chunksList)
      modifies this
      ensures Valid() && usedList == old(usedList) && totalNr == old(totalNr) + n
      ensures ok == at.Some?
      ensures freeList == if ok then Carved(at.value, objSize, n) + old(freeList) else old(freeList)
    {
      hide AllApart, Pointers, ClearOf, Inside, Carved;
      totalNr := totalNr + n;
      if at.None? { return false; }
      var base := at.value;
      ghost var c, hs := Chunk(base, HeaderAt(base, objSize, n)), Carved(base, objSize, n);
      ChunkEnd(base, objSize, n);
      CarvedApart(base, objSize, n, n);
      GrowthApart(hs, Headers, objSize, c, chunksList);
      Carve(base, n, chunksList);
      chunksList := [Chunk(base, base + CHUNK_HEADER + n * Stride(objSize))] + chunksList;
      SomeStill(Headers, hs, objSize, c, old(chunksList));
      Headers := hs + Headers;
      ok := true;
    }

    /** `xio_objpool_alloc`: the object returned is apart from every live one. */
    method Alloc(at: Option<Addr>) returns (o: Option<Addr>)
      requires Valid()
      requires at.Some? ==> ClearOf(Chunk(at.value, HeaderAt(at.value, objSize, growNr)), chunksList)
      modifies this
      ensures Valid()
      ensures o.None? <==> old(freeList) == [] && (at.None? || growNr == 0)
      ensures o.None? ==> freeList == old(freeList) && usedList == old(usedList)
      ensures o.Some? ==>
                && usedList != [] && usedList[1..] == old(usedList) && o.value == ObjectOf(usedList[0])
                && [usedList[0]] + freeList ==
                   (if old(freeList) != [] then old(freeList) else Carved(at.value, objSize, growNr))
                && forall g :: g in old(usedList) ==> Apart(usedList[0], g, objSize)
    {
      hide Laid, ClearOf, Carved;
      if freeList == [] {
        var ok := Realloc(growNr, at);
        if !ok { return None; }
        assert freeList == Carved(at.value, objSize, growNr);
      }
      if freeList == [] { return None; }
      var obj := TakeFirst();
      o := Some(obj);
    }

    /** The first free object becomes a used one. */
    method TakeFirst() returns (o: Addr)
      requires Valid() && freeList != []
      modifies this`freeList, this`usedList
      ensures Valid() && usedList == [old(freeList[0])] + old(usedList) && freeList == old(freeList[1..])
      ensures o == ObjectOf(old(freeList[0]))
      ensures forall g :: g in old(usedList) ==> Apart(old(freeList[0]), g, objSize)
    {
      hide AllApart;
      var h := freeList[0];
      assert freeList == [h] + freeList[1..];
      assert h in multiset(Headers);
      AtMostOnce(Headers, objSize, h);
      forall g | g in usedList ensures Apart(h, g, objSize) {
        assert g in multiset(usedList) && g in multiset(Headers);
        Together(Headers, objSize, h, g);
      }
      o := mem[h];
      freeList, usedList := freeList[1..], [h] + usedList;
    }

    /** `xio_objpool_free`: the word before the object leads to its header, entry `k` of the used list. */
    method Free(o: Option<Addr>, ghost k: nat)
      requires Valid()
      requires o.Some? ==> k < |usedList| && o.value == ObjectOf(usedList[k])
      modifies this
      ensures Valid()
      ensures o.None? ==> freeList == old(freeList) && usedList == old(usedList)
      ensures o.Some? ==> freeList == [old(usedList[k])] + old(freeList)
                          && usedList == old(usedList[..k] + usedList[k + 1..])
    {
      if o.None? { return; }
      hide AllApart;
      BackPointer(k);
      var h := mem[o.value - WORD];
      var i := 0;
      while usedList[i] != h
        invariant i <= k
        decreases k - i
      {
        i := i + 1;
      }
      SameEntry(i, k);
      assert usedList == usedList[..i] + [h] + usedList[i + 1..];
      usedList := usedList[..i] + usedList[i + 1..];
      freeList := [h] + freeList;
    }

    lemma BackPointer(k: nat)
      requires Valid() && k < |usedList|
      ensures var w := ObjectOf(usedList[k]) - WORD; w in mem && mem[w] == usedList[k]
    {
      assert usedList[k] in multiset(usedList) && usedList[k] in multiset(Headers);
      assert usedList[k] in Headers;
    }

    /** An object is on the used list once. */
    lemma SameEntry(i: nat, k: nat)
      requires Valid() && i <= k < |usedList| && usedList[i] == usedList[k]
      ensures i == k
    {
      var h := usedList[k];
      AtMostOnce(Headers, objSize, h);
      assert usedList == usedList[..k] + [h] + usedList[k + 1..];
    }
  }
}
