/** The tracking allocator of `XLangAlloc.cpp`: every block comes from the platform `malloc`
  * and is remembered in a map from its address to a `MemChunk`, together with a running
  * byte count. */
module XLangAlloc {

  /** What a `MemChunk` records about one block: its size and whether a destructor callback
    * was registered for it (`PNEW` registers one, `PNEW_LOC` does not). */
  datatype Chunk = Chunk(size: nat, hasDtor: bool)

  /** Total size of the chunks at addresses below `n`. */
  function SizeBelow(m: map<nat, Chunk>, n: nat): nat
  {
    if n == 0 then 0 else SizeBelow(m, n - 1) + (if n - 1 in m then m[n - 1].size else 0)
  }

  /** The addresses below `n` whose chunk carries a destructor callback, in ascending order. */
  function DtorsBelow(m: map<nat, Chunk>, n: nat): seq<nat>
  {
    if n == 0 then [] else DtorsBelow(m, n - 1) + (if n - 1 in m && m[n - 1].hasDtor then [n - 1] else [])
  }

  /** Only the chunks below `n` count. */
  lemma {:induction false} SizeBelowOnly(m: map<nat, Chunk>, m': map<nat, Chunk>, n: nat)
    requires forall a :: a < n ==> (a in m <==> a in m') && (a in m ==> m[a] == m'[a])
    ensures SizeBelow(m, n) == SizeBelow(m', n)
  {
    if n > 0 { SizeBelowOnly(m, m', n - 1); }
  }

  /** Adding a chunk at an address below `n` adds its size. */
  lemma {:induction false} SizeBelowAdd(m: map<nat, Chunk>, a: nat, c: Chunk, n: nat)
    requires a !in m && a < n
    ensures SizeBelow(m[a := c], n) == SizeBelow(m, n) + c.size
  {
    if n - 1 == a {
      SizeBelowOnly(m[a := c], m, n - 1);
    } else {
      SizeBelowAdd(m, a, c, n - 1);
    }
  }

  /** Removing a chunk takes its size away. */
  lemma SizeBelowRemove(m: map<nat, Chunk>, a: nat, n: nat)
    requires a in m && a < n
    ensures SizeBelow(m - {a}, n) + m[a].size == SizeBelow(m, n)
  {
    assert m == (m - {a})[a := m[a]];
    SizeBelowAdd(m - {a}, a, m[a], n);
  }

  /** A map whose keys all lie below `n` has nothing beyond `n` to add. */
  lemma {:induction false} SizeBelowGrow(m: map<nat, Chunk>, n: nat, n': nat)
    requires n <= n' && forall a :: a in m ==> a < n
    ensures SizeBelow(m, n') == SizeBelow(m, n)
    decreases n' - n
  {
    if n < n' { SizeBelowGrow(m, n, n' - 1); }
  }

  /** The sizes of the map's chunks bound each one of them. */
  lemma {:induction false} SizeBelowAtLeast(m: map<nat, Chunk>, a: nat, n: nat)
    requires a in m && a < n
    ensures m[a].size <= SizeBelow(m, n)
  {
    if n - 1 != a { SizeBelowAtLeast(m, a, n - 1); }
  }

  /** `DtorsBelow` lists exactly the chunks with a destructor, each once, in ascending order. */
  lemma {:induction false} DtorsBelowSpec(m: map<nat, Chunk>, n: nat)
    ensures forall a :: a in DtorsBelow(m, n) <==> a < n && a in m && m[a].hasDtor
    ensures forall i, j :: 0 <= i < j < |DtorsBelow(m, n)| ==> DtorsBelow(m, n)[i] < DtorsBelow(m, n)[j]
  {
    if n > 0 {
      DtorsBelowSpec(m, n - 1);
      var d := DtorsBelow(m, n - 1);
      forall i, j | 0 <= i < j < |DtorsBelow(m, n)| ensures DtorsBelow(m, n)[i] < DtorsBelow(m, n)[j] {
        if j >= |d| { assert d[i] in d; }
      }
    }
  }

  /** `xl::Allocator`. `next` stands for the platform `malloc`: the next address it hands out.
    * `dtorLog` records, in order, the addresses whose destructor callback has run. */
  class Allocator {
    const name: string
    var next: nat
    var chunks: map<nat, Chunk>
    var sizeBytes: nat
    ghost var dtorLog: seq<nat>

    /** Every tracked address was handed out, and the byte count covers the tracked chunks. */
    ghost predicate Valid()
      reads this
    {
      (forall a :: a in chunks ==> a < next) && sizeBytes >= SizeBelow(chunks, next)
    }

    /** The byte count is exactly the total size of the tracked chunks. */
    ghost predicate Balanced()
      reads this
    {
      sizeBytes == SizeBelow(chunks, next)
    }

    /** `Allocator::Allocator`: a new allocator tracks nothing and counts zero bytes. */
    constructor(name: string)
      ensures this.name == name && chunks == map[] && sizeBytes == 0 && dtorLog == []
      ensures next == 1
      ensures Valid() && Balanced()
    {
      this.name := name;
      next := 1;
      chunks := map[];
      sizeBytes := 0;
      dtorLog := [];
    }

    /** `Allocator::_malloc`: allocate a block, track it, count its bytes. */
    method Malloc(size: nat, hasDtor: bool) returns (a: nat)
      requires Valid()
      modifies this
      ensures a == old(next) && next == a + 1 && a !in old(chunks)
      ensures chunks == old(chunks)[a := Chunk(size, hasDtor)]
      ensures sizeBytes == old(sizeBytes) + size
      ensures dtorLog == old(dtorLog)
      ensures Valid()
      ensures old(Balanced()) ==> Balanced()
    {
      a := next;
      SizeBelowGrow(chunks, next, next + 1);
      chunks := chunks[a := Chunk(size, hasDtor)];
      next := next + 1;
      sizeBytes := sizeBytes + size;
      SizeBelowAdd(old(chunks), a, Chunk(size, hasDtor), next);
    }

    /** `Allocator::_free(ptr)` for a tracked pointer: untrack it, take its bytes off the count
      * and run its destructor callback, if any. (For an untracked pointer the code erases the
      * map's `end()`, which is undefined.) */
    method Free(a: nat)
      requires Valid() && a in chunks
      modifies this
      ensures chunks == old(chunks) - {a}
      ensures sizeBytes == old(sizeBytes) - old(chunks)[a].size
      ensures dtorLog == old(dtorLog) + (if old(chunks)[a].hasDtor then [a] else [])
      ensures next == old(next)
      ensures Valid()
      ensures old(Balanced()) ==> Balanced()
    {
      var c := chunks[a];
      SizeBelowAtLeast(chunks, a, next);
      SizeBelowRemove(chunks, a, next);
      sizeBytes := sizeBytes - c.size;
      if c.hasDtor {
        dtorLog := dtorLog + [a];
      }
      chunks := chunks - {a};
    }

    /** `Allocator::_free()`: destroy every chunk in ascending address order (the order of
      * `std::map`) and empty the map. The byte count is left as it was, so it matches the
      * (now zero) size of the tracked chunks only if it was already zero. */
    method FreeAll()
      requires Valid()
      modifies this
      ensures chunks == map[]
      ensures sizeBytes == old(sizeBytes)
      ensures SizeBelow(chunks, next) == 0
      ensures Balanced() <==> old(sizeBytes) == 0
      ensures dtorLog == old(dtorLog) + DtorsBelow(old(chunks), old(next))
      ensures next == old(next)
      ensures Valid()
    {
      var a := 0;
      while a < next
        invariant 0 <= a <= next
        invariant dtorLog == old(dtorLog) + DtorsBelow(chunks, a)
        invariant chunks == old(chunks) && sizeBytes == old(sizeBytes) && next == old(next)
      {
        if a in chunks && chunks[a].hasDtor {
          dtorLog := dtorLog + [a];
        }
        a := a + 1;
      }
      chunks := map[];
      ZeroSize(next);
    }

    /** `Allocator::~Allocator` runs `_free()`. */
    method Dispose()
      requires Valid()
      modifies this
      ensures chunks == map[] && sizeBytes == old(sizeBytes)
      ensures dtorLog == old(dtorLog) + DtorsBelow(old(chunks), old(next))
      ensures next == old(next)
    {
      FreeAll();
    }
  }

  lemma {:induction false} ZeroSize(n: nat)
    ensures SizeBelow(map[], n) == 0
  {
    if n > 0 { ZeroSize(n - 1); }
  }
}
