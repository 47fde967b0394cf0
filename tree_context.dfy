/** `xl::TreeContext` (`XLangTreeContext.h`, `XLangTreeContext.cpp`): the allocator a parse
  * tree lives in, the tree's root, and a set of interned strings ordered by content. */
module XLangTreeContext {
  import opened Wrappers
  import opened XLangAlloc

  /** A `std::string` object in allocator memory: its address and its characters. */
  datatype StrPtr = StrPtr(addr: nat, text: string)

  /** `std::string::operator<`: lexicographic order on the characters. */
  predicate LexLess(a: string, b: string)
  {
    if a == [] then b != []
    else b != [] && (a[0] < b[0] || (a[0] == b[0] && LexLess(a[1..], b[1..])))
  }

  /** `str_ptr_compare_t`: two string pointers are ordered by the strings they point to. */
  predicate StrPtrLess(p: StrPtr, q: StrPtr)
  {
    LexLess(p.text, q.text)
  }

  lemma {:induction false} LexLessIrreflexive(a: string)
    ensures !LexLess(a, a)
  {
    if a != [] { LexLessIrreflexive(a[1..]); }
  }

  lemma {:induction false} LexLessTransitive(a: string, b: string, c: string)
    requires LexLess(a, b) && LexLess(b, c)
    ensures LexLess(a, c)
  {
    if a != [] && a[0] == b[0] && b[0] == c[0] {
      LexLessTransitive(a[1..], b[1..], c[1..]);
    }
  }

  lemma {:induction false} LexLessTotal(a: string, b: string)
    requires a != b
    ensures LexLess(a, b) || LexLess(b, a)
  {
    if a != [] && b != [] && a[0] == b[0] {
      assert a == [a[0]] + a[1..] && b == [b[0]] + b[1..];
      LexLessTotal(a[1..], b[1..]);
    }
  }

  /** The comparator is a strict order, and two strings are equivalent under it (neither is
    * less than the other) exactly when they are equal, so a `std::set` with this comparator
    * holds at most one pointer per content. */
  lemma StrPtrEquivalence(p: StrPtr, q: StrPtr)
    ensures !StrPtrLess(p, q) && !StrPtrLess(q, p) <==> p.text == q.text
    ensures !StrPtrLess(p, p)
  {
    LexLessIrreflexive(p.text);
    if p.text != q.text { LexLessTotal(p.text, q.text); }
  }

  class TreeContext {
    /** `alloc()`: the allocator given to the constructor. */
    const alloc: Allocator
    /** `sizeof(std::string)` on the platform. */
    const stringSize: nat
    /** `root()`, which hands out a mutable reference. */
    var root: Option<nat>
    /** `m_string_set` */
    var stringSet: set<StrPtr>

    /** The interned strings have distinct contents and were all allocated. */
    ghost predicate Valid()
      reads this, alloc
    {
      alloc.Valid()
      && (forall p, q :: p in stringSet && q in stringSet && p.text == q.text ==> p == q)
      && (forall p :: p in stringSet ==> p.addr < alloc.next)
    }

    /** `TreeContext::TreeContext`: no root yet and no interned strings. */
    constructor(alloc: Allocator, stringSize: nat)
      requires alloc.Valid()
      ensures this.alloc == alloc && this.stringSize == stringSize
      ensures root == None && stringSet == {}
      ensures Valid()
    {
      this.alloc := alloc;
      this.stringSize := stringSize;
      root := None;
      stringSet := {};
    }

    /** Assigning through `root()`. */
    method SetRoot(r: Option<nat>)
      modifies this`root
      ensures root == r
    {
      root := r;
    }

    /** `alloc_string`: a freshly allocated copy of `s`, not interned. */
    method AllocString(s: string) returns (p: StrPtr)
      requires Valid()
      modifies alloc
      ensures p.text == s && p.addr == old(alloc.next) && p.addr !in old(alloc.chunks)
      ensures alloc.next == old(alloc.next) + 1
      ensures alloc.chunks == old(alloc.chunks)[p.addr := Chunk(stringSize, true)]
      ensures alloc.sizeBytes == old(alloc.sizeBytes) + stringSize
      ensures alloc.dtorLog == old(alloc.dtorLog)
      ensures stringSet == old(stringSet)
      ensures Valid()
    {
      var a := alloc.Malloc(stringSize, true);
      p := StrPtr(a, s);
    }

    /** `alloc_unique_string`: the interned pointer whose content equals `name`, allocating and
      * interning one when there is none yet. */
    method AllocUniqueString(name: string) returns (p: StrPtr)
      requires Valid()
      modifies this`stringSet, alloc
      ensures p.text == name && p in stringSet
      ensures forall q :: q in stringSet && q.text == name ==> q == p
      ensures (exists q :: q in old(stringSet) && q.text == name) ==>
                p in old(stringSet) && stringSet == old(stringSet) && unchanged(alloc)
      ensures (forall q :: q in old(stringSet) ==> q.text != name) ==>
                p.addr == old(alloc.next) && stringSet == old(stringSet) + {p}
                && alloc.next == old(alloc.next) + 1
                && alloc.chunks == old(alloc.chunks)[p.addr := Chunk(stringSize, true)]
                && alloc.sizeBytes == old(alloc.sizeBytes) + stringSize
                && alloc.dtorLog == old(alloc.dtorLog)
      ensures Valid()
    {
      var key := StrPtr(0, name);
      if q :| q in stringSet && !StrPtrLess(q, key) && !StrPtrLess(key, q) {
        StrPtrEquivalence(q, key);
        p := q;
      } else {
        forall q | q in stringSet ensures q.text != name {
          StrPtrEquivalence(q, key);
        }
        var a := alloc.Malloc(stringSize, true);
        p := StrPtr(a, name);
        stringSet := stringSet + {p};
      }
    }
  }
}
