/** `mvc::MVCModel` (`XLangMVCModel.cpp`, `XLangMVCModel.h`): building parse-tree nodes in a
  * tree context's allocator, and reading a tree back from a parsed XML document.
  *
  * The XML document is given as the tree the XML library would hand to the reader: a document,
  * declarations, elements with their attributes in document order, and other nodes (comments,
  * text). `ConvertNode` says what tree the reader builds for such a document; the methods build
  * it node by node in the arena and are proved to realise it (`Holds`). */
module XLangMVCModel {
  import opened Wrappers
  import opened XLangAlloc
  import opened XLangNodeIFace
  import opened XLangTreeContext
  import opened XLangString
  import opened XLangNode

  // ---------------------------------------------------------------------
  // The XML document and what the reader makes of it
  // ---------------------------------------------------------------------

  /** A node of a parsed XML document. */
  datatype XNode =
    | Document(kids: seq<XNode>)
    | Declaration
    | Element(name: string, attrs: seq<(string, string)>, kids: seq<XNode>)
    | Other

  /** The functions the reader calls outside this component: `name_to_id` (the lexer's table
    * from names to lexer ids), `atoi`, and `atof` followed by the conversion to `float`, given
    * as the 32-bit pattern of the result. */
  datatype Oracles = Oracles(nameToId: string -> nat, atoi: string -> int, atof: string -> bv32)

  /** A term's payload as the reader computes it (a STRING or IDENT payload is a pointer to a
    * string in the tree context; only its characters are fixed here). */
  datatype Payload = IntP(i: int) | FloatP(bits: bv32) | StringP(text: string) | CharP(c: char) | IdentP(text: string)

  /** The tree the reader builds: null, a term, or a symbol with its children in order. */
  datatype Ast = Null | Leaf(lexerId: nat, payload: Payload) | Tree(lexerId: nat, kids: seq<Ast>)

  /** The `attr_map` the attribute loop builds: a later attribute of the same name overwrites
    * an earlier one. */
  function AttrMap(attrs: seq<(string, string)>): map<string, string>
  {
    if attrs == [] then map[]
    else AttrMap(attrs[..|attrs| - 1])[attrs[|attrs| - 1].0 := attrs[|attrs| - 1].1]
  }

  /** `attr_map[k]`, which yields the empty string for an absent key. */
  function Lookup(m: map<string, string>, k: string): string
  {
    if k in m then m[k] else ""
  }

  /** The type name, lexer id and value the reader takes from an element's attributes: the
    * `type` and `value` attributes and the lexer id of the type name, or the empty name, 0 and
    * the empty value when the element has no attribute at all. */
  function ElementHead(o: Oracles, attrs: seq<(string, string)>): (string, nat, string)
  {
    var m := AttrMap(attrs);
    if |m| > 0 then (Lookup(m, "type"), o.nameToId(Lookup(m, "type")), Lookup(m, "value"))
    else ("", 0, "")
  }

  /** `_make_term_from_typename`'s choice of payload: `int` and `float` go through `atoi` and
    * `atof` (on the characters before the first NUL, as `c_str()` passes them), `string` is
    * XML-unescaped, `char` is the first unescaped character (the terminating NUL when there is
    * none), `ident` is taken as it is; any other type name makes no term. */
  function TermPayload(o: Oracles, typename: string, value: string): Option<Payload>
  {
    if typename == "int" then Some(IntP(o.atoi(CString(value))))
    else if typename == "float" then Some(FloatP(o.atof(CString(value))))
    else if typename == "string" then Some(StringP(XmlUnescaped(value)))
    else if typename == "char" then Some(CharP(FirstChar(XmlUnescaped(value))))
    else if typename == "ident" then Some(IdentP(value))
    else None
  }

  /** `s[0]` on a `std::string`, which is the terminating NUL for the empty string. */
  function FirstChar(s: string): char
  {
    if |s| > 0 then s[0] else '\0'
  }

  /** `_make_ast_from_ticpp`: a document becomes a symbol with lexer id 0 holding the converted
    * children, or the one converted child itself when there is exactly one; a declaration, an
    * element named `NULL` and any other node become null; an element becomes a term when its
    * type name is one of the five term types, and otherwise a symbol holding its converted
    * children (symbol children of the same type are not spliced in). */
  function ConvertNode(o: Oracles, x: XNode): Ast
    decreases x, 1
  {
    match x
    case Document(kids) =>
      var ks := ConvertKids(o, x);
      if |ks| == 1 then ks[0] else Tree(0, ks)
    case Declaration => Null
    case Element(name, attrs, kids) =>
      if name == "NULL" then Null
      else
        var (typename, lexerId, value) := ElementHead(o, attrs);
        (match TermPayload(o, typename, value)
         case Some(p) => Leaf(lexerId, p)
         case None => Tree(lexerId, ConvertKids(o, x)))
    case Other => Null
  }

  /** The converted children of a document or an element, in order. */
  function ConvertKids(o: Oracles, x: XNode): (r: seq<Ast>)
    requires x.Document? || x.Element?
    ensures |r| == |x.kids|
    decreases x, 0
  {
    seq(|x.kids|, i requires 0 <= i < |x.kids| => ConvertNode(o, x.kids[i]))
  }

  /** The reader dereferences the one child of a document without checking it for null, so no
    * document may have a single child that converts to null. */
  ghost predicate Readable(o: Oracles, x: XNode)
    decreases x
  {
    match x
    case Document(kids) =>
      !(|kids| == 1 && ConvertNode(o, kids[0]).Null?) && forall i :: 0 <= i < |kids| ==> Readable(o, kids[i])
    case Element(_, _, kids) => forall i :: 0 <= i < |kids| ==> Readable(o, kids[i])
    case _ => true
  }

  // ---------------------------------------------------------------------
  // Properties of the reader
  // ---------------------------------------------------------------------

  /** The attribute map holds exactly the attribute names of the element, each with the value
    * of its last occurrence. */
  lemma {:induction false} AttrMapSpec(attrs: seq<(string, string)>, k: string)
    ensures k in AttrMap(attrs) <==> exists i :: 0 <= i < |attrs| && attrs[i].0 == k
    ensures k in AttrMap(attrs) ==> exists i :: 0 <= i < |attrs| && attrs[i] == (k, AttrMap(attrs)[k])
                                       && forall j :: i < j < |attrs| ==> attrs[j].0 != k
  {
    if attrs != [] {
      var n := |attrs| - 1;
      var init := attrs[..n];
      var last := attrs[n];
      var m0 := AttrMap(init);
      var m := AttrMap(attrs);
      assert m == m0[last.0 := last.1];
      AttrMapSpec(init, k);
      if last.0 != k {
        assert k in m <==> k in m0;
        if k in m0 {
          var i :| 0 <= i < |init| && init[i] == (k, m0[k]) && forall j :: i < j < |init| ==> init[j].0 != k;
          assert attrs[i] == init[i] && m[k] == m0[k];
          assert forall j :: i < j < |attrs| ==> attrs[j].0 != k by {
            forall j | i < j < |attrs| ensures attrs[j].0 != k {
              if j < n { assert attrs[j] == init[j]; }
            }
          }
        }
        forall i | 0 <= i < |attrs| && attrs[i].0 == k ensures k in m0 {
          assert i < |init| && init[i] == attrs[i];
        }
      } else {
        assert k in m && m[k] == last.1;
        assert attrs[n] == (k, m[k]);
      }
    }
  }

  /** An element has an attribute map of positive size exactly when it has an attribute. */
  lemma AttrMapEmpty(attrs: seq<(string, string)>)
    ensures |AttrMap(attrs)| > 0 <==> attrs != []
  {
    if attrs != [] {
      var k := attrs[|attrs| - 1].0;
      assert k in AttrMap(attrs);
    }
  }

  /** The payload is chosen by the type name alone: there is one exactly for the five term type
    * names, and its kind is the kind that name denotes. */
  lemma TermPayloadKinds(o: Oracles, typename: string, value: string)
    ensures TermPayload(o, typename, value).Some? <==> typename in {"int", "float", "string", "char", "ident"}
    ensures typename == "int" ==> TermPayload(o, typename, value).value.IntP?
    ensures typename == "float" ==> TermPayload(o, typename, value).value.FloatP?
    ensures typename == "string" ==> TermPayload(o, typename, value) == Some(StringP(XmlUnescaped(value)))
    ensures typename == "char" ==> TermPayload(o, typename, value).value.CharP?
    ensures typename == "ident" ==> TermPayload(o, typename, value) == Some(IdentP(value))
  {
  }

  /** A document with exactly one child is read as that child's tree; a document with any other
    * number of children is a symbol with lexer id 0 holding them all. */
  lemma DocumentShape(o: Oracles, kids: seq<XNode>)
    ensures |kids| == 1 ==> ConvertNode(o, Document(kids)) == ConvertNode(o, kids[0])
    ensures |kids| != 1 ==> (ConvertNode(o, Document(kids)).Tree?
                             && ConvertNode(o, Document(kids)).lexerId == 0
                             && |ConvertNode(o, Document(kids)).kids| == |kids|)
  {
  }

  /** An XML declaration counts as a child of the document: a document holding a declaration
    * and one root element is not collapsed, and is read as a symbol whose first child is null. */
  lemma DeclarationKeepsDocument(o: Oracles, root: XNode)
    ensures ConvertNode(o, Document([Declaration, root])) == Tree(0, [Null, ConvertNode(o, root)])
  {
    assert ConvertKids(o, Document([Declaration, root])) == [Null, ConvertNode(o, root)];
  }

  /** An element named `NULL` is null whatever its attributes and children. */
  lemma NullElement(o: Oracles, attrs: seq<(string, string)>, kids: seq<XNode>)
    ensures ConvertNode(o, Element("NULL", attrs, kids)).Null?
  {
  }

  /** An element whose type name is not a term type is a symbol with one child per XML child,
    * each converted in turn. */
  lemma SymbolElement(o: Oracles, name: string, attrs: seq<(string, string)>, kids: seq<XNode>)
    requires name != "NULL" && ElementHead(o, attrs).0 !in {"int", "float", "string", "char", "ident"}
    ensures ConvertNode(o, Element(name, attrs, kids)) == Tree(ElementHead(o, attrs).1, ConvertKids(o, Element(name, attrs, kids)))
    ensures forall i :: 0 <= i < |kids| ==> ConvertNode(o, Element(name, attrs, kids)).kids[i] == ConvertNode(o, kids[i])
  {
    TermPayloadKinds(o, ElementHead(o, attrs).0, ElementHead(o, attrs).2);
  }

  /** What `XMLPrinter` writes for a terminal, `<term type="NAME" value=.../>`, is read back as
    * a childless symbol unless the lexer name is itself one of the term type names: the reader
    * takes the type name and the lexer name from the same attribute. */
  lemma PrintedTermReadsAsSymbol(o: Oracles, name: string, value: string)
    requires name !in {"int", "float", "string", "char", "ident"}
    ensures ConvertNode(o, Element("term", [("type", name), ("value", value)], [])) == Tree(o.nameToId(name), [])
  {
    var attrs := [("type", name), ("value", value)];
    assert attrs[..1] == [("type", name)] && attrs[..1][..0] == [];
    assert AttrMap(attrs[..1]) == map["type" := name];
    assert AttrMap(attrs) == AttrMap(attrs[..1])["value" := value];
    assert Lookup(AttrMap(attrs), "type") == name;
    AttrMapEmpty(attrs);
  }

  // ---------------------------------------------------------------------
  // What a built tree looks like in the arena
  // ---------------------------------------------------------------------

  /** A node's payload is the one the reader computed. */
  predicate Carries(v: Value, p: Payload)
  {
    match p
    case IntP(i) => v == IntV(i)
    case FloatP(b) => v == FloatV(b)
    case StringP(t) => v.StringV? && v.s.text == t
    case CharP(c) => v == CharV(c)
    case IdentP(t) => v.IdentV? && v.id.text == t
  }

  /** The slot `r` holds a realisation of `t` in `g`: null for null; otherwise a node at an
    * address in `[lo, hi)` with the lexer id, no stored original, and either the payload or one
    * child per subtree, each realised above its parent's address and parented to it. */
  ghost predicate Holds(g: Graph, r: Option<NodeId>, t: Ast, lo: nat, hi: nat)
    decreases t, 1
  {
    match t
    case Null => r.None?
    case Leaf(l, p) =>
      r.Some? && lo <= r.value < hi && r.value in g && g[r.value].lexerId == l && g[r.value].original.None?
      && g[r.value].body.Term? && Carries(g[r.value].body.value, p)
    case Tree(l, kids) =>
      r.Some? && lo <= r.value < hi && r.value in g && g[r.value].lexerId == l && g[r.value].original.None?
      && g[r.value].body.Symbol? && |g[r.value].body.children| == |kids|
      && forall i :: 0 <= i < |kids| ==> HoldsKid(g, r.value, g[r.value].body.children[i], kids[i], hi)
  }

  /** Slot `k` of symbol `c` realises `t` above `c`, and its node (if any) has `c` as parent. */
  ghost predicate HoldsKid(g: Graph, c: NodeId, k: Option<NodeId>, t: Ast, hi: nat)
    decreases t, 2
  {
    Holds(g, k, t, c + 1, hi) && (k.Some? ==> k.value in g && g[k.value].parent == Some(c))
  }

  /** A slot realises null exactly when it is null; otherwise it holds a node of the range with
    * the tree's lexer id and no stored original. */
  lemma HoldsAt(g: Graph, r: Option<NodeId>, t: Ast, lo: nat, hi: nat)
    requires Holds(g, r, t, lo, hi)
    ensures r.None? <==> t.Null?
    ensures r.Some? ==> lo <= r.value < hi && r.value in g && g[r.value].lexerId == t.lexerId && g[r.value].original.None?
  {
  }

  /** A realisation survives any change that leaves its nodes alone, except the root's parent,
    * and a wider address range. */
  lemma {:induction false} HoldsFrame(g1: Graph, g2: Graph, r: Option<NodeId>, t: Ast, lo: nat, lo': nat, hi: nat, hi': nat)
    requires Holds(g1, r, t, lo, hi) && lo' <= lo && hi <= hi'
    requires r.Some? ==> r.value in g2 && g2[r.value].(parent := g1[r.value].parent) == g1[r.value]
    requires forall k :: k in g1 && r.Some? && r.value < k < hi ==> k in g2 && g2[k] == g1[k]
    ensures Holds(g2, r, t, lo', hi')
    decreases t
  {
    match t
    case Null =>
    case Leaf(_, _) =>
    case Tree(l, kids) =>
      var c := r.value;
      forall i | 0 <= i < |kids| ensures HoldsKid(g2, c, g2[c].body.children[i], kids[i], hi') {
        var k := g1[c].body.children[i];
        assert g2[c].body == g1[c].body;
        assert HoldsKid(g1, c, k, kids[i], hi);
        HoldsAt(g1, k, kids[i], c + 1, hi);
        if k.Some? {
          HoldsFrame(g1, g2, k, kids[i], c + 1, c + 1, hi, hi');
        }
      }
  }

  /** The pointers of node `k` of a tree built in `[lo, hi)`: no stored original, a parent in
    * the range, and children above `k` in the range. */
  ghost predicate LaidOut(o: Object, k: NodeId, lo: nat, hi: nat)
  {
    o.original.None?
    && (o.parent.Some? ==> lo <= o.parent.value < hi)
    && (o.body.Symbol? ==> forall c :: Some(c) in o.body.children ==> k < c < hi)
  }

  /** Every node in `[lo, hi)` points only into `[lo, hi)`. */
  ghost predicate SelfContained(g: Graph, lo: nat, hi: nat)
  {
    forall k :: k in g && lo <= k < hi ==> LaidOut(g[k], k, lo, hi)
  }

  /** A stack of nodes built by the reader can be ranked by distance from the top address, so
    * the printers and visitors, which need a rank, can walk it. */
  lemma BuiltRanked(g: Graph, lo: nat, hi: nat)
    requires SelfContained(g, lo, hi) && Closed(g)
    ensures Ranked(g, map k | k in g && lo <= k < hi :: hi - k)
  {
    var rank := map k | k in g && lo <= k < hi :: hi - k;
    forall p, c | p in g && p in rank && g[p].body.Symbol? && Some(c) in g[p].body.children
      ensures c in g && c in rank && rank[c] < rank[p]
    {
      assert LaidOut(g[p], p, lo, hi) && PointsInto(g[p], g);
    }
  }

  // ---------------------------------------------------------------------
  // Building nodes
  // ---------------------------------------------------------------------

  /** The tree context and the node arena share one allocator and are both well formed. */
  ghost predicate Setup(tc: TreeContext, store: NodeStore)
    reads tc, store, tc.alloc, store.alloc
  {
    tc.alloc == store.alloc && tc.Valid() && store.Valid()
  }

  /** `MVCModel::make_symbol(tc, lexer_id, size, ...)` and `make_symbol(tc, lexer_id, vec)`: a
    * symbol allocated with a destructor callback and built by the flattening constructor from
    * the arguments; both forms take the same argument list and skip `eol()`. */
  method MakeSymbol(store: NodeStore, lexerId: nat, args: seq<Arg>) returns (s: NodeId)
    requires store.Valid() && ArgsIn(store.objs, args)
    modifies store`objs, store.alloc
    ensures s == old(store.alloc.next) && store.alloc.next == s + 1
    ensures store.alloc.chunks == old(store.alloc.chunks)[s := Chunk(store.nodeSize(SYMBOL), true)]
    ensures store.alloc.sizeBytes == old(store.alloc.sizeBytes) + store.nodeSize(SYMBOL)
    ensures store.alloc.dtorLog == old(store.alloc.dtorLog)
    ensures store.objs == NewSymbolG(old(store.objs), s, lexerId, args)
    ensures store.Valid()
  {
    s := store.alloc.Malloc(store.nodeSize(SYMBOL), true);
    NewSymbolClosed(store.objs, s, lexerId, args);
    store.InitSymbol(s, lexerId, args);
  }

  /** `MVCModel::make_term`: a term allocated with a destructor callback for the STRING and
    * IDENT specialisations, and without one for the generic template (INT, FLOAT, CHAR). */
  method MakeTerm(store: NodeStore, lexerId: nat, v: Value) returns (n: NodeId)
    requires store.Valid()
    modifies store`objs, store.alloc
    ensures n == old(store.alloc.next) && store.alloc.next == n + 1
    ensures store.alloc.chunks == old(store.alloc.chunks)[n := Chunk(store.nodeSize(ValueKind(v)), v.StringV? || v.IdentV?)]
    ensures store.alloc.sizeBytes == old(store.alloc.sizeBytes) + store.nodeSize(ValueKind(v))
    ensures store.alloc.dtorLog == old(store.alloc.dtorLog)
    ensures store.objs == NewTermG(old(store.objs), n, lexerId, v)
    ensures store.Valid()
  {
    n := store.alloc.Malloc(store.nodeSize(ValueKind(v)), v.StringV? || v.IdentV?);
    ClosedPut(store.objs, n, Object(lexerId, None, None, Term(v)));
    store.InitTerm(n, lexerId, v);
  }

  /** `attr_map` filled by the attribute loop of `_make_ast_from_ticpp`. */
  method ReadAttributes(attrs: seq<(string, string)>) returns (m: map<string, string>)
    ensures m == AttrMap(attrs)
  {
    m := map[];
    var q := 0;
    while q < |attrs|
      invariant 0 <= q <= |attrs| && m == AttrMap(attrs[..q])
    {
      assert attrs[..q + 1][..q] == attrs[..q];
      m := m[attrs[q].0 := attrs[q].1];
      q := q + 1;
    }
    assert attrs[..q] == attrs;
  }

  // ---------------------------------------------------------------------
  // Reading a document into the arena
  // ---------------------------------------------------------------------

  /** The state after building `t` into the arena `g0` while the allocator handed out the
    * addresses `[lo, hi)`: `r` realises `t`, only nodes in the range were added (each allocated
    * as its class requires), no earlier chunk was touched, the new nodes point only at each
    * other, and the root has no parent. */
  ghost predicate Built(g0: Graph, g: Graph, ch0: map<nat, Chunk>, ch: map<nat, Chunk>,
                        r: Option<NodeId>, t: Ast, lo: nat, hi: nat)
  {
    lo <= hi && Holds(g, r, t, lo, hi) && Grown(g0, g, ch, lo, hi) && ChunksKept(ch0, ch)
    && SelfContained(g, lo, hi) && (r.Some? ==> g[r.value].parent.None?)
  }

  /** The destructor callbacks run meanwhile belong to memory allocated in `[lo, hi)`. */
  ghost predicate LogGrown(log0: seq<nat>, log: seq<nat>, lo: nat, hi: nat)
  {
    log0 <= log && forall j :: |log0| <= j < |log| ==> lo <= log[j] < hi
  }

  lemma LogGrownTrans(log0: seq<nat>, log1: seq<nat>, log2: seq<nat>, lo: nat, mid: nat, hi: nat)
    requires LogGrown(log0, log1, lo, mid) && LogGrown(log1, log2, mid, hi) && lo <= mid <= hi
    ensures LogGrown(log0, log2, lo, hi)
  {
    forall j | |log0| <= j < |log2| ensures lo <= log2[j] < hi {
      if j < |log1| {
        assert log2[j] == log1[j];
      }
    }
  }

  lemma LogGrownPush(log0: seq<nat>, log1: seq<nat>, lo: nat, hi: nat, a: nat)
    requires LogGrown(log0, log1, lo, hi) && lo <= a < hi
    ensures LogGrown(log0, log1 + [a], lo, hi)
  {
  }

  /** Nothing built: the arena and the allocator are as they were. */
  lemma NothingBuilt(g: Graph, ch: map<nat, Chunk>, lo: nat)
    ensures Built(g, g, ch, ch, None, Null, lo, lo)
  {
  }

  /** A term constructed at a fresh address is a realisation of its payload. */
  lemma TermBuilt(g0: Graph, g: Graph, ch0: map<nat, Chunk>, ch: map<nat, Chunk>,
                  n: NodeId, lexerId: nat, v: Value, p: Payload, lo: nat, hi: nat)
    requires Carries(v, p) && g == g0[n := Object(lexerId, None, None, Term(v))]
    requires lo <= n && hi == n + 1 && forall k :: k in g0 ==> k < lo
    requires n in ch && NodeChunk(g[n], ch[n]) && ChunksKept(ch0, ch)
    ensures Built(g0, g, ch0, ch, Some(n), Leaf(lexerId, p), lo, hi)
  {
  }

  /** `_make_term_from_typename`: the term for the type name, or null when the type name is not
    * a term type (nothing is allocated then). */
  method MakeTermFromTypename(tc: TreeContext, store: NodeStore, typename: string, lexerId: nat, value: string, o: Oracles)
    returns (r: Option<NodeId>)
    requires Setup(tc, store)
    modifies store`objs, store.alloc, tc`stringSet
    ensures Setup(tc, store)
    ensures r.None? <==> TermPayload(o, typename, value).None?
    ensures r.None? ==> store.objs == old(store.objs) && store.alloc.next == old(store.alloc.next)
                        && store.alloc.chunks == old(store.alloc.chunks)
    ensures r.Some? ==> Built(old(store.objs), store.objs, old(store.alloc.chunks), store.alloc.chunks, r,
                              Leaf(lexerId, TermPayload(o, typename, value).value), old(store.alloc.next), store.alloc.next)
    ensures r.Some? && typename == "ident" ==> store.objs[r.value].body.value.id in tc.stringSet
    ensures store.alloc.dtorLog == old(store.alloc.dtorLog)
  {
    ghost var g0, ch0, lo := store.objs, store.alloc.chunks, store.alloc.next;
    assert forall k :: k in g0 ==> k < lo by {
      assert forall k :: k in g0 ==> k in ch0;
    }
    var v := TermValue(tc, typename, value, o);
    if v.None? {
      return None;
    }
    var n := MakeTerm(store, lexerId, v.value);
    TermBuilt(g0, store.objs, ch0, store.alloc.chunks, n, lexerId, v.value, TermPayload(o, typename, value).value, lo, store.alloc.next);
    r := Some(n);
  }

  /** The payload `_make_term_from_typename` passes to `make_term`: a `string` payload is a
    * fresh string in the tree context, an `ident` payload the interned one. */
  method TermValue(tc: TreeContext, typename: string, value: string, o: Oracles) returns (v: Option<Value>)
    requires tc.Valid()
    modifies tc.alloc, tc`stringSet
    ensures tc.Valid() && old(tc.alloc.next) <= tc.alloc.next
    ensures v.None? <==> TermPayload(o, typename, value).None?
    ensures v.Some? ==> Carries(v.value, TermPayload(o, typename, value).value)
    ensures v.Some? && typename == "ident" ==> v.value.IdentV? && v.value.id in tc.stringSet
    ensures v.None? ==> tc.alloc.next == old(tc.alloc.next) && tc.alloc.chunks == old(tc.alloc.chunks)
    ensures ChunksKept(old(tc.alloc.chunks), tc.alloc.chunks)
    ensures forall a :: a in tc.alloc.chunks && a !in old(tc.alloc.chunks) ==> old(tc.alloc.next) <= a
    ensures tc.alloc.dtorLog == old(tc.alloc.dtorLog)
  {
    if typename == "int" {
      v := Some(IntV(o.atoi(CString(value))));
    } else if typename == "float" {
      v := Some(FloatV(o.atof(CString(value))));
    } else if typename == "string" {
      var p := tc.AllocString(XmlUnescaped(value));
      v := Some(StringV(p));
    } else if typename == "char" {
      v := Some(CharV(FirstChar(XmlUnescaped(value))));
    } else if typename == "ident" {
      var p := tc.AllocUniqueString(value);
      v := Some(IdentV(p));
    } else {
      v := None;
    }
  }

  /** `_make_ast_from_ticpp`, dispatched on the kind of XML node. */
  method MakeAstFromNode(tc: TreeContext, store: NodeStore, x: XNode, o: Oracles) returns (r: Option<NodeId>)
    requires Setup(tc, store) && Readable(o, x)
    modifies store`objs, store.alloc, tc`stringSet
    ensures Setup(tc, store) && old(store.alloc.next) <= store.alloc.next
    ensures Built(old(store.objs), store.objs, old(store.alloc.chunks), store.alloc.chunks, r, ConvertNode(o, x),
                  old(store.alloc.next), store.alloc.next)
    ensures LogGrown(old(store.alloc.dtorLog), store.alloc.dtorLog, old(store.alloc.next), store.alloc.next)
    decreases x, 2, 0
  {
    match x {
      case Document(_) =>
        r := MakeAstFromDocument(tc, store, x, o);
      case Element(_, _, _) =>
        r := MakeAstFromElement(tc, store, x, o);
      case _ =>
        NothingBuilt(store.objs, store.alloc.chunks, store.alloc.next);
        r := None;
    }
  }

  /** The element branch of `_make_ast_from_ticpp`. */
  method MakeAstFromElement(tc: TreeContext, store: NodeStore, x: XNode, o: Oracles) returns (r: Option<NodeId>)
    requires x.Element? && Setup(tc, store) && Readable(o, x)
    modifies store`objs, store.alloc, tc`stringSet
    ensures Setup(tc, store) && old(store.alloc.next) <= store.alloc.next
    ensures Built(old(store.objs), store.objs, old(store.alloc.chunks), store.alloc.chunks, r, ConvertNode(o, x),
                  old(store.alloc.next), store.alloc.next)
    ensures LogGrown(old(store.alloc.dtorLog), store.alloc.dtorLog, old(store.alloc.next), store.alloc.next)
    decreases x, 1, 0
  {
    if x.name == "NULL" {
      NothingBuilt(store.objs, store.alloc.chunks, store.alloc.next);
      return None;
    }
    var m := ReadAttributes(x.attrs);
    var typename, lexerId, value := "", 0, "";
    if |m| > 0 {
      typename := Lookup(m, "type");
      value := Lookup(m, "value");
      lexerId := o.nameToId(typename);
    }
    assert (typename, lexerId, value) == ElementHead(o, x.attrs);
    r := MakeTermFromTypename(tc, store, typename, lexerId, value, o);
    if r.Some? {
      assert ConvertNode(o, x) == Leaf(lexerId, TermPayload(o, typename, value).value);
      return;
    }
    assert ConvertNode(o, x) == Tree(lexerId, ConvertKids(o, x));
    var s := ElementSymbol(tc, store, x, o, lexerId);
    r := Some(s);
  }

  /** The symbol branch for an element: an empty symbol with the element's lexer id, and its
    * children converted and appended in order. */
  method ElementSymbol(tc: TreeContext, store: NodeStore, x: XNode, o: Oracles, lexerId: nat) returns (s: NodeId)
    requires x.Element? && Setup(tc, store) && Readable(o, x)
    modifies store`objs, store.alloc, tc`stringSet
    ensures Setup(tc, store) && old(store.alloc.next) <= store.alloc.next
    ensures Built(old(store.objs), store.objs, old(store.alloc.chunks), store.alloc.chunks, Some(s),
                  Tree(lexerId, ConvertKids(o, x)), old(store.alloc.next), store.alloc.next)
    ensures LogGrown(old(store.alloc.dtorLog), store.alloc.dtorLog, old(store.alloc.next), store.alloc.next)
    decreases x, 0, 2
  {
    ghost var g0 := store.objs;
    s := MakeSymbol(store, lexerId, []);
    SymbolStart(g0, store.objs, store.alloc.chunks, s, lexerId);
    AddKids(tc, store, s, x, o, lexerId, g0, s);
    SymbolBuilt(g0, store.objs, store.alloc.chunks, s, lexerId, ConvertKids(o, x), store.alloc.next);
  }

  /** The document branch of `_make_ast_from_ticpp`: the children are converted into a new
    * symbol with lexer id 0; when there is exactly one, it is detached and returned and the
    * symbol's memory is given back to the allocator, which runs its destructor callback. */
  method MakeAstFromDocument(tc: TreeContext, store: NodeStore, x: XNode, o: Oracles) returns (r: Option<NodeId>)
    requires x.Document? && Setup(tc, store) && Readable(o, x)
    modifies store`objs, store.alloc, tc`stringSet
    ensures Setup(tc, store) && old(store.alloc.next) <= store.alloc.next
    ensures Built(old(store.objs), store.objs, old(store.alloc.chunks), store.alloc.chunks, r, ConvertNode(o, x),
                  old(store.alloc.next), store.alloc.next)
    ensures LogGrown(old(store.alloc.dtorLog), store.alloc.dtorLog, old(store.alloc.next), store.alloc.next)
    ensures |x.kids| == 1 ==> (old(store.alloc.next) !in store.alloc.chunks && store.alloc.dtorLog != []
                               && store.alloc.dtorLog[|store.alloc.dtorLog| - 1] == old(store.alloc.next))
    decreases x, 1, 0
  {
    ghost var g0, ch0, log0 := store.objs, store.alloc.chunks, store.alloc.dtorLog;
    var doc := MakeSymbol(store, 0, []);
    SymbolStart(g0, store.objs, store.alloc.chunks, doc, 0);
    if |x.kids| == 0 {
      assert ConvertKids(o, x) == [];
      SymbolBuilt(g0, store.objs, store.alloc.chunks, doc, 0, ConvertKids(o, x), store.alloc.next);
      return Some(doc);
    }
    r := DocumentKids(tc, store, doc, x, o, g0, ch0, log0);
  }

  /** The document's children are converted under `doc`; a single child then replaces it. */
  method DocumentKids(tc: TreeContext, store: NodeStore, doc: NodeId, x: XNode, o: Oracles,
                      ghost g0: Graph, ghost ch0: map<nat, Chunk>, ghost log0: seq<nat>)
    returns (r: Option<NodeId>)
    requires x.Document? && |x.kids| > 0 && Setup(tc, store) && Readable(o, x)
    requires Closed(g0) && (forall k :: k in g0 ==> k < doc) && doc !in ch0 && doc + 1 == store.alloc.next
    requires store.alloc.chunks == ch0[doc := Chunk(store.nodeSize(SYMBOL), true)]
    requires store.alloc.dtorLog == log0
    requires KidsInv(g0, store.objs, store.alloc.chunks, doc, 0, [], doc, doc + 1)
    modifies store`objs, store.alloc, tc`stringSet
    ensures Setup(tc, store) && doc < store.alloc.next
    ensures Built(g0, store.objs, ch0, store.alloc.chunks, r, ConvertNode(o, x), doc, store.alloc.next)
    ensures LogGrown(log0, store.alloc.dtorLog, doc, store.alloc.next)
    ensures |x.kids| == 1 ==> (doc !in store.alloc.chunks && store.alloc.dtorLog != []
                               && store.alloc.dtorLog[|store.alloc.dtorLog| - 1] == doc)
    decreases x, 0, 3
  {
    AddKids(tc, store, doc, x, o, 0, g0, doc);
    r := DocumentFinish(tc, store, doc, x, o, g0, ch0, log0);
  }

  /** After the child loop: a document with one child gives way to it, any other is kept. */
  method DocumentFinish(tc: TreeContext, store: NodeStore, doc: NodeId, x: XNode, o: Oracles,
                        ghost g0: Graph, ghost ch0: map<nat, Chunk>, ghost log0: seq<nat>)
    returns (r: Option<NodeId>)
    requires x.Document? && |x.kids| > 0 && Setup(tc, store) && Readable(o, x)
    requires Closed(g0) && (forall k :: k in g0 ==> k < doc) && doc !in ch0 && doc < store.alloc.next
    requires KidsInv(g0, store.objs, store.alloc.chunks, doc, 0, ConvertKids(o, x), doc, store.alloc.next)
    requires ChunksKept(ch0, store.alloc.chunks)
    requires LogGrown(log0, store.alloc.dtorLog, doc, store.alloc.next)
    modifies store`objs, store.alloc
    ensures Setup(tc, store) && store.alloc.next == old(store.alloc.next)
    ensures Built(g0, store.objs, ch0, store.alloc.chunks, r, ConvertNode(o, x), doc, store.alloc.next)
    ensures LogGrown(log0, store.alloc.dtorLog, doc, store.alloc.next)
    ensures |x.kids| == 1 ==> (doc !in store.alloc.chunks && store.alloc.dtorLog != []
                               && store.alloc.dtorLog[|store.alloc.dtorLog| - 1] == doc)
  {
    ghost var log1 := store.alloc.dtorLog;
    ConvertDocument(o, x);
    if |store.objs[doc].body.children| == 1 {
      r := Unwrap(store, doc, ConvertKids(o, x)[0], g0, ch0);
      LogGrownPush(log0, log1, doc, store.alloc.next, doc);
    } else {
      SymbolBuilt(g0, store.objs, store.alloc.chunks, doc, 0, ConvertKids(o, x), store.alloc.next);
      r := Some(doc);
    }
  }

  /** The collapse of a document with one child: `detach` the child, give the document
    * symbol's memory back to the allocator (which runs its destructor callback) and return the
    * child. */
  method Unwrap(store: NodeStore, doc: NodeId, ghost t: Ast, ghost g0: Graph, ghost ch0: map<nat, Chunk>)
    returns (r: Option<NodeId>)
    requires store.Valid() && KidsInv(g0, store.objs, store.alloc.chunks, doc, 0, [t], doc, store.alloc.next)
    requires Closed(g0) && (forall k :: k in g0 ==> k < doc) && !t.Null?
    requires ChunksKept(ch0, store.alloc.chunks) && doc !in ch0
    modifies store`objs, store.alloc
    ensures store.Valid() && store.alloc.next == old(store.alloc.next)
    ensures Built(g0, store.objs, ch0, store.alloc.chunks, r, t, doc, store.alloc.next)
    ensures store.alloc.chunks == old(store.alloc.chunks) - {doc}
    ensures store.alloc.dtorLog == old(store.alloc.dtorLog) + [doc]
  {
    ghost var g1 := store.objs;
    r := store.objs[doc].body.children[0];
    assert HoldsKid(g1, doc, r, t, store.alloc.next);
    HoldsAt(g1, r, t, doc + 1, store.alloc.next);
    store.Detach(r.value);
    store.alloc.Free(doc);
    // The freed address no longer holds a node.
    store.objs := store.objs - {doc};
    Collapse(g0, g1, store.objs, old(store.alloc.chunks), doc, r.value, t, store.alloc.next);
  }

  /** The child loop of both branches: each XML child is converted and appended to `s`. */
  method AddKids(tc: TreeContext, store: NodeStore, s: NodeId, x: XNode, o: Oracles, ghost lexerId: nat, ghost g0: Graph, ghost lo: nat)
    requires (x.Document? || x.Element?) && Setup(tc, store) && Readable(o, x)
    requires KidsInv(g0, store.objs, store.alloc.chunks, s, lexerId, [], lo, store.alloc.next)
    modifies store`objs, store.alloc, tc`stringSet
    ensures Setup(tc, store) && old(store.alloc.next) <= store.alloc.next
    ensures KidsInv(g0, store.objs, store.alloc.chunks, s, lexerId, ConvertKids(o, x), lo, store.alloc.next)
    ensures ChunksKept(old(store.alloc.chunks), store.alloc.chunks)
    ensures LogGrown(old(store.alloc.dtorLog), store.alloc.dtorLog, old(store.alloc.next), store.alloc.next)
    decreases x, 0, 1
  {
    var i := 0;
    assert ConvertKids(o, x)[..0] == [];
    while i < |x.kids|
      invariant 0 <= i <= |x.kids| && Setup(tc, store) && old(store.alloc.next) <= store.alloc.next
      invariant KidsInv(g0, store.objs, store.alloc.chunks, s, lexerId, ConvertKids(o, x)[..i], lo, store.alloc.next)
      invariant ChunksKept(old(store.alloc.chunks), store.alloc.chunks)
      invariant LogGrown(old(store.alloc.dtorLog), store.alloc.dtorLog, old(store.alloc.next), store.alloc.next)
    {
      ghost var ch, log, next := store.alloc.chunks, store.alloc.dtorLog, store.alloc.next;
      AddKid(tc, store, s, x, i, o, lexerId, g0, lo);
      LogGrownTrans(old(store.alloc.dtorLog), log, store.alloc.dtorLog, old(store.alloc.next), next, store.alloc.next);
      i := i + 1;
    }
    assert ConvertKids(o, x)[..i] == ConvertKids(o, x);
  }

  /** One round of the child loop: `push_back(_make_ast_from_ticpp(tc, child))`. */
  method AddKid(tc: TreeContext, store: NodeStore, s: NodeId, x: XNode, i: nat, o: Oracles,
                ghost lexerId: nat, ghost g0: Graph, ghost lo: nat)
    requires (x.Document? || x.Element?) && i < |x.kids| && Setup(tc, store) && Readable(o, x)
    requires KidsInv(g0, store.objs, store.alloc.chunks, s, lexerId, ConvertKids(o, x)[..i], lo, store.alloc.next)
    modifies store`objs, store.alloc, tc`stringSet
    ensures Setup(tc, store) && old(store.alloc.next) <= store.alloc.next
    ensures KidsInv(g0, store.objs, store.alloc.chunks, s, lexerId, ConvertKids(o, x)[..i + 1], lo, store.alloc.next)
    ensures ChunksKept(old(store.alloc.chunks), store.alloc.chunks)
    ensures LogGrown(old(store.alloc.dtorLog), store.alloc.dtorLog, old(store.alloc.next), store.alloc.next)
    decreases x, 0, 0
  {
    ghost var g1, ch1, next0 := store.objs, store.alloc.chunks, store.alloc.next;
    assert forall q :: q in g1 ==> q in ch1;
    assert Readable(o, x.kids[i]);
    ConvertKidsSnoc(o, x, i);
    var k := MakeAstFromNode(tc, store, x.kids[i], o);
    ghost var g2 := store.objs;
    KidStep(g0, g1, g2, ch1, store.alloc.chunks, s, lexerId, ConvertKids(o, x)[..i], ConvertNode(o, x.kids[i]), k, lo, next0, store.alloc.next);
    store.PushBack(s, k);
  }

  /** A document converts to its one converted child, or to a symbol over all of them. */
  lemma ConvertDocument(o: Oracles, x: XNode)
    requires x.Document?
    ensures |x.kids| == 1 ==> ConvertKids(o, x)[..1] == ConvertKids(o, x) == [ConvertNode(o, x.kids[0])]
    ensures |x.kids| == 1 ==> ConvertNode(o, x) == ConvertKids(o, x)[0]
    ensures |x.kids| != 1 ==> ConvertNode(o, x) == Tree(0, ConvertKids(o, x))
  {
  }

  lemma ConvertKidsSnoc(o: Oracles, x: XNode, i: nat)
    requires (x.Document? || x.Element?) && i < |x.kids|
    ensures ConvertKids(o, x)[..i + 1] == ConvertKids(o, x)[..i] + [ConvertNode(o, x.kids[i])]
  {
    var ks := ConvertKids(o, x);
    assert ks[i] == ConvertNode(o, x.kids[i]);
    assert ks[..i + 1] == ks[..i] + [ks[i]];
  }

  /** `MVCModel::make_ast(tc, filename)`: with the XML library built in, the file's document,
    * read; without it, null. Loading the file is not modelled: the parsed document is given. */
  method MakeAst(tc: TreeContext, store: NodeStore, withXml: bool, doc: XNode, o: Oracles) returns (r: Option<NodeId>)
    requires doc.Document? && Setup(tc, store) && Readable(o, doc)
    modifies store`objs, store.alloc, tc`stringSet
    ensures Setup(tc, store)
    ensures !withXml ==> r.None? && store.objs == old(store.objs) && store.alloc.next == old(store.alloc.next)
    ensures withXml ==> Built(old(store.objs), store.objs, old(store.alloc.chunks), store.alloc.chunks, r, ConvertNode(o, doc),
                              old(store.alloc.next), store.alloc.next)
  {
    if !withXml {
      return None;
    }
    r := MakeAstFromNode(tc, store, doc, o);
  }

  // ---------------------------------------------------------------------
  // The child loop's invariant
  // ---------------------------------------------------------------------

  /** Symbol `s` (lexer id `lexerId`, no parent, no stored original) realises the trees `ts`
    * in its slots, and the nodes above it up to `hi` point only among themselves and to `s`,
    * which lists every one of them that has `s` as parent. */
  ghost predicate Assembled(g: Graph, s: NodeId, lexerId: nat, ts: seq<Ast>, hi: nat)
  {
    s < hi && s in g && g[s].body.Symbol? && g[s] == Object(lexerId, None, None, Symbol(g[s].body.children))
    && |g[s].body.children| == |ts|
    && (forall j :: 0 <= j < |ts| ==> HoldsKid(g, s, g[s].body.children[j], ts[j], hi))
    && KidsRegion(g, s, hi)
  }

  ghost predicate KidsRegion(g: Graph, s: NodeId, hi: nat)
    requires s in g && g[s].body.Symbol?
  {
    forall k :: k in g && s < k < hi ==> LaidOut(g[k], k, s, hi) && (g[k].parent == Some(s) ==> Some(k) in g[s].body.children)
  }

  /** The arena `g0` before `s` was allocated at `lo` or above has grown into `g` within
    * `[lo, hi)`, and `s` is assembled. */
  ghost predicate KidsInv(g0: Graph, g: Graph, ch: map<nat, Chunk>, s: NodeId, lexerId: nat, ts: seq<Ast>, lo: nat, hi: nat)
  {
    Grown(g0, g, ch, lo, hi) && s !in g0 && lo <= s && Assembled(g, s, lexerId, ts, hi)
  }

  /** A symbol just constructed without arguments starts the child loop. */
  lemma SymbolStart(g0: Graph, g: Graph, ch: map<nat, Chunk>, s: NodeId, lexerId: nat)
    requires s !in g0 && g == NewSymbolG(g0, s, lexerId, []) && (forall k :: k in g0 ==> k < s)
    requires s in ch && ch[s].hasDtor
    ensures g == g0[s := Object(lexerId, None, None, Symbol([]))]
    ensures KidsInv(g0, g, ch, s, lexerId, [], s, s + 1)
  {
    assert FlattenArgs(g0, lexerId, []) == [];
  }

  /** When the loop is done, the symbol realises the tree of its element or document. */
  lemma SymbolBuilt(g0: Graph, g: Graph, ch: map<nat, Chunk>, s: NodeId, lexerId: nat, ts: seq<Ast>, hi: nat)
    requires KidsInv(g0, g, ch, s, lexerId, ts, s, hi) && forall k :: k in g0 ==> k < s
    ensures Built(g0, g, ch, ch, Some(s), Tree(lexerId, ts), s, hi)
  {
    forall k | k in g && s <= k < hi ensures LaidOut(g[k], k, s, hi) {
      if k == s {
        forall c | Some(c) in g[s].body.children ensures s < c < hi {
          var j :| 0 <= j < |ts| && g[s].body.children[j] == Some(c);
          HoldsAt(g, Some(c), ts[j], s + 1, hi);
        }
      }
    }
  }

  /** Growing in two stages is growing. */
  lemma GrownTrans(g0: Graph, g1: Graph, g2: Graph, ch1: map<nat, Chunk>, ch2: map<nat, Chunk>, lo: nat, mid: nat, hi: nat)
    requires Grown(g0, g1, ch1, lo, mid) && Grown(g1, g2, ch2, mid, hi) && ChunksKept(ch1, ch2) && lo <= mid <= hi
    ensures Grown(g0, g2, ch2, lo, hi)
  {
  }

  /** One round of the child loop keeps its invariant. */
  lemma KidStep(g0: Graph, g1: Graph, g2: Graph, ch1: map<nat, Chunk>, ch2: map<nat, Chunk>, s: NodeId, lexerId: nat,
                ts: seq<Ast>, t: Ast, k: Option<NodeId>, lo: nat, next0: nat, next1: nat)
    requires KidsInv(g0, g1, ch1, s, lexerId, ts, lo, next0) && Closed(g2) && forall q :: q in g1 ==> q < next0
    requires Built(g1, g2, ch1, ch2, k, t, next0, next1)
    ensures IsSymbolIn(g2, s)
    ensures KidsInv(g0, PushBackG(g2, s, k), ch2, s, lexerId, ts + [t], lo, next1)
    ensures Closed(PushBackG(g2, s, k))
  {
    var g3 := PushBackG(g2, s, k);
    HoldsAt(g2, k, t, next0, next1);
    KidStepOld(g1, g2, s, lexerId, ts, k, next0, next1);
    KidStepNew(g2, s, t, k, next0, next1);
    KidStepRegion(g1, g2, s, k, next0, next1);
    assert SetParentOpt(g3, k, s) == g3;
    AppendClosed(g2, s, k);
    KidStepGrown(g0, g1, g2, ch1, ch2, s, k, lo, next0, next1);
    var cs := g3[s].body.children;
    forall j | 0 <= j < |ts + [t]| ensures HoldsKid(g3, s, cs[j], (ts + [t])[j], next1) {
      if j < |ts| {
        assert (ts + [t])[j] == ts[j];
      }
    }
  }

  lemma KidStepGrown(g0: Graph, g1: Graph, g2: Graph, ch1: map<nat, Chunk>, ch2: map<nat, Chunk>,
                     s: NodeId, k: Option<NodeId>, lo: nat, next0: nat, next1: nat)
    requires Grown(g0, g1, ch1, lo, next0) && s !in g0 && IsSymbolIn(g1, s)
    requires Grown(g1, g2, ch2, next0, next1) && ChunksKept(ch1, ch2) && lo <= next0 <= next1
    requires k.Some? ==> k.value in g2 && k.value !in g0
    ensures Grown(g0, PushBackG(g2, s, k), ch2, lo, next1)
  {
    var g3 := PushBackG(g2, s, k);
    GrownTrans(g0, g1, g2, ch1, ch2, lo, next0, next1);
    forall q | q in g3 && q !in g0 ensures lo <= q < next1 && q in ch2 && NodeChunk(g3[q], ch2[q]) {
      assert KindOf(g3[q]) == KindOf(g2[q]);
    }
  }

  /** The earlier children keep their realisations when the next child is appended. */
  lemma KidStepOld(g1: Graph, g2: Graph, s: NodeId, lexerId: nat, ts: seq<Ast>, k: Option<NodeId>, next0: nat, next1: nat)
    requires Assembled(g1, s, lexerId, ts, next0) && Within(g1, g2) && next0 <= next1
    requires forall q :: q in g2 && q !in g1 ==> next0 <= q
    requires k.Some? ==> next0 <= k.value && k.value in g2
    ensures IsSymbolIn(g2, s)
    ensures forall j :: 0 <= j < |ts| ==> HoldsKid(PushBackG(g2, s, k), s, PushBackG(g2, s, k)[s].body.children[j], ts[j], next1)
  {
    var g3 := PushBackG(g2, s, k);
    var cs := g1[s].body.children;
    assert g3[s].body.children == cs + [k];
    forall j | 0 <= j < |ts| ensures HoldsKid(g3, s, g3[s].body.children[j], ts[j], next1) {
      assert g3[s].body.children[j] == cs[j];
      assert HoldsKid(g1, s, cs[j], ts[j], next0);
      HoldsAt(g1, cs[j], ts[j], s + 1, next0);
      if cs[j].Some? {
        var c := cs[j].value;
        forall q | q in g1 && c < q < next0 ensures q in g3 && g3[q] == g1[q] {
          assert q != s;
        }
        HoldsFrame(g1, g3, cs[j], ts[j], s + 1, s + 1, next0, next1);
      }
    }
  }

  /** The appended child is realised above `s` and parented to it. */
  lemma KidStepNew(g2: Graph, s: NodeId, t: Ast, k: Option<NodeId>, next0: nat, next1: nat)
    requires Holds(g2, k, t, next0, next1) && s < next0 && IsSymbolIn(g2, s)
    ensures HoldsKid(PushBackG(g2, s, k), s, k, t, next1)
  {
    HoldsAt(g2, k, t, next0, next1);
    if k.Some? {
      HoldsFrame(g2, PushBackG(g2, s, k), k, t, next0, s + 1, next1, next1);
    }
  }

  /** The nodes above `s` still point only among themselves and to `s` after the append. */
  lemma KidStepRegion(g1: Graph, g2: Graph, s: NodeId, k: Option<NodeId>, next0: nat, next1: nat)
    requires s in g1 && g1[s].body.Symbol? && KidsRegion(g1, s, next0) && Within(g1, g2) && s < next0 <= next1
    requires forall q :: q in g2 && q !in g1 ==> next0 <= q < next1
    requires SelfContained(g2, next0, next1)
    requires k.Some? ==> next0 <= k.value && k.value in g2
    ensures IsSymbolIn(g2, s) && KidsRegion(PushBackG(g2, s, k), s, next1)
  {
    var g3 := PushBackG(g2, s, k);
    assert g3[s].body.children == g1[s].body.children + [k];
    forall q | q in g3 && s < q < next1
      ensures LaidOut(g3[q], q, s, next1) && (g3[q].parent == Some(s) ==> Some(q) in g3[s].body.children)
    {
      if q < next0 {
        assert q in g1 && g3[q] == g1[q];
      } else {
        assert LaidOut(g2[q], q, next0, next1);
      }
    }
  }

  /** Collapsing a document with one child: after detaching the child and dropping the
    * document, the child realises its tree on its own, from the document's address up. */
  lemma Collapse(g0: Graph, g1: Graph, g2: Graph, ch1: map<nat, Chunk>, doc: NodeId, root: NodeId, t: Ast, hi: nat)
    requires KidsInv(g0, g1, ch1, doc, 0, [t], doc, hi) && Closed(g0) && Closed(g1) && (forall k :: k in g0 ==> k < doc)
    requires g1[doc].body.children == [Some(root)] && root in g1
    requires g2 == DetachG(g1, root) - {doc}
    ensures Holds(g2, Some(root), t, doc, hi) && Grown(g0, g2, ch1 - {doc}, doc, hi)
    ensures SelfContained(g2, doc, hi) && g2[root].parent.None?
    ensures Closed(g2)
  {
    assert g1[doc].body.children[0] == Some(root) && [t][0] == t;
    assert HoldsKid(g1, doc, Some(root), t, hi);
    HoldsAt(g1, Some(root), t, doc + 1, hi);
    CollapseShape(g1, g2, doc, root);
    CollapseHolds(g1, g2, doc, root, t, hi);
    CollapseLaidOut(g1, g2, doc, root, hi);
    CollapseClosed(g0, g1, g2, doc, root, hi);
    CollapseGrown(g0, g1, g2, ch1, doc, root, hi);
  }

  /** Detaching the document's only child and dropping the document, spelled out. */
  lemma CollapseShape(g1: Graph, g2: Graph, doc: NodeId, root: NodeId)
    requires doc in g1 && root in g1 && g1[doc].body.Symbol? && g1[doc].body.children == [Some(root)]
    requires g2 == DetachG(g1, root) - {doc}
    requires g1[root].parent == Some(doc)
    ensures g2 == (g1[doc := g1[doc].(body := Symbol([]))][root := g1[root].(parent := None)]) - {doc}
  {
    assert RemoveAll([Some(root)], Some(root)) == [];
  }

  /** The tree under the detached root still lays out `t`, now from the document's address. */
  lemma CollapseHolds(g1: Graph, g2: Graph, doc: NodeId, root: NodeId, t: Ast, hi: nat)
    requires Holds(g1, Some(root), t, doc + 1, hi) && doc in g1 && root in g1 && doc < root
    requires g2 == (g1[doc := g1[doc].(body := Symbol([]))][root := g1[root].(parent := None)]) - {doc}
    ensures Holds(g2, Some(root), t, doc, hi)
  {
    forall q | q in g1 && root < q < hi ensures q in g2 && g2[q] == g1[q] {
      assert q != doc;
    }
    HoldsFrame(g1, g2, Some(root), t, doc + 1, doc, hi, hi);
  }

  /** The arena after the collapse has grown from `g0` by what the child loop allocated. */
  lemma CollapseGrown(g0: Graph, g1: Graph, g2: Graph, ch1: map<nat, Chunk>, doc: NodeId, root: NodeId, hi: nat)
    requires Grown(g0, g1, ch1, doc, hi) && doc in g1 && root in g1 && doc < root
    requires forall k :: k in g0 ==> k < doc
    requires g2 == (g1[doc := g1[doc].(body := Symbol([]))][root := g1[root].(parent := None)]) - {doc}
    ensures Grown(g0, g2, ch1 - {doc}, doc, hi)
  {
    forall q | q in g2 && q !in g0 ensures doc <= q < hi && q in ch1 - {doc} && NodeChunk(g2[q], (ch1 - {doc})[q]) {
      assert KindOf(g2[q]) == KindOf(g1[q]);
    }
  }

  /** After the collapse no node above the document's address points back at it. */
  lemma CollapseLaidOut(g1: Graph, g2: Graph, doc: NodeId, root: NodeId, hi: nat)
    requires doc in g1 && g1[doc].body.Symbol? && KidsRegion(g1, doc, hi)
    requires g1[doc].body.children == [Some(root)] && root in g1 && g1[root].parent == Some(doc)
    requires g2 == (g1[doc := g1[doc].(body := Symbol([]))][root := g1[root].(parent := None)]) - {doc}
    ensures forall q :: q in g2 && doc <= q < hi ==> LaidOut(g2[q], q, doc + 1, hi)
  {
    forall q | q in g2 && doc <= q < hi ensures LaidOut(g2[q], q, doc + 1, hi) {
      assert q != doc && LaidOut(g1[q], q, doc, hi);
      assert g1[q].parent == Some(doc) ==> Some(q) in g1[doc].body.children;
      if q != root {
        assert g2[q] == g1[q];
      }
    }
  }

  /** Dropping a node nothing points to keeps the arena closed. */
  lemma CollapseClosed(g0: Graph, g1: Graph, g2: Graph, doc: NodeId, root: NodeId, hi: nat)
    requires Closed(g0) && Closed(g1) && Within(g0, g1) && doc !in g0 && root !in g0
    requires forall q :: q in g1 && q !in g0 ==> doc <= q < hi
    requires doc in g1 && root in g1
    requires g2 == (g1[doc := g1[doc].(body := Symbol([]))][root := g1[root].(parent := None)]) - {doc}
    requires forall q :: q in g2 && doc <= q < hi ==> LaidOut(g2[q], q, doc + 1, hi)
    ensures Closed(g2)
  {
    forall q | q in g2 ensures PointsInto(g2[q], g2) {
      if q in g0 {
        assert g2[q] == g0[q] && PointsInto(g0[q], g0);
      } else {
        assert PointsInto(g1[q], g1) && LaidOut(g2[q], q, doc + 1, hi);
      }
    }
  }
}
