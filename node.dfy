/** The parse-tree nodes of `XLangNode.h` and `app/src/XLangNode.cpp`.
  *
  * Nodes live in an arena: a map from node addresses to records. A record holds the lexer id,
  * the `m_parent` and `m_original` pointers and either a term payload or a symbol's child
  * vector, whose slots may be null (`None`). The functions ending in `G` give the arena after
  * one operation; the methods of `NodeStore` perform the operations in place. */
module XLangNode {
  import opened Wrappers
  import opened XLangAlloc
  import opened XLangNodeIFace
  import opened XLangTreeContext

  type NodeId = nat

  /** A term payload. FLOAT payloads are kept as their 32-bit pattern. */
  datatype Value = IntV(i: int) | FloatV(bits: bv32) | StringV(s: StrPtr) | CharV(c: char) | IdentV(id: StrPtr)

  datatype Body = Term(value: Value) | Symbol(children: seq<Option<NodeId>>)

  /** One node: `m_lexer_id`, `m_parent`, `m_original` and the payload or child vector. */
  datatype Object = Object(lexerId: nat, parent: Option<NodeId>, original: Option<NodeId>, body: Body)

  type Graph = map<NodeId, Object>

  /** An argument of the flattening constructors: a node pointer or the `eol()` sentinel, which
    * is the same distinguished non-null pointer on every call and never a node. */
  datatype Arg = Eol | Ptr(p: Option<NodeId>)

  function ValueKind(v: Value): Kind
  {
    match v
    case IntV(_) => INT
    case FloatV(_) => FLOAT
    case StringV(_) => STRING
    case CharV(_) => CHAR
    case IdentV(_) => IDENT
  }

  /** `type()` */
  function KindOf(o: Object): Kind
  {
    match o.body
    case Term(v) => ValueKind(v)
    case Symbol(_) => SYMBOL
  }

  lemma KindSymbol(o: Object)
    ensures KindOf(o) == SYMBOL <==> o.body.Symbol?
  {
  }

  predicate IsSymbolIn(g: Graph, n: NodeId)
  {
    n in g && g[n].body.Symbol?
  }

  /** `original()`: the stored original, or the node itself when none is stored. */
  function Original(g: Graph, n: NodeId): (r: NodeId)
    requires n in g
    ensures r == n || g[n].original == Some(r)
    ensures Closed(g) ==> r in g
  {
    if g[n].original.Some? then g[n].original.value else n
  }

  // ---------------------------------------------------------------------
  // Shape of an arena
  // ---------------------------------------------------------------------

  /** Every pointer stored in `o` (children, parent, original) points to a node of `g`. */
  ghost predicate PointsInto(o: Object, g: Graph)
  {
    (o.parent.Some? ==> o.parent.value in g)
    && (o.original.Some? ==> o.original.value in g)
    && (o.body.Symbol? ==> forall c :: Some(c) in o.body.children ==> c in g)
  }

  /** Every pointer stored in a node points into the arena. */
  ghost predicate Closed(g: Graph)
  {
    forall k :: k in g ==> PointsInto(g[k], g)
  }

  /** Adding or replacing a node whose pointers stay inside the arena keeps it closed. */
  lemma ClosedPut(g: Graph, k: NodeId, o: Object)
    requires Closed(g) && PointsInto(o, g[k := o])
    ensures Closed(g[k := o])
  {
    var g' := g[k := o];
    forall j | j in g' ensures PointsInto(g'[j], g') {
      if j != k {
        assert PointsInto(g[j], g);
      }
    }
  }

  /** Every non-null child's parent is the symbol holding it, except for the symbols in `x`. */
  ghost predicate ConsistentExcept(g: Graph, x: set<NodeId>)
  {
    forall p, c :: p in g && p !in x && g[p].body.Symbol? && Some(c) in g[p].body.children ==>
      c in g && g[c].parent == Some(p)
  }

  ghost predicate Consistent(g: Graph)
  {
    ConsistentExcept(g, {})
  }

  /** Every node with a parent is among that parent's children. */
  ghost predicate Membership(g: Graph)
  {
    forall k :: k in g && g[k].parent.Some? ==>
      g[k].parent.value in g && g[g[k].parent.value].body.Symbol?
      && Some(k) in g[g[k].parent.value].body.children
  }

  /** `rank` strictly decreases from a ranked symbol to each of its children, so recursion over
    * the children of ranked nodes terminates (the arena holds no cycle there). */
  ghost predicate Ranked(g: Graph, rank: map<NodeId, nat>)
  {
    forall p, c :: p in g && p in rank && g[p].body.Symbol? && Some(c) in g[p].body.children ==>
      c in g && c in rank && rank[c] < rank[p]
  }

  // ---------------------------------------------------------------------
  // Pointer updates
  // ---------------------------------------------------------------------

  /** `set_parent(p)` on a possibly null pointer (null is skipped, as the `if(x)` guards do). */
  function SetParentOpt(g: Graph, x: Option<NodeId>, p: NodeId): Graph
  {
    if x.Some? && x.value in g then g[x.value := g[x.value].(parent := Some(p))] else g
  }

  /** `set_parent(NULL)` on a possibly null pointer. */
  function ClearParent(g: Graph, x: Option<NodeId>): Graph
  {
    if x.Some? && x.value in g then g[x.value := g[x.value].(parent := None)] else g
  }

  /** `set_parent(p)` on each pointer of `cs`, left to right. */
  function SetParents(g: Graph, cs: seq<Option<NodeId>>, p: NodeId): (r: Graph)
    ensures r.Keys == g.Keys
    decreases |cs|
  {
    if cs == [] then g else SetParentOpt(SetParents(g, cs[..|cs| - 1], p), cs[|cs| - 1], p)
  }

  /** Setting parents changes exactly the parent pointer of the listed nodes. */
  lemma {:induction false} SetParentsSpec(g: Graph, cs: seq<Option<NodeId>>, p: NodeId)
    ensures SetParents(g, cs, p).Keys == g.Keys
    ensures forall k :: k in g ==> SetParents(g, cs, p)[k] == if Some(k) in cs then g[k].(parent := Some(p)) else g[k]
    decreases |cs|
  {
    if cs != [] {
      var init := cs[..|cs| - 1];
      SetParentsSpec(g, init, p);
      assert cs == init + [cs[|cs| - 1]];
      forall k | k in g ensures SetParents(g, cs, p)[k] == if Some(k) in cs then g[k].(parent := Some(p)) else g[k] {
        assert Some(k) in cs <==> Some(k) in init || Some(k) == cs[|cs| - 1];
      }
    }
  }

  // ---------------------------------------------------------------------
  // SymbolNode flattening constructors
  // ---------------------------------------------------------------------

  /** What one constructor argument contributes to the child vector of a new symbol with lexer
    * id `lexerId`: nothing for `eol()`; the child vector of a symbol of the same type (same
    * kind and same lexer id); the pointer itself otherwise, null included. */
  function Piece(g: Graph, lexerId: nat, a: Arg): seq<Option<NodeId>>
  {
    match a
    case Eol => []
    case Ptr(None) => [None]
    case Ptr(Some(c)) =>
      if c in g && IsSameType(SYMBOL, lexerId, KindOf(g[c]), g[c].lexerId) then g[c].body.children else [Some(c)]
  }

  /** The child vector the constructors build from the arguments, in argument order. */
  function FlattenArgs(g: Graph, lexerId: nat, args: seq<Arg>): seq<Option<NodeId>>
  {
    if args == [] then [] else FlattenArgs(g, lexerId, args[..|args| - 1]) + Piece(g, lexerId, args[|args| - 1])
  }

  lemma FlattenPrefix(g: Graph, lexerId: nat, args: seq<Arg>, i: nat)
    requires i < |args|
    ensures FlattenArgs(g, lexerId, args[..i + 1]) == FlattenArgs(g, lexerId, args[..i]) + Piece(g, lexerId, args[i])
  {
    assert args[..i + 1][..i] == args[..i];
  }

  lemma SetParentsSlice(g: Graph, before: seq<Option<NodeId>>, s: seq<Option<NodeId>>, j: nat, p: NodeId)
    requires j < |s|
    ensures SetParents(g, before + s[..j + 1], p) == SetParentOpt(SetParents(g, before + s[..j], p), s[j], p)
  {
    assert before + s[..j + 1] == (before + s[..j]) + [s[j]];
    SetParentsSnoc(g, before + s[..j], s[j], p);
  }

  lemma SetParentsSnoc(g: Graph, cs: seq<Option<NodeId>>, x: Option<NodeId>, p: NodeId)
    ensures SetParents(g, cs + [x], p) == SetParentOpt(SetParents(g, cs, p), x, p)
  {
    assert (cs + [x])[..|cs|] == cs;
  }

  /** The arena after constructing symbol `self` from `args`: the new node is parentless, has no
    * stored original, and every non-null pointer of its child vector is reparented to it. */
  function NewSymbolG(g: Graph, self: NodeId, lexerId: nat, args: seq<Arg>): Graph
  {
    var cs := FlattenArgs(g, lexerId, args);
    SetParents(g, cs, self)[self := Object(lexerId, None, None, Symbol(cs))]
  }

  predicate ArgsIn(g: Graph, args: seq<Arg>)
  {
    forall i :: 0 <= i < |args| && args[i].Ptr? && args[i].p.Some? ==> args[i].p.value in g
  }

  /** The arguments are processed in order: the child vector of a concatenation of argument
    * lists is the concatenation of their child vectors. */
  lemma {:induction false} FlattenArgsAppend(g: Graph, lexerId: nat, a: seq<Arg>, b: seq<Arg>)
    ensures FlattenArgs(g, lexerId, a + b) == FlattenArgs(g, lexerId, a) + FlattenArgs(g, lexerId, b)
    decreases |b|
  {
    if b == [] {
      assert a + b == a;
    } else {
      var b' := b[..|b| - 1];
      assert (a + b)[..|a + b| - 1] == a + b';
      assert (a + b)[|a + b| - 1] == b[|b| - 1];
      FlattenArgsAppend(g, lexerId, a, b');
    }
  }

  /** `eol()` contributes nothing wherever it appears. */
  lemma FlattenSkipsEol(g: Graph, lexerId: nat, a: seq<Arg>, b: seq<Arg>)
    ensures FlattenArgs(g, lexerId, a + [Eol] + b) == FlattenArgs(g, lexerId, a + b)
  {
    FlattenArgsAppend(g, lexerId, a + [Eol], b);
    FlattenArgsAppend(g, lexerId, a, [Eol]);
    FlattenArgsAppend(g, lexerId, a, b);
    assert FlattenArgs(g, lexerId, [Eol]) == FlattenArgs(g, lexerId, []) + [];
  }

  /** Flattening splices one level only: a same-type symbol argument contributes its child
    * vector verbatim, even where those children are same-type symbols themselves. */
  lemma FlattenOneLevel(g: Graph, lexerId: nat, c: NodeId)
    requires IsSymbolIn(g, c) && g[c].lexerId == lexerId
    ensures FlattenArgs(g, lexerId, [Ptr(Some(c))]) == g[c].body.children
  {
    assert [Ptr(Some(c))][..0] == [];
  }

  /** The pointers among the arguments, in order, with `eol()` dropped. */
  function Pointers(args: seq<Arg>): seq<Option<NodeId>>
  {
    if args == [] then [] else Pointers(args[..|args| - 1]) + (if args[|args| - 1].Ptr? then [args[|args| - 1].p] else [])
  }

  /** Without a same-type symbol among the arguments nothing is spliced: the child vector is
    * the argument pointers in order, nulls kept, `eol()` dropped. */
  lemma {:induction false} FlattenPlain(g: Graph, lexerId: nat, args: seq<Arg>)
    requires forall i :: 0 <= i < |args| && args[i].Ptr? && args[i].p.Some? ==>
      !(IsSymbolIn(g, args[i].p.value) && g[args[i].p.value].lexerId == lexerId)
    ensures FlattenArgs(g, lexerId, args) == Pointers(args)
  {
    if args != [] {
      FlattenPlain(g, lexerId, args[..|args| - 1]);
    }
  }

  /** The symbols among the arguments whose children get spliced. */
  ghost function Absorbed(g: Graph, lexerId: nat, args: seq<Arg>): set<NodeId>
  {
    set i, c | 0 <= i < |args| && args[i] == Ptr(Some(c)) && c in g && IsSymbolIn(g, c) && g[c].lexerId == lexerId :: c
  }

  lemma {:induction false} FlattenArgsFrom(g: Graph, lexerId: nat, args: seq<Arg>, c: NodeId)
    requires Some(c) in FlattenArgs(g, lexerId, args)
    ensures (exists i :: 0 <= i < |args| && args[i] == Ptr(Some(c)))
         || (exists i, a :: 0 <= i < |args| && args[i] == Ptr(Some(a)) && a in Absorbed(g, lexerId, args)
               && Some(c) in g[a].body.children)
  {
    var init := args[..|args| - 1];
    var last := args[|args| - 1];
    if Some(c) in FlattenArgs(g, lexerId, init) {
      FlattenArgsFrom(g, lexerId, init, c);
      if exists i :: 0 <= i < |init| && init[i] == Ptr(Some(c)) {
        var i :| 0 <= i < |init| && init[i] == Ptr(Some(c));
        assert args[i] == Ptr(Some(c));
      } else {
        var i, a :| 0 <= i < |init| && init[i] == Ptr(Some(a)) && a in Absorbed(g, lexerId, init)
               && Some(c) in g[a].body.children;
        assert args[i] == Ptr(Some(a));
        assert a in Absorbed(g, lexerId, args);
      }
    } else {
      assert Some(c) in Piece(g, lexerId, last);
      var a := last.p.value;
      if c in g && IsSameType(SYMBOL, lexerId, KindOf(g[a]), g[a].lexerId) && a != c {
        assert args[|args| - 1] == Ptr(Some(a));
        assert a in Absorbed(g, lexerId, args);
      }
    }
  }

  /** Every non-null pointer in the new child vector points into the arena. */
  lemma FlattenedIn(g: Graph, lexerId: nat, args: seq<Arg>)
    requires Closed(g) && ArgsIn(g, args)
    ensures forall c :: Some(c) in FlattenArgs(g, lexerId, args) ==> c in g
  {
    forall c | Some(c) in FlattenArgs(g, lexerId, args) ensures c in g {
      FlattenArgsFrom(g, lexerId, args, c);
    }
  }

  /** Flattening keeps the arena consistent for every symbol except the absorbed ones: those
    * keep their old child vectors although their children now belong to the new symbol.
    * This holds when the arguments are parentless, as the parser's fresh nodes are. */
  lemma NewSymbolConsistency(g: Graph, self: NodeId, lexerId: nat, args: seq<Arg>)
    requires Consistent(g) && Closed(g) && self !in g && ArgsIn(g, args)
    requires forall i :: 0 <= i < |args| && args[i].Ptr? && args[i].p.Some? ==> g[args[i].p.value].parent.None?
    ensures ConsistentExcept(NewSymbolG(g, self, lexerId, args), Absorbed(g, lexerId, args))
  {
    var cs := FlattenArgs(g, lexerId, args);
    var g' := NewSymbolG(g, self, lexerId, args);
    var x := Absorbed(g, lexerId, args);
    SetParentsSpec(g, cs, self);
    FlattenedParents(g, lexerId, args);
    forall p, c | p in g' && p !in x && g'[p].body.Symbol? && Some(c) in g'[p].body.children
      ensures c in g' && g'[c].parent == Some(p)
    {
      if p != self {
        assert g'[p].body == g[p].body;
        assert g[c].parent == Some(p);
        assert Some(c) !in cs;
      }
    }
  }

  /** Every node the new vector holds was parentless or a child of an absorbed symbol. */
  lemma FlattenedParents(g: Graph, lexerId: nat, args: seq<Arg>)
    requires Consistent(g) && Closed(g) && ArgsIn(g, args)
    requires forall i :: 0 <= i < |args| && args[i].Ptr? && args[i].p.Some? ==> g[args[i].p.value].parent.None?
    ensures forall c :: Some(c) in FlattenArgs(g, lexerId, args) ==>
      c in g && (g[c].parent.None? || g[c].parent.value in Absorbed(g, lexerId, args))
  {
    forall c | Some(c) in FlattenArgs(g, lexerId, args)
      ensures c in g && (g[c].parent.None? || g[c].parent.value in Absorbed(g, lexerId, args))
    {
      FlattenArgsFrom(g, lexerId, args, c);
      if exists i :: 0 <= i < |args| && args[i] == Ptr(Some(c)) {
        var i :| 0 <= i < |args| && args[i] == Ptr(Some(c));
        assert g[c].parent.None?;
      } else {
        var i, a :| 0 <= i < |args| && args[i] == Ptr(Some(a)) && a in Absorbed(g, lexerId, args)
                    && Some(c) in g[a].body.children;
        assert g[c].parent == Some(a);
      }
    }
  }

  /** Flattening keeps every parented node among its parent's children. */
  lemma NewSymbolMembership(g: Graph, self: NodeId, lexerId: nat, args: seq<Arg>)
    requires Membership(g) && Closed(g) && self !in g && ArgsIn(g, args)
    ensures Membership(NewSymbolG(g, self, lexerId, args))
  {
    var cs := FlattenArgs(g, lexerId, args);
    var g' := NewSymbolG(g, self, lexerId, args);
    SetParentsSpec(g, cs, self);
    forall k | k in g' && g'[k].parent.Some?
      ensures g'[k].parent.value in g' && g'[g'[k].parent.value].body.Symbol?
              && Some(k) in g'[g'[k].parent.value].body.children
    {
      if k != self && Some(k) !in cs {
        var q := g[k].parent.value;
        assert g'[k] == g[k];
        assert q in g && g[q].body.Symbol? && Some(k) in g[q].body.children;
        assert g'[q].body == g[q].body;
      }
    }
  }

  /** After construction every non-null child points back to the new symbol, which is a root
    * whose `original()` is itself. */
  lemma NewSymbolSpec(g: Graph, self: NodeId, lexerId: nat, args: seq<Arg>)
    requires self !in g
    ensures self in NewSymbolG(g, self, lexerId, args)
    ensures IsRoot(NewSymbolG(g, self, lexerId, args)[self].parent)
    ensures Original(NewSymbolG(g, self, lexerId, args), self) == self
    ensures forall c :: Some(c) in FlattenArgs(g, lexerId, args) && c in g ==>
      NewSymbolG(g, self, lexerId, args)[c].parent == Some(self)
    ensures forall k :: k in g && Some(k) !in FlattenArgs(g, lexerId, args) ==> NewSymbolG(g, self, lexerId, args)[k] == g[k]
  {
    SetParentsSpec(g, FlattenArgs(g, lexerId, args), self);
  }

  /** Constructing a symbol at a fresh address keeps the arena closed. */
  lemma NewSymbolClosed(g: Graph, self: NodeId, lexerId: nat, args: seq<Arg>)
    requires Closed(g) && ArgsIn(g, args) && self !in g
    ensures Closed(NewSymbolG(g, self, lexerId, args))
  {
    var cs := FlattenArgs(g, lexerId, args);
    var g1 := SetParents(g, cs, self);
    var g2 := NewSymbolG(g, self, lexerId, args);
    SetParentsSpec(g, cs, self);
    FlattenedIn(g, lexerId, args);
    forall k | k in g2 ensures PointsInto(g2[k], g2) {
      if k != self {
        assert PointsInto(g[k], g);
      }
    }
  }

  /** The arena after constructing a term: a parentless node without a stored original. */
  function NewTermG(g: Graph, self: NodeId, lexerId: nat, v: Value): Graph
  {
    g[self := Object(lexerId, None, None, Term(v))]
  }

  lemma NewTermSpec(g: Graph, self: NodeId, lexerId: nat, v: Value)
    ensures IsRoot(NewTermG(g, self, lexerId, v)[self].parent)
    ensures Original(NewTermG(g, self, lexerId, v), self) == self
    ensures KindOf(NewTermG(g, self, lexerId, v)[self]) == ValueKind(v)
  {
  }

  // ---------------------------------------------------------------------
  // Sequence algorithms used by the mutators
  // ---------------------------------------------------------------------

  /** `std::find`: the first position holding `x`. */
  function FirstIndex<T(==)>(s: seq<T>, x: T): (r: Option<nat>)
    ensures r.None? <==> x !in s
    ensures r.Some? ==> r.value < |s| && s[r.value] == x && x !in s[..r.value]
  {
    if s == [] then None
    else if s[0] == x then Some(0)
    else
      var r := FirstIndex(s[1..], x);
      if r.None? then None
      else
        assert s[..r.value + 1] == [s[0]] + s[1..][..r.value];
        Some(r.value + 1)
  }

  /** `std::remove` of every element equal to `x`, the rest kept in order. */
  function RemoveAll<T(==)>(s: seq<T>, x: T): seq<T>
  {
    if s == [] then [] else (if s[0] == x then [] else [s[0]]) + RemoveAll(s[1..], x)
  }

  /** `std::replace` of every element equal to `x` by `y`. */
  function ReplaceAll<T(==)>(s: seq<T>, x: T, y: T): seq<T>
  {
    seq(|s|, j requires 0 <= j < |s| => if s[j] == x then y else s[j])
  }

  /** Removing drops exactly the occurrences of `x` and keeps every other element's count. */
  lemma {:induction false} RemoveAllSpec<T>(s: seq<T>, x: T)
    ensures x !in RemoveAll(s, x)
    ensures multiset(RemoveAll(s, x)) == multiset(s)[x := 0]
    ensures |RemoveAll(s, x)| == |s| - multiset(s)[x]
  {
    if s != [] {
      RemoveAllSpec(s[1..], x);
      assert s == [s[0]] + s[1..];
      assert multiset(s) == multiset([s[0]]) + multiset(s[1..]);
    }
  }

  /** Elements before the first occurrence are never removed. */
  lemma {:induction false} RemoveAllPrefix<T>(s: seq<T>, x: T, i: nat)
    requires i <= |s| && x !in s[..i]
    ensures RemoveAll(s, x) == s[..i] + RemoveAll(s[i..], x)
  {
    if i > 0 {
      assert s[1..][..i - 1] == s[..i][1..];
      assert x != s[0] by { assert s[..i][0] == s[0]; }
      RemoveAllPrefix(s[1..], x, i - 1);
      assert s[1..][i - 1..] == s[i..];
      assert [s[0]] + s[1..][..i - 1] == s[..i];
    }
  }

  /** Elements before the first occurrence are never replaced. */
  lemma ReplaceAllPrefix<T>(s: seq<T>, x: T, y: T, i: nat)
    requires i <= |s| && x !in s[..i]
    ensures ReplaceAll(s, x, y) == s[..i] + ReplaceAll(s[i..], x, y)
  {
    forall j | 0 <= j < i ensures s[j] != x {
      assert s[j] in s[..i];
    }
  }

  // ---------------------------------------------------------------------
  // SymbolNode mutators
  // ---------------------------------------------------------------------

  function ChildrenOf(g: Graph, p: NodeId): seq<Option<NodeId>>
    requires IsSymbolIn(g, p)
  {
    g[p].body.children
  }

  function WithChildren(g: Graph, p: NodeId, cs: seq<Option<NodeId>>): Graph
    requires p in g
  {
    g[p := g[p].(body := Symbol(cs))]
  }

  /** `push_back` */
  function PushBackG(g: Graph, p: NodeId, x: Option<NodeId>): Graph
    requires IsSymbolIn(g, p)
  {
    SetParentOpt(WithChildren(g, p, ChildrenOf(g, p) + [x]), x, p)
  }

  /** `push_front` */
  function PushFrontG(g: Graph, p: NodeId, x: Option<NodeId>): Graph
    requires IsSymbolIn(g, p)
  {
    SetParentOpt(WithChildren(g, p, [x] + ChildrenOf(g, p)), x, p)
  }

  /** `insert_after`: nothing happens when the anchor is absent. */
  function InsertAfterG(g: Graph, p: NodeId, anchor: Option<NodeId>, x: NodeId): Graph
    requires IsSymbolIn(g, p)
  {
    var cs := ChildrenOf(g, p);
    match FirstIndex(cs, anchor)
    case None => g
    case Some(i) => SetParentOpt(WithChildren(g, p, cs[..i + 1] + [Some(x)] + cs[i + 1..]), Some(x), p)
  }

  /** `remove_first`: nothing happens when `x` is absent; otherwise `std::remove` from the first
    * match, which drops every occurrence (the slots before the first match hold none), and `x`
    * loses its parent. */
  function RemoveFirstG(g: Graph, p: NodeId, x: Option<NodeId>): Graph
    requires IsSymbolIn(g, p)
  {
    var cs := ChildrenOf(g, p);
    if x !in cs then g else ClearParent(WithChildren(g, p, RemoveAll(cs, x)), x)
  }

  /** `replace_first`: nothing happens when `f` is absent; otherwise `std::replace` from the
    * first match, which replaces every occurrence, then `f` loses its parent and `r` gets `p`. */
  function ReplaceFirstG(g: Graph, p: NodeId, f: Option<NodeId>, r: Option<NodeId>): Graph
    requires IsSymbolIn(g, p)
  {
    var cs := ChildrenOf(g, p);
    if f !in cs then g else SetParentOpt(ClearParent(WithChildren(g, p, ReplaceAll(cs, f, r)), f), r, p)
  }

  /** `erase(i)`: nothing happens for an index out of range; otherwise element `i` loses its
    * parent and is removed. */
  function EraseG(g: Graph, p: NodeId, i: int): Graph
    requires IsSymbolIn(g, p)
  {
    var cs := ChildrenOf(g, p);
    if i < 0 || i >= |cs| then g
    else
      var g1 := ClearParent(g, cs[i]);
      WithChildren(g1, p, cs[..i] + cs[i + 1..])
  }

  /** `Node::detach`: a node with a symbol parent is removed from it by `remove_first`. */
  function DetachG(g: Graph, n: NodeId): Graph
    requires n in g
  {
    var q := g[n].parent;
    if q.None? || !IsSymbolIn(g, q.value) then g else RemoveFirstG(g, q.value, Some(n))
  }

  /** `push_back` appends `x` and parents it to `p`; nothing else changes. */
  lemma PushBackSpec(g: Graph, p: NodeId, x: Option<NodeId>)
    requires IsSymbolIn(g, p) && (x.Some? ==> x.value in g)
    ensures PushBackG(g, p, x).Keys == g.Keys
    ensures ChildrenOf(PushBackG(g, p, x), p) == ChildrenOf(g, p) + [x]
    ensures PushBackG(g, p, x)[p] == g[p].(body := Symbol(ChildrenOf(g, p) + [x]),
                                          parent := if x == Some(p) then Some(p) else g[p].parent)
    ensures forall k :: k in g && k != p ==>
      PushBackG(g, p, x)[k] == if Some(k) == x then g[k].(parent := Some(p)) else g[k]
  {
  }

  /** `push_front` prepends `x` and parents it to `p`; nothing else changes. */
  lemma PushFrontSpec(g: Graph, p: NodeId, x: Option<NodeId>)
    requires IsSymbolIn(g, p) && (x.Some? ==> x.value in g)
    ensures PushFrontG(g, p, x).Keys == g.Keys
    ensures ChildrenOf(PushFrontG(g, p, x), p) == [x] + ChildrenOf(g, p)
    ensures PushFrontG(g, p, x)[p] == g[p].(body := Symbol([x] + ChildrenOf(g, p)),
                                           parent := if x == Some(p) then Some(p) else g[p].parent)
    ensures forall k :: k in g && k != p ==>
      PushFrontG(g, p, x)[k] == if Some(k) == x then g[k].(parent := Some(p)) else g[k]
  {
  }

  /** `insert_after` puts `x` right after the first occurrence of the anchor, and does
    * nothing when the anchor is absent. */
  lemma InsertAfterSpec(g: Graph, p: NodeId, anchor: Option<NodeId>, x: NodeId)
    requires IsSymbolIn(g, p) && x in g
    ensures anchor !in ChildrenOf(g, p) ==> InsertAfterG(g, p, anchor, x) == g
    ensures anchor in ChildrenOf(g, p) ==>
      var cs := ChildrenOf(g, p);
      var i := FirstIndex(cs, anchor).value;
      var cs' := ChildrenOf(InsertAfterG(g, p, anchor, x), p);
      |cs'| == |cs| + 1 && cs'[..i + 1] == cs[..i + 1] && cs'[i + 1] == Some(x) && cs'[i + 2..] == cs[i + 1..]
      && cs[i] == anchor && anchor !in cs[..i]
      && InsertAfterG(g, p, anchor, x)[x].parent == Some(p)
      && forall k :: k in g && k != p && k != x ==> InsertAfterG(g, p, anchor, x)[k] == g[k]
  {
    if anchor in ChildrenOf(g, p) {
      var cs := ChildrenOf(g, p);
      var i := FirstIndex(cs, anchor).value;
      var cs2 := cs[..i + 1] + [Some(x)] + cs[i + 1..];
      assert cs2[..i + 1] == cs[..i + 1];
      assert cs2[i + 2..] == cs[i + 1..];
    }
  }

  lemma {:induction false} RemoveAllIn<T>(s: seq<T>, x: T, y: T)
    ensures y in RemoveAll(s, x) <==> y in s && y != x
  {
    if s != [] {
      RemoveAllIn(s[1..], x, y);
      assert y in s <==> y == s[0] || y in s[1..];
    }
  }

  /** `remove_first` drops every occurrence of `x` and keeps the other children with their
    * counts; `x` becomes a root; nothing else changes. */
  lemma RemoveFirstSpec(g: Graph, p: NodeId, x: Option<NodeId>)
    requires IsSymbolIn(g, p)
    ensures x !in ChildrenOf(g, p) ==> RemoveFirstG(g, p, x) == g
    ensures x in ChildrenOf(g, p) ==>
      var g' := RemoveFirstG(g, p, x);
      var cs' := ChildrenOf(g', p);
      g'.Keys == g.Keys
      && cs' == RemoveAll(ChildrenOf(g, p), x) && x !in cs'
      && multiset(cs') == multiset(ChildrenOf(g, p))[x := 0]
      && g'[p] == g[p].(body := Symbol(cs'), parent := if x == Some(p) then None else g[p].parent)
      && forall k :: k in g && k != p ==> g'[k] == if Some(k) == x then g[k].(parent := None) else g[k]
  {
    if x in ChildrenOf(g, p) {
      RemoveAllSpec(ChildrenOf(g, p), x);
    }
  }

  /** `replace_first` replaces every occurrence of `f` by `r`; `f` loses its parent unless it
    * is `r` itself, and `r` ends up with parent `p`. */
  lemma ReplaceFirstSpec(g: Graph, p: NodeId, f: Option<NodeId>, r: Option<NodeId>)
    requires IsSymbolIn(g, p) && (r.Some? ==> r.value in g)
    ensures f !in ChildrenOf(g, p) ==> ReplaceFirstG(g, p, f, r) == g
    ensures f in ChildrenOf(g, p) ==>
      var cs := ChildrenOf(g, p);
      var cs' := ChildrenOf(ReplaceFirstG(g, p, f, r), p);
      |cs'| == |cs| && (forall i :: 0 <= i < |cs| ==> cs'[i] == if cs[i] == f then r else cs[i])
      && (r.Some? ==> ReplaceFirstG(g, p, f, r)[r.value].parent == Some(p))
      && (f.Some? && f.value in g && f != r ==> ReplaceFirstG(g, p, f, r)[f.value].parent.None?)
      && forall k :: k in g && k != p && Some(k) != f && Some(k) != r ==> ReplaceFirstG(g, p, f, r)[k] == g[k]
  {
  }

  /** `erase(i)` removes exactly element `i` and leaves it without a parent. */
  lemma EraseSpec(g: Graph, p: NodeId, i: int)
    requires IsSymbolIn(g, p)
    ensures (i < 0 || i >= |ChildrenOf(g, p)|) ==> EraseG(g, p, i) == g
    ensures 0 <= i < |ChildrenOf(g, p)| ==>
      var cs := ChildrenOf(g, p);
      ChildrenOf(EraseG(g, p, i), p) == cs[..i] + cs[i + 1..]
      && (cs[i].Some? && cs[i].value in g && cs[i].value != p ==> EraseG(g, p, i)[cs[i].value].parent.None?)
      && forall k :: k in g && k != p && Some(k) != cs[i] ==> EraseG(g, p, i)[k] == g[k]
  {
  }

  /** Erasing one of two slots holding the same node leaves the other slot's node without a
    * parent: the arena is no longer consistent. */
  lemma EraseRepeatedOrphans()
    ensures var g := map[0 := Object(0, None, None, Symbol([Some(1), Some(1)])), 1 := Object(0, Some(0), None, Term(IntV(7)))];
      Consistent(g) && !Consistent(EraseG(g, 0, 0))
  {
    var g := map[0 := Object(0, None, None, Symbol([Some(1), Some(1)])), 1 := Object(0, Some(0), None, Term(IntV(7)))];
    var g' := EraseG(g, 0, 0);
    assert ChildrenOf(g', 0) == [Some(1)];
    assert Some(1) in ChildrenOf(g', 0) && g'[1].parent.None?;
  }

  /** `push_back` keeps the arena consistent when the node it adds is parentless (or null)
    * and is not the symbol itself. */
  lemma PushBackConsistent(g: Graph, p: NodeId, x: Option<NodeId>)
    requires IsSymbolIn(g, p) && Consistent(g)
    requires x.Some? ==> x.value in g && g[x.value].parent.None? && x.value != p
    ensures Consistent(PushBackG(g, p, x))
  {
    PushBackSpec(g, p, x);
    var g' := PushBackG(g, p, x);
    var cs := ChildrenOf(g, p);
    forall q, c | q in g' && g'[q].body.Symbol? && Some(c) in g'[q].body.children
      ensures c in g' && g'[c].parent == Some(q)
    {
      if q == p {
        if Some(c) != x {
          assert Some(c) in cs;
          assert g[c].parent == Some(p);
        }
      } else {
        assert g'[q].body == g[q].body;
        assert g[c].parent == Some(q);
        assert Some(c) != x;
      }
    }
  }

  /** `push_back` keeps every parented node among its parent's children. */
  lemma PushBackMembership(g: Graph, p: NodeId, x: Option<NodeId>)
    requires IsSymbolIn(g, p) && Membership(g) && (x.Some? ==> x.value in g)
    ensures Membership(PushBackG(g, p, x))
  {
    PushBackSpec(g, p, x);
    var g' := PushBackG(g, p, x);
    forall k | k in g' && g'[k].parent.Some?
      ensures g'[k].parent.value in g' && g'[g'[k].parent.value].body.Symbol?
              && Some(k) in g'[g'[k].parent.value].body.children
    {
      if Some(k) != x {
        var q := g[k].parent.value;
        assert g'[k].parent == g[k].parent;
        assert Some(k) in g[q].body.children;
        if q != p {
          assert g'[q].body == g[q].body;
        }
      }
    }
  }

  /** `remove_first` keeps the arena consistent. */
  lemma RemoveFirstConsistent(g: Graph, p: NodeId, x: Option<NodeId>)
    requires IsSymbolIn(g, p) && Consistent(g)
    ensures Consistent(RemoveFirstG(g, p, x))
  {
    RemoveFirstSpec(g, p, x);
    var g' := RemoveFirstG(g, p, x);
    var cs := ChildrenOf(g, p);
    if x in cs {
      forall q, c | q in g' && g'[q].body.Symbol? && Some(c) in g'[q].body.children
        ensures c in g' && g'[c].parent == Some(q)
      {
        if q == p {
          RemoveAllIn(cs, x, Some(c));
          assert g[c].parent == Some(p);
        } else {
          assert g'[q].body == g[q].body;
          assert g[c].parent == Some(q);
          assert x.Some? ==> g[x.value].parent == Some(p);
        }
      }
    }
  }

  /** `remove_first` keeps every parented node among its parent's children. */
  lemma RemoveFirstMembership(g: Graph, p: NodeId, x: Option<NodeId>)
    requires IsSymbolIn(g, p) && Membership(g)
    ensures Membership(RemoveFirstG(g, p, x))
  {
    RemoveFirstSpec(g, p, x);
    var g' := RemoveFirstG(g, p, x);
    var cs := ChildrenOf(g, p);
    if x in cs {
      forall k | k in g' && g'[k].parent.Some?
        ensures g'[k].parent.value in g' && g'[g'[k].parent.value].body.Symbol?
                && Some(k) in g'[g'[k].parent.value].body.children
      {
        assert Some(k) != x;
        var q := g[k].parent.value;
        assert g'[k].parent == g[k].parent;
        assert Some(k) in g[q].body.children;
        if q == p {
          RemoveAllIn(cs, x, Some(k));
        } else {
          assert g'[q].body == g[q].body;
        }
      }
    }
  }

  /** `push_front` keeps the arena consistent when the node it adds is parentless (or null)
    * and is not the symbol itself. */
  lemma PushFrontConsistent(g: Graph, p: NodeId, x: Option<NodeId>)
    requires IsSymbolIn(g, p) && Consistent(g)
    requires x.Some? ==> x.value in g && g[x.value].parent.None? && x.value != p
    ensures Consistent(PushFrontG(g, p, x))
  {
    PushFrontSpec(g, p, x);
    var g' := PushFrontG(g, p, x);
    forall q, c | q in g' && g'[q].body.Symbol? && Some(c) in g'[q].body.children
      ensures c in g' && g'[c].parent == Some(q)
    {
      if q == p {
        if Some(c) != x {
          assert Some(c) in ChildrenOf(g, p);
        }
      } else {
        assert g'[q].body == g[q].body;
        assert g[c].parent == Some(q);
      }
    }
  }

  /** `insert_after` keeps the arena consistent when the inserted node is parentless and is
    * not the symbol itself. */
  lemma InsertAfterConsistent(g: Graph, p: NodeId, anchor: Option<NodeId>, x: NodeId)
    requires IsSymbolIn(g, p) && Consistent(g)
    requires x in g && g[x].parent.None? && x != p
    ensures Consistent(InsertAfterG(g, p, anchor, x))
  {
    var cs := ChildrenOf(g, p);
    if anchor in cs {
      var i := FirstIndex(cs, anchor).value;
      var cs' := cs[..i + 1] + [Some(x)] + cs[i + 1..];
      var g1 := WithChildren(g, p, cs');
      var g' := g1[x := g1[x].(parent := Some(p))];
      assert g' == InsertAfterG(g, p, anchor, x);
      forall q, c | q in g' && g'[q].body.Symbol? && Some(c) in g'[q].body.children
        ensures c in g' && g'[c].parent == Some(q)
      {
        if q == p {
          if c != x {
            InsertedKid(cs, i, x, c);
            assert g[c].parent == Some(p);
          }
        } else {
          assert g'[q].body == g[q].body;
          assert g[c].parent == Some(q);
        }
      }
    }
  }

  /** A child of the vector after `insert_after` other than the inserted node was a child
    * before. */
  lemma InsertedKid(cs: seq<Option<NodeId>>, i: nat, x: NodeId, c: NodeId)
    requires i < |cs| && Some(c) in cs[..i + 1] + [Some(x)] + cs[i + 1..] && c != x
    ensures Some(c) in cs
  {
    var cs' := cs[..i + 1] + [Some(x)] + cs[i + 1..];
    var j :| 0 <= j < |cs'| && cs'[j] == Some(c);
    if j <= i { assert cs'[j] == cs[j]; } else { assert cs'[j] == cs[j - 1]; }
  }

  /** `replace_first` keeps the arena consistent when the replacement is null, is the
    * replaced node itself, or is a parentless node other than the symbol. */
  lemma ReplaceFirstConsistent(g: Graph, p: NodeId, f: Option<NodeId>, r: Option<NodeId>)
    requires IsSymbolIn(g, p) && Consistent(g)
    requires r.Some? ==> r.value in g && r.value != p && (g[r.value].parent.None? || r == f)
    ensures Consistent(ReplaceFirstG(g, p, f, r))
  {
    ReplaceFirstSpec(g, p, f, r);
    var cs := ChildrenOf(g, p);
    if f in cs {
      var g' := ReplaceFirstG(g, p, f, r);
      var cs' := ChildrenOf(g', p);
      assert f.Some? ==> g[f.value].parent == Some(p);
      forall q, c | q in g' && g'[q].body.Symbol? && Some(c) in g'[q].body.children
        ensures c in g' && g'[c].parent == Some(q)
      {
        if q == p {
          if Some(c) != r {
            var j :| 0 <= j < |cs'| && cs'[j] == Some(c);
            assert cs[j] == Some(c) && Some(c) != f;
          }
        } else {
          assert g'[q].body == g[q].body;
          assert g[c].parent == Some(q);
        }
      }
    }
  }

  /** `erase(i)` keeps the arena consistent when the erased slot is null or holds a node no
    * other slot of the symbol holds (`EraseRepeatedOrphans` shows why that is needed). */
  lemma EraseConsistent(g: Graph, p: NodeId, i: int)
    requires IsSymbolIn(g, p) && Consistent(g)
    requires 0 <= i < |ChildrenOf(g, p)| && ChildrenOf(g, p)[i].Some? ==>
      ChildrenOf(g, p)[i] !in ChildrenOf(g, p)[..i] + ChildrenOf(g, p)[i + 1..]
    ensures Consistent(EraseG(g, p, i))
  {
    var cs := ChildrenOf(g, p);
    if 0 <= i < |cs| {
      var g' := EraseG(g, p, i);
      var rest := cs[..i] + cs[i + 1..];
      assert ChildrenOf(g', p) == rest;
      assert cs[i] in cs;
      forall q, c | q in g' && g'[q].body.Symbol? && Some(c) in g'[q].body.children
        ensures c in g' && g'[c].parent == Some(q)
      {
        if q == p {
          assert Some(c) in cs by {
            var j :| 0 <= j < |rest| && rest[j] == Some(c);
            if j < i { assert rest[j] == cs[j]; } else { assert rest[j] == cs[j + 1]; }
          }
        } else {
          assert g'[q].body == g[q].body;
          assert g[c].parent == Some(q);
        }
      }
    }
  }

  /** Replacing a symbol's child vector by one whose nodes are in the arena keeps it closed. */
  lemma WithChildrenClosed(g: Graph, p: NodeId, cs: seq<Option<NodeId>>)
    requires Closed(g) && IsSymbolIn(g, p) && forall c :: Some(c) in cs ==> c in g
    ensures Closed(WithChildren(g, p, cs))
  {
    assert PointsInto(g[p], g);
    ClosedPut(g, p, g[p].(body := Symbol(cs)));
  }

  /** Setting or clearing one parent pointer (to a node of the arena) keeps it closed. */
  lemma ParentClosed(g: Graph, x: Option<NodeId>, p: NodeId)
    requires Closed(g) && p in g
    ensures Closed(SetParentOpt(g, x, p)) && Closed(ClearParent(g, x))
  {
    if x.Some? && x.value in g {
      assert PointsInto(g[x.value], g);
      ClosedPut(g, x.value, g[x.value].(parent := Some(p)));
      ClosedPut(g, x.value, g[x.value].(parent := None));
    }
  }

  /** `push_front` of a null pointer or a node of the arena keeps it closed. */
  lemma PushFrontClosed(g: Graph, p: NodeId, x: Option<NodeId>)
    requires Closed(g) && IsSymbolIn(g, p) && (x.Some? ==> x.value in g)
    ensures Closed(PushFrontG(g, p, x))
  {
    var cs := [x] + ChildrenOf(g, p);
    assert PointsInto(g[p], g);
    assert forall c :: Some(c) in cs ==> Some(c) == x || Some(c) in ChildrenOf(g, p);
    WithChildrenClosed(g, p, cs);
    ParentClosed(WithChildren(g, p, cs), x, p);
  }

  /** `insert_after` of a node of the arena keeps it closed. */
  lemma InsertAfterClosed(g: Graph, p: NodeId, anchor: Option<NodeId>, x: NodeId)
    requires Closed(g) && IsSymbolIn(g, p) && x in g
    ensures Closed(InsertAfterG(g, p, anchor, x))
  {
    var cs := ChildrenOf(g, p);
    if anchor in cs {
      var i := FirstIndex(cs, anchor).value;
      var cs' := cs[..i + 1] + [Some(x)] + cs[i + 1..];
      assert PointsInto(g[p], g);
      forall c | Some(c) in cs' ensures c in g {
        var j :| 0 <= j < |cs'| && cs'[j] == Some(c);
        if j <= i { assert cs'[j] == cs[j]; } else if j > i + 1 { assert cs'[j] == cs[j - 1]; }
      }
      WithChildrenClosed(g, p, cs');
      ParentClosed(WithChildren(g, p, cs'), Some(x), p);
    }
  }

  /** `remove_first` keeps the arena closed. */
  lemma RemoveFirstClosed(g: Graph, p: NodeId, x: Option<NodeId>)
    requires Closed(g) && IsSymbolIn(g, p)
    ensures Closed(RemoveFirstG(g, p, x))
  {
    var cs := ChildrenOf(g, p);
    if x in cs {
      assert PointsInto(g[p], g);
      forall c | Some(c) in RemoveAll(cs, x) ensures c in g {
        RemoveAllIn(cs, x, Some(c));
      }
      WithChildrenClosed(g, p, RemoveAll(cs, x));
      ParentClosed(WithChildren(g, p, RemoveAll(cs, x)), x, p);
    }
  }

  /** `replace_first` with a null pointer or a node of the arena keeps it closed. */
  lemma ReplaceFirstClosed(g: Graph, p: NodeId, f: Option<NodeId>, r: Option<NodeId>)
    requires Closed(g) && IsSymbolIn(g, p) && (r.Some? ==> r.value in g)
    ensures Closed(ReplaceFirstG(g, p, f, r))
  {
    ReplaceFirstSpec(g, p, f, r);
    var cs := ChildrenOf(g, p);
    if f in cs {
      var cs' := ReplaceAll(cs, f, r);
      var g1 := WithChildren(g, p, cs');
      assert ChildrenOf(ReplaceFirstG(g, p, f, r), p) == cs';
      assert PointsInto(g[p], g);
      forall c | Some(c) in cs' ensures c in g {
        var j :| 0 <= j < |cs'| && cs'[j] == Some(c);
        assert cs[j] in cs;
      }
      WithChildrenClosed(g, p, cs');
      ParentClosed(g1, f, p);
      ParentClosed(ClearParent(g1, f), r, p);
    }
  }

  /** `erase(i)` keeps the arena closed. */
  lemma EraseClosed(g: Graph, p: NodeId, i: int)
    requires Closed(g) && IsSymbolIn(g, p)
    ensures Closed(EraseG(g, p, i))
  {
    var cs := ChildrenOf(g, p);
    if 0 <= i < |cs| {
      var rest := cs[..i] + cs[i + 1..];
      var g1 := ClearParent(g, cs[i]);
      ParentClosed(g, cs[i], p);
      assert PointsInto(g[p], g);
      forall c | Some(c) in rest ensures c in g1 {
        var j :| 0 <= j < |rest| && rest[j] == Some(c);
        if j < i { assert rest[j] == cs[j]; } else { assert rest[j] == cs[j + 1]; }
      }
      WithChildrenClosed(g1, p, rest);
    }
  }

  /** Detaching makes the node a root that no symbol holds any more, and keeps the arena
    * consistent and membership-complete. */
  lemma DetachSpec(g: Graph, n: NodeId)
    requires n in g && Consistent(g) && Membership(g)
    ensures DetachG(g, n)[n].parent.None?
    ensures forall q :: q in DetachG(g, n) && DetachG(g, n)[q].body.Symbol? ==> Some(n) !in DetachG(g, n)[q].body.children
    ensures Consistent(DetachG(g, n)) && Membership(DetachG(g, n))
    ensures Closed(g) ==> Closed(DetachG(g, n))
  {
    if g[n].parent.Some? {
      var q := g[n].parent.value;
      if Closed(g) {
        RemoveFirstClosed(g, q, Some(n));
      }
      RemoveFirstConsistent(g, q, Some(n));
      RemoveFirstMembership(g, q, Some(n));
      RemoveFirstUnheld(g, q, n);
    }
  }

  /** After `remove_first` of a child of `q`, no symbol holds that child any more and it has
    * no parent. */
  lemma RemoveFirstUnheld(g: Graph, q: NodeId, n: NodeId)
    requires IsSymbolIn(g, q) && Consistent(g) && n in g && g[n].parent == Some(q)
    requires Some(n) in ChildrenOf(g, q)
    ensures RemoveFirstG(g, q, Some(n))[n].parent.None?
    ensures forall k :: k in RemoveFirstG(g, q, Some(n)) && RemoveFirstG(g, q, Some(n))[k].body.Symbol? ==>
      Some(n) !in RemoveFirstG(g, q, Some(n))[k].body.children
  {
    RemoveFirstSpec(g, q, Some(n));
    var g' := RemoveFirstG(g, q, Some(n));
    forall k | k in g' && g'[k].body.Symbol? ensures Some(n) !in g'[k].body.children {
      if k != q {
        assert g'[k].body == g[k].body;
      }
    }
  }

  // ---------------------------------------------------------------------
  // Node::index, find_if, compare, find
  // ---------------------------------------------------------------------

  /** `Node::index`: the first position of the node among its parent's children, or -1 when it
    * has no symbol parent or is not among the parent's children. */
  function IndexOf(g: Graph, n: NodeId): (r: int)
    requires n in g
    ensures -1 <= r
    ensures r >= 0 ==> (g[n].parent.Some? && IsSymbolIn(g, g[n].parent.value)
      && var cs := ChildrenOf(g, g[n].parent.value); r < |cs| && cs[r] == Some(n) && Some(n) !in cs[..r])
    ensures r == -1 <==> g[n].parent.None? || !IsSymbolIn(g, g[n].parent.value)
                         || Some(n) !in ChildrenOf(g, g[n].parent.value)
  {
    var q := g[n].parent;
    if q.None? || !IsSymbolIn(g, q.value) then -1
    else match FirstIndex(ChildrenOf(g, q.value), Some(n))
      case None => -1
      case Some(i) => i
  }

  /** In a membership-complete arena every node with a parent has a position in it. */
  lemma IndexInTree(g: Graph, n: NodeId)
    requires n in g && Membership(g) && g[n].parent.Some?
    ensures 0 <= IndexOf(g, n) && ChildrenOf(g, g[n].parent.value)[IndexOf(g, n)] == Some(n)
  {
  }

  /** `std::find_if`: the first position whose element satisfies `pred`. */
  function FirstWhere(cs: seq<Option<NodeId>>, pred: Option<NodeId> -> bool): (r: Option<nat>)
    ensures r.None? <==> forall i :: 0 <= i < |cs| ==> !pred(cs[i])
    ensures r.Some? ==> r.value < |cs| && pred(cs[r.value]) && forall i :: 0 <= i < r.value ==> !pred(cs[i])
  {
    if cs == [] then None
    else if pred(cs[0]) then Some(0)
    else
      var r := FirstWhere(cs[1..], pred);
      if r.None? then
        assert forall i :: 1 <= i < |cs| ==> cs[i] == cs[1..][i - 1];
        None
      else
        assert forall i :: 1 <= i < r.value + 1 ==> cs[i] == cs[1..][i - 1];
        Some(r.value + 1)
  }

  /** Equality of term payloads as `TermNode::compare` tests it: STRING payloads by content,
    * IDENT payloads by pointer, the others by value. */
  predicate SameValue(v: Value, w: Value)
  {
    match (v, w)
    case (StringV(a), StringV(b)) => a.text == b.text
    case (IdentV(a), IdentV(b)) => a.addr == b.addr
    case _ => v == w
  }

  /** What a C++ routine that may follow a null pointer gives: the value it returns, or
    * `NullDeref` where it dereferences a null (or dangling) node pointer, whose behaviour is
    * undefined. */
  datatype Outcome<T> = Done(result: T) | NullDeref

  /** `TermNode::compare` / `SymbolNode::compare` of node `a` with the pointer `b`: `b` is
    * dereferenced first (`is_same_type`); then the same type (kind and lexer id) and, for terms,
    * the same payload; for symbols, the same number of children comparing equal pair by pair,
    * the scan stopping at the first pair that does not. */
  function Compare(g: Graph, ghost rank: map<NodeId, nat>, a: NodeId, b: Option<NodeId>): (r: Outcome<bool>)
    requires Ranked(g, rank) && a in g && a in rank
    ensures r == Done(true) ==>
              b.Some? && b.value in g
              && KindOf(g[a]) == KindOf(g[b.value]) && g[a].lexerId == g[b.value].lexerId
              && (g[a].body.Symbol? ==> |ChildrenOf(g, a)| == |ChildrenOf(g, b.value)|)
    ensures r == NullDeref ==> b.None? || b.value !in g || g[a].body.Symbol?
    decreases rank[a], 1, 0
  {
    if b.None? || b.value !in g then NullDeref
    else if !IsSameType(KindOf(g[a]), g[a].lexerId, KindOf(g[b.value]), g[b.value].lexerId) then Done(false)
    else match g[a].body
      case Term(v) => Done(SameValue(v, g[b.value].body.value))
      case Symbol(cs) =>
        if |cs| != |g[b.value].body.children| then Done(false) else CompareChildren(g, rank, a, b.value, 0)
  }

  /** Round `j` of the child scan: `m_child_vec[j]->compare((*symbol_node)[j])`. */
  function ComparePair(g: Graph, ghost rank: map<NodeId, nat>, a: NodeId, b: NodeId, j: nat): Outcome<bool>
    requires Ranked(g, rank) && a in rank && IsSymbolIn(g, a) && IsSymbolIn(g, b)
    requires |ChildrenOf(g, a)| == |ChildrenOf(g, b)| && j < |ChildrenOf(g, a)|
    decreases rank[a], 0, 0
  {
    match ChildrenOf(g, a)[j]
    case None => NullDeref
    case Some(c) => Compare(g, rank, c, ChildrenOf(g, b)[j])
  }

  /** The child scan of `SymbolNode::compare` from pair `i` on; a successful scan met no null
    * child on either side. */
  function CompareChildren(g: Graph, ghost rank: map<NodeId, nat>, a: NodeId, b: NodeId, i: nat): (r: Outcome<bool>)
    requires Ranked(g, rank) && a in rank && IsSymbolIn(g, a) && IsSymbolIn(g, b)
    requires |ChildrenOf(g, a)| == |ChildrenOf(g, b)| && i <= |ChildrenOf(g, a)|
    ensures r == Done(true) ==> forall j :: i <= j < |ChildrenOf(g, a)| ==>
      ChildrenOf(g, a)[j].Some? && ChildrenOf(g, b)[j].Some?
    decreases rank[a], 0, |ChildrenOf(g, a)| - i + 1
  {
    if i == |ChildrenOf(g, a)| then Done(true)
    else match ComparePair(g, rank, a, b, i)
      case Done(true) => CompareChildren(g, rank, a, b, i + 1)
      case r => r
  }

  /** The first pair at or after `i` that does not compare equal, or the end of the children. */
  function FirstUnequal(g: Graph, ghost rank: map<NodeId, nat>, a: NodeId, b: NodeId, i: nat): (j: nat)
    requires Ranked(g, rank) && a in rank && IsSymbolIn(g, a) && IsSymbolIn(g, b)
    requires |ChildrenOf(g, a)| == |ChildrenOf(g, b)| && i <= |ChildrenOf(g, a)|
    ensures i <= j <= |ChildrenOf(g, a)|
    ensures forall k :: i <= k < j ==> ComparePair(g, rank, a, b, k) == Done(true)
    ensures j < |ChildrenOf(g, a)| ==> ComparePair(g, rank, a, b, j) != Done(true)
    decreases |ChildrenOf(g, a)| - i
  {
    if i == |ChildrenOf(g, a)| || ComparePair(g, rank, a, b, i) != Done(true) then i
    else FirstUnequal(g, rank, a, b, i + 1)
  }

  /** The child scan of `compare` succeeds exactly when every remaining pair compares equal;
    * otherwise its outcome is that of the first pair that does not, `false` or undefined. */
  lemma {:induction false} CompareChildrenAll(g: Graph, rank: map<NodeId, nat>, a: NodeId, b: NodeId, i: nat)
    requires Ranked(g, rank) && a in rank && IsSymbolIn(g, a) && IsSymbolIn(g, b)
    requires |ChildrenOf(g, a)| == |ChildrenOf(g, b)| && i <= |ChildrenOf(g, a)|
    ensures CompareChildren(g, rank, a, b, i) == Done(true) ==>
      forall j :: i <= j < |ChildrenOf(g, a)| ==> ComparePair(g, rank, a, b, j) == Done(true)
    ensures (forall j :: i <= j < |ChildrenOf(g, a)| ==> ComparePair(g, rank, a, b, j) == Done(true)) ==>
      CompareChildren(g, rank, a, b, i) == Done(true)
    ensures CompareChildren(g, rank, a, b, i) ==
      var j := FirstUnequal(g, rank, a, b, i);
      if j == |ChildrenOf(g, a)| then Done(true) else ComparePair(g, rank, a, b, j)
    decreases |ChildrenOf(g, a)| - i
  {
    if i < |ChildrenOf(g, a)| {
      CompareChildrenAll(g, rank, a, b, i + 1);
    }
  }

  /** A subtree without null children along the way, as `compare` on a node with itself needs. */
  ghost predicate NullFree(g: Graph, rank: map<NodeId, nat>, a: NodeId)
    requires Ranked(g, rank) && a in g && a in rank
    decreases rank[a]
  {
    g[a].body.Symbol? ==> forall i :: 0 <= i < |g[a].body.children| ==>
      g[a].body.children[i].Some? && NullFree(g, rank, g[a].body.children[i].value)
  }

  /** Every null-free node compares equal to itself. */
  lemma {:induction false} CompareReflexive(g: Graph, rank: map<NodeId, nat>, a: NodeId)
    requires Ranked(g, rank) && a in g && a in rank && NullFree(g, rank, a)
    ensures Compare(g, rank, a, Some(a)) == Done(true)
    decreases rank[a]
  {
    if g[a].body.Symbol? {
      forall j | 0 <= j < |ChildrenOf(g, a)| ensures ComparePair(g, rank, a, a, j) == Done(true) {
        CompareReflexive(g, rank, ChildrenOf(g, a)[j].value);
      }
      CompareChildrenAll(g, rank, a, a, 0);
    }
  }

  /** Comparing a node with itself reaches every pair of children, so on a subtree holding a
    * null child it is undefined. */
  lemma {:induction false} SelfCompareUndefined(g: Graph, rank: map<NodeId, nat>, a: NodeId)
    requires Ranked(g, rank) && a in g && a in rank && !NullFree(g, rank, a)
    ensures Compare(g, rank, a, Some(a)) == NullDeref
    decreases rank[a], 1
  {
    SelfKidsUndefined(g, rank, a, 0);
  }

  /** The self-compare scan from `i` passes the null-free children and is undefined at the
    * first child that is null or holds a null child. */
  lemma {:induction false} SelfKidsUndefined(g: Graph, rank: map<NodeId, nat>, a: NodeId, i: nat)
    requires Ranked(g, rank) && a in rank && IsSymbolIn(g, a) && i <= |ChildrenOf(g, a)|
    requires exists j :: i <= j < |ChildrenOf(g, a)| && !(ChildrenOf(g, a)[j].Some? && NullFree(g, rank, ChildrenOf(g, a)[j].value))
    ensures CompareChildren(g, rank, a, a, i) == NullDeref
    decreases rank[a], 0, |ChildrenOf(g, a)| - i
  {
    var cs := ChildrenOf(g, a);
    var j :| i <= j < |cs| && !(cs[j].Some? && NullFree(g, rank, cs[j].value));
    if cs[i].Some? && NullFree(g, rank, cs[i].value) {
      assert j != i;
      CompareReflexive(g, rank, cs[i].value);
      SelfKidsUndefined(g, rank, a, i + 1);
    } else if cs[i].Some? {
      SelfCompareUndefined(g, rank, cs[i].value);
    }
  }

  /** `compare` gives the same outcome with its arguments swapped, undefined behaviour included. */
  lemma {:induction false} CompareSymmetric(g: Graph, rank: map<NodeId, nat>, a: NodeId, b: NodeId)
    requires Ranked(g, rank) && a in g && a in rank && b in g && b in rank
    ensures Compare(g, rank, a, Some(b)) == Compare(g, rank, b, Some(a))
    decreases rank[a], 1
  {
    if IsSameType(KindOf(g[a]), g[a].lexerId, KindOf(g[b]), g[b].lexerId) && g[a].body.Symbol?
       && |ChildrenOf(g, a)| == |ChildrenOf(g, b)| {
      CompareSymmetricKids(g, rank, a, b, 0);
    }
  }

  lemma {:induction false} CompareSymmetricKids(g: Graph, rank: map<NodeId, nat>, a: NodeId, b: NodeId, i: nat)
    requires Ranked(g, rank) && a in rank && b in rank && IsSymbolIn(g, a) && IsSymbolIn(g, b)
    requires |ChildrenOf(g, a)| == |ChildrenOf(g, b)| && i <= |ChildrenOf(g, a)|
    ensures CompareChildren(g, rank, a, b, i) == CompareChildren(g, rank, b, a, i)
    decreases rank[a], 0, |ChildrenOf(g, a)| - i
  {
    if i < |ChildrenOf(g, a)| {
      var ca, cb := ChildrenOf(g, a)[i], ChildrenOf(g, b)[i];
      if ca.Some? && cb.Some? {
        CompareSymmetric(g, rank, ca.value, cb.value);
      }
      assert ComparePair(g, rank, a, b, i) == ComparePair(g, rank, b, a, i);
      CompareSymmetricKids(g, rank, a, b, i + 1);
    }
  }

  /** Round `j` of `find`'s scan: `(*p)->compare(_node)` on child `j`. */
  function FindStep(g: Graph, ghost rank: map<NodeId, nat>, p: NodeId, x: Option<NodeId>, j: nat): Outcome<bool>
    requires Ranked(g, rank) && IsSymbolIn(g, p) && p in rank && j < |ChildrenOf(g, p)|
  {
    match ChildrenOf(g, p)[j]
    case None => NullDeref
    case Some(c) => Compare(g, rank, c, x)
  }

  /** `SymbolNode::find`: the first child that compares equal to `x`, or null when none does;
    * undefined when the scan reaches a null child, or any child while `x` is null. */
  function Find(g: Graph, ghost rank: map<NodeId, nat>, p: NodeId, x: Option<NodeId>): (r: Outcome<Option<NodeId>>)
    requires Ranked(g, rank) && IsSymbolIn(g, p) && p in rank
    ensures r == Done(None) <==> forall j :: 0 <= j < |ChildrenOf(g, p)| ==> FindStep(g, rank, p, x, j) == Done(false)
    ensures r.Done? && r.result.Some? ==>
      exists k :: 0 <= k < |ChildrenOf(g, p)| && ChildrenOf(g, p)[k] == r.result
        && FindStep(g, rank, p, x, k) == Done(true)
        && forall j :: 0 <= j < k ==> FindStep(g, rank, p, x, j) == Done(false)
    ensures r == NullDeref <==>
      exists k :: 0 <= k < |ChildrenOf(g, p)| && FindStep(g, rank, p, x, k) == NullDeref
        && forall j :: 0 <= j < k ==> FindStep(g, rank, p, x, j) == Done(false)
  {
    FindFrom(g, rank, p, x, 0)
  }

  function FindFrom(g: Graph, ghost rank: map<NodeId, nat>, p: NodeId, x: Option<NodeId>, i: nat): (r: Outcome<Option<NodeId>>)
    requires Ranked(g, rank) && IsSymbolIn(g, p) && p in rank && i <= |ChildrenOf(g, p)|
    ensures r == Done(None) <==> forall j :: i <= j < |ChildrenOf(g, p)| ==> FindStep(g, rank, p, x, j) == Done(false)
    ensures r.Done? && r.result.Some? ==>
      exists k :: i <= k < |ChildrenOf(g, p)| && ChildrenOf(g, p)[k] == r.result
        && FindStep(g, rank, p, x, k) == Done(true)
        && forall j :: i <= j < k ==> FindStep(g, rank, p, x, j) == Done(false)
    ensures r == NullDeref <==>
      exists k :: i <= k < |ChildrenOf(g, p)| && FindStep(g, rank, p, x, k) == NullDeref
        && forall j :: i <= j < k ==> FindStep(g, rank, p, x, j) == Done(false)
    decreases |ChildrenOf(g, p)| - i
  {
    if i == |ChildrenOf(g, p)| then Done(None)
    else match FindStep(g, rank, p, x, i)
      case NullDeref => NullDeref
      case Done(true) => Done(ChildrenOf(g, p)[i])
      case Done(false) => FindFrom(g, rank, p, x, i + 1)
  }

  // ---------------------------------------------------------------------
  // clone
  // ---------------------------------------------------------------------

  /** `c` (in `g1`) is a clone of `n` (in `g0`): same lexer id and payload (a STRING clone shares
    * the string pointer), a stored original for STRING and SYMBOL clones and none for the other
    * terms, and for a symbol one slot per child, null where the child is null and otherwise the
    * clone of the child, parented to `c`. All clone nodes lie in `[c, hi)`, descendants above `c`. */
  ghost predicate CloneTree(g0: Graph, g1: Graph, rank: map<NodeId, nat>, c: NodeId, n: NodeId, hi: nat)
    requires Ranked(g0, rank) && n in g0 && n in rank
    decreases rank[n], 0
  {
    c in g1 && c < hi && g1[c].lexerId == g0[n].lexerId
    && match g0[n].body
       case Term(v) =>
         g1[c].body == Term(v) && g1[c].original == (if v.StringV? then Some(n) else None)
       case Symbol(cs) =>
         g1[c].body.Symbol? && g1[c].original == Some(n) && |g1[c].body.children| == |cs|
         && forall i :: 0 <= i < |cs| ==>
              (cs[i].None? <==> g1[c].body.children[i].None?)
              && (cs[i].Some? ==> ClonedChild(g0, g1, rank, c, cs[i].value, g1[c].body.children[i].value, hi))
  }

  ghost predicate ClonedChild(g0: Graph, g1: Graph, rank: map<NodeId, nat>, c: NodeId, nc: NodeId, cc: NodeId, hi: nat)
    requires Ranked(g0, rank) && nc in g0 && nc in rank
    decreases rank[nc], 1
  {
    c < cc && cc in g1 && g1[cc].parent == Some(c) && CloneTree(g0, g1, rank, cc, nc, hi)
  }

  /** A clone tree depends only on the nodes in `[c, hi)`, and on the root only apart from its
    * parent pointer; a larger bound keeps it. */
  lemma {:induction false} CloneTreeFrame(g0: Graph, g1: Graph, g2: Graph, rank: map<NodeId, nat>, c: NodeId, n: NodeId, hi: nat, hi': nat)
    requires Ranked(g0, rank) && n in g0 && n in rank && CloneTree(g0, g1, rank, c, n, hi) && hi <= hi'
    requires forall k :: c < k < hi && k in g1 ==> k in g2 && g2[k] == g1[k]
    requires c in g2 && g2[c].(parent := g1[c].parent) == g1[c]
    ensures CloneTree(g0, g2, rank, c, n, hi')
    decreases rank[n]
  {
    match g0[n].body
    case Term(v) =>
    case Symbol(cs) =>
      forall i | 0 <= i < |cs| && cs[i].Some?
        ensures ClonedChild(g0, g2, rank, c, cs[i].value, g2[c].body.children[i].value, hi')
      {
        var cc := g1[c].body.children[i].value;
        assert ClonedChild(g0, g1, rank, c, cs[i].value, cc, hi);
        CloneTreeFrame(g0, g1, g2, rank, cc, cs[i].value, hi, hi');
      }
  }

  /** A clone compares equal to its source. */
  lemma {:induction false} CloneCompares(g0: Graph, g1: Graph, rank: map<NodeId, nat>, c: NodeId, n: NodeId, hi: nat)
    requires Ranked(g0, rank) && n in g0 && n in rank && CloneTree(g0, g1, rank, c, n, hi)
    requires Ranked(g1, rank) && forall k :: k in g0 ==> k in g1 && g1[k] == g0[k]
    requires NullFree(g0, rank, n)
    ensures Compare(g1, rank, n, Some(c)) == Done(true)
    decreases rank[n]
  {
    match g0[n].body
    case Term(v) =>
    case Symbol(cs) =>
      var cs' := g1[c].body.children;
      forall j | 0 <= j < |cs| ensures ComparePair(g1, rank, n, c, j) == Done(true) {
        assert ClonedChild(g0, g1, rank, c, cs[j].value, cs'[j].value, hi);
        CloneCompares(g0, g1, rank, cs'[j].value, cs[j].value, hi);
      }
      CompareChildrenAll(g1, rank, n, c, 0);
  }

  /** A clone's `original()` is its source for STRING and SYMBOL nodes and itself otherwise. */
  lemma CloneOriginal(g0: Graph, g1: Graph, rank: map<NodeId, nat>, c: NodeId, n: NodeId, hi: nat)
    requires Ranked(g0, rank) && n in g0 && n in rank && CloneTree(g0, g1, rank, c, n, hi)
    ensures Original(g1, c) == if KindOf(g0[n]) in {STRING, SYMBOL} then n else c
  {
  }

  // ---------------------------------------------------------------------
  // The arena as a mutable object
  // ---------------------------------------------------------------------

  /** The allocator's record for a node: node classes with a non-trivial destructor (symbols
    * and STRING terms) are always allocated with a destructor callback, INT, FLOAT and CHAR
    * terms never; IDENT terms get one when built by the model's `make_term` and none when
    * cloned. */
  predicate NodeChunk(o: Object, ch: Chunk)
  {
    (KindOf(o) in {STRING, SYMBOL} ==> ch.hasDtor) && (KindOf(o) in {INT, FLOAT, CHAR} ==> !ch.hasDtor)
  }

  class NodeStore {
    /** The allocator every node is placed in (`tc->alloc()`). */
    const alloc: Allocator
    /** `sizeof` of the node class of each kind on the platform. */
    const nodeSize: Kind -> nat
    var objs: Graph
    /** The annotations `set_height`, `set_depth` and `set_bfs_index` write. */
    var height: map<NodeId, int>
    var depth: map<NodeId, int>
    var bfsIndex: map<NodeId, int>

    /** Every node is live allocator memory, and every pointer it holds points to a node. */
    ghost predicate Valid()
      reads this, alloc
    {
      alloc.Valid() && Closed(objs) && forall k :: k in objs ==> k in alloc.chunks
    }

    constructor(alloc: Allocator, nodeSize: Kind -> nat)
      requires alloc.Valid()
      ensures this.alloc == alloc && this.nodeSize == nodeSize
      ensures objs == map[] && height == map[] && depth == map[] && bfsIndex == map[]
      ensures Valid()
    {
      this.alloc := alloc;
      this.nodeSize := nodeSize;
      objs := map[];
      height := map[];
      depth := map[];
      bfsIndex := map[];
    }

    /** `SymbolNode::SymbolNode(lexer_id, size, ap)` and `SymbolNode::SymbolNode(lexer_id, vec)`
      * on the freshly allocated address `self`. */
    method InitSymbol(self: NodeId, lexerId: nat, args: seq<Arg>)
      requires Valid() && self !in objs && self in alloc.chunks && ArgsIn(objs, args)
      modifies this`objs
      ensures objs == NewSymbolG(old(objs), self, lexerId, args)
      ensures Valid()
    {
      ghost var g0 := objs;
      NewSymbolClosed(g0, self, lexerId, args);
      var children: seq<Option<NodeId>> := [];
      var i := 0;
      while i < |args|
        invariant 0 <= i <= |args|
        invariant children == FlattenArgs(g0, lexerId, args[..i])
        invariant objs == SetParents(g0, children, self)
      {
        FlattenPrefix(g0, lexerId, args, i);
        children := AddArg(self, lexerId, args[i], children, g0);
        i := i + 1;
      }
      assert args[..i] == args;
      objs := objs[self := Object(lexerId, None, None, Symbol(children))];
    }

    /** One argument of the flattening constructors: `eol()` is skipped, a same-type symbol's
      * children are appended and reparented, any other pointer is appended (and reparented
      * unless null). */
    method AddArg(self: NodeId, lexerId: nat, a: Arg, children: seq<Option<NodeId>>, ghost g0: Graph)
      returns (children': seq<Option<NodeId>>)
      requires objs == SetParents(g0, children, self) && Closed(g0)
      requires a.Ptr? && a.p.Some? ==> a.p.value in g0
      modifies this`objs
      ensures children' == children + Piece(g0, lexerId, a)
      ensures objs == SetParents(g0, children', self)
    {
      SetParentsSpec(g0, children, self);
      match a {
        case Eol =>
          children' := children;
        case Ptr(None) =>
          SetParentsSnoc(g0, children, None, self);
          children' := children + [None];
        case Ptr(Some(c)) =>
          var o := objs[c];
          assert o.body == g0[c].body && o.lexerId == g0[c].lexerId;
          KindSymbol(o);
          if IsSameType(SYMBOL, lexerId, KindOf(o), o.lexerId) {
            var spliced := o.body.children;
            assert PointsInto(g0[c], g0);
            SpliceParents(spliced, self, g0, children);
            children' := children + spliced;
          } else {
            SetParentsSnoc(g0, children, Some(c), self);
            children' := children + [Some(c)];
            objs := objs[c := o.(parent := Some(self))];
          }
      }
    }

    /** The loop of the flattening constructors that reparents the children spliced in from a
      * same-type symbol. */
    method SpliceParents(spliced: seq<Option<NodeId>>, self: NodeId, ghost g0: Graph, ghost before: seq<Option<NodeId>>)
      requires objs == SetParents(g0, before, self)
      requires forall x :: Some(x) in spliced ==> x in g0
      modifies this`objs
      ensures objs == SetParents(g0, before + spliced, self)
    {
      var j := 0;
      assert before + spliced[..0] == before;
      while j < |spliced|
        invariant 0 <= j <= |spliced|
        invariant objs == SetParents(g0, before + spliced[..j], self)
      {
        SetParentsSlice(g0, before, spliced, j, self);
        if spliced[j].Some? {
          var x := spliced[j].value;
          assert x in g0 by { assert spliced[j] in spliced; }
          objs := objs[x := objs[x].(parent := Some(self))];
        }
        j := j + 1;
      }
      assert spliced[..j] == spliced;
    }

    /** `TermNode::TermNode(lexer_id, value)` on the freshly allocated address `self`. */
    method InitTerm(self: NodeId, lexerId: nat, v: Value)
      requires Valid() && self !in objs && self in alloc.chunks
      modifies this`objs
      ensures objs == NewTermG(old(objs), self, lexerId, v)
      ensures Valid()
    {
      ClosedPut(objs, self, Object(lexerId, None, None, Term(v)));
      objs := objs[self := Object(lexerId, None, None, Term(v))];
    }

    /** `push_back` */
    method PushBack(p: NodeId, x: Option<NodeId>)
      requires Valid() && IsSymbolIn(objs, p) && (x.Some? ==> x.value in objs)
      modifies this`objs
      ensures objs == PushBackG(old(objs), p, x)
      ensures Valid()
    {
      AppendClosed(objs, p, x);
      objs := objs[p := objs[p].(body := Symbol(objs[p].body.children + [x]))];
      if x.Some? && x.value in objs {
        objs := objs[x.value := objs[x.value].(parent := Some(p))];
      }
    }

    /** `push_front` */
    method PushFront(p: NodeId, x: Option<NodeId>)
      requires Valid() && IsSymbolIn(objs, p) && (x.Some? ==> x.value in objs)
      modifies this`objs
      ensures objs == PushFrontG(old(objs), p, x)
      ensures Valid()
    {
      PushFrontClosed(objs, p, x);
      objs := objs[p := objs[p].(body := Symbol([x] + objs[p].body.children))];
      if x.Some? && x.value in objs {
        objs := objs[x.value := objs[x.value].(parent := Some(p))];
      }
    }

    /** `insert_after`; the new node must be non-null. */
    method InsertAfter(p: NodeId, anchor: Option<NodeId>, x: NodeId)
      requires Valid() && IsSymbolIn(objs, p) && x in objs
      modifies this`objs
      ensures objs == InsertAfterG(old(objs), p, anchor, x)
      ensures Valid()
    {
      InsertAfterClosed(objs, p, anchor, x);
      var cs := objs[p].body.children;
      var i := FirstIndex(cs, anchor);
      if i.None? {
        return;
      }
      var k := i.value + 1;
      objs := objs[p := objs[p].(body := Symbol(cs[..k] + [Some(x)] + cs[k..]))];
      if x in objs {
        objs := objs[x := objs[x].(parent := Some(p))];
      }
    }

    /** `remove_first` */
    method RemoveFirst(p: NodeId, x: Option<NodeId>)
      requires Valid() && IsSymbolIn(objs, p)
      modifies this`objs
      ensures objs == RemoveFirstG(old(objs), p, x)
      ensures Valid()
    {
      RemoveFirstClosed(objs, p, x);
      var cs := objs[p].body.children;
      var i := FirstIndex(cs, x);
      if i.None? {
        return;
      }
      RemoveAllPrefix(cs, x, i.value);
      objs := objs[p := objs[p].(body := Symbol(cs[..i.value] + RemoveAll(cs[i.value..], x)))];
      if x.Some? && x.value in objs {
        objs := objs[x.value := objs[x.value].(parent := None)];
      }
    }

    /** `replace_first` */
    method ReplaceFirst(p: NodeId, f: Option<NodeId>, r: Option<NodeId>)
      requires Valid() && IsSymbolIn(objs, p) && (r.Some? ==> r.value in objs)
      modifies this`objs
      ensures objs == ReplaceFirstG(old(objs), p, f, r)
      ensures Valid()
    {
      ReplaceFirstClosed(objs, p, f, r);
      var cs := objs[p].body.children;
      var i := FirstIndex(cs, f);
      if i.None? {
        return;
      }
      ReplaceAllPrefix(cs, f, r, i.value);
      objs := WithChildren(objs, p, cs[..i.value] + ReplaceAll(cs[i.value..], f, r));
      objs := ClearParent(objs, f);
      objs := SetParentOpt(objs, r, p);
    }

    /** `erase(index)` */
    method Erase(p: NodeId, index: int)
      requires Valid() && IsSymbolIn(objs, p)
      modifies this`objs
      ensures objs == EraseG(old(objs), p, index)
      ensures Valid()
    {
      EraseClosed(objs, p, index);
      var cs := objs[p].body.children;
      if index < 0 || index >= |cs| {
        return;
      }
      var c := cs[index];
      if c.Some? && c.value in objs {
        objs := objs[c.value := objs[c.value].(parent := None)];
      }
      objs := objs[p := objs[p].(body := Symbol(cs[..index] + cs[index + 1..]))];
    }

    /** `Node::detach` */
    method Detach(n: NodeId)
      requires Valid() && n in objs
      modifies this`objs
      ensures objs == DetachG(old(objs), n)
      ensures Valid()
    {
      var q := objs[n].parent;
      if q.None? || !IsSymbolIn(objs, q.value) {
        return;
      }
      RemoveFirst(q.value, Some(n));
    }

    /** `Node::index`: scans the parent's children for the first slot holding the node. */
    method Index(n: NodeId) returns (r: int)
      requires n in objs
      ensures r == IndexOf(objs, n)
    {
      var q := objs[n].parent;
      if q.None? || !IsSymbolIn(objs, q.value) {
        return -1;
      }
      var cs := objs[q.value].body.children;
      var i := 0;
      while i < |cs|
        invariant 0 <= i <= |cs| && Some(n) !in cs[..i]
      {
        if cs[i] == Some(n) {
          return i;
        }
        assert cs[..i + 1] == cs[..i] + [cs[i]];
        i := i + 1;
      }
      assert cs[..i] == cs;
      return -1;
    }

    /** `find_if`: null for a null predicate, otherwise the first child satisfying it (which may
      * itself be a null slot), or null when there is none. */
    method FindIf(p: NodeId, pred: Option<Option<NodeId> -> bool>) returns (r: Option<NodeId>)
      requires IsSymbolIn(objs, p)
      ensures pred.None? ==> r.None?
      ensures pred.Some? ==> r == match FirstWhere(ChildrenOf(objs, p), pred.value)
                                  case None => None
                                  case Some(i) => ChildrenOf(objs, p)[i]
    {
      if pred.None? {
        return None;
      }
      var cs := objs[p].body.children;
      var i := 0;
      while i < |cs|
        invariant 0 <= i <= |cs| && forall j :: 0 <= j < i ==> !pred.value(cs[j])
      {
        if pred.value(cs[i]) {
          return cs[i];
        }
        i := i + 1;
      }
      return None;
    }

    /** `clone(tc)`, dispatched on the node class: a fresh copy of `n`'s subtree placed in the
      * allocator. `g0` is the arena the source subtree lives in; cloning leaves it unchanged. */
    method Clone(n: NodeId, ghost g0: Graph, ghost rank: map<NodeId, nat>) returns (c: NodeId)
      requires Valid() && Ranked(g0, rank) && n in g0 && n in rank && Within(g0, objs)
      modifies this`objs, alloc
      ensures Valid() && old(alloc.next) <= c < alloc.next
      ensures Grown(old(objs), objs, alloc.chunks, old(alloc.next), alloc.next)
      ensures ChunksKept(old(alloc.chunks), alloc.chunks) && alloc.dtorLog == old(alloc.dtorLog)
      ensures CloneTree(g0, objs, rank, c, n, alloc.next) && objs[c].parent.None?
      decreases rank[n], 2, 0
    {
      if objs[n].body.Term? {
        c := CloneTerm(n, g0, rank);
      } else {
        c := CloneSymbol(n, g0, rank);
      }
    }

    /** `TermNode<T>::clone` (a new term with the same lexer id and payload, allocated without
      * destructor callback and without stored original) and its STRING specialization (with
      * destructor callback, sharing the string pointer, storing the source as original). */
    method CloneTerm(n: NodeId, ghost g0: Graph, ghost rank: map<NodeId, nat>) returns (c: NodeId)
      requires Valid() && Ranked(g0, rank) && n in g0 && n in rank && Within(g0, objs) && objs[n].body.Term?
      modifies this`objs, alloc
      ensures Valid() && old(alloc.next) <= c < alloc.next
      ensures Grown(old(objs), objs, alloc.chunks, old(alloc.next), alloc.next)
      ensures ChunksKept(old(alloc.chunks), alloc.chunks) && alloc.dtorLog == old(alloc.dtorLog)
      ensures CloneTree(g0, objs, rank, c, n, alloc.next) && objs[c].parent.None?
    {
      var o := objs[n];
      var v := o.body.value;
      var isString := v.StringV?;
      ghost var g := objs;
      c := alloc.Malloc(nodeSize(ValueKind(v)), isString);
      objs := objs[c := Object(o.lexerId, None, if isString then Some(n) else None, Term(v))];
      AddFreshNode(g, objs, alloc.chunks, c, n);
    }

    /** `SymbolNode::clone`: a new symbol with the same lexer id, allocated with destructor
      * callback and storing the source as original, then each child cloned in order (null
      * children stay null), appended and parented to the new symbol. */
    method CloneSymbol(n: NodeId, ghost g0: Graph, ghost rank: map<NodeId, nat>) returns (c: NodeId)
      requires Valid() && Ranked(g0, rank) && n in g0 && n in rank && Within(g0, objs)
      requires objs[n].body.Symbol?
      modifies this`objs, alloc
      ensures Valid() && old(alloc.next) <= c < alloc.next
      ensures Grown(old(objs), objs, alloc.chunks, old(alloc.next), alloc.next)
      ensures ChunksKept(old(alloc.chunks), alloc.chunks) && alloc.dtorLog == old(alloc.dtorLog)
      ensures CloneTree(g0, objs, rank, c, n, alloc.next) && objs[c].parent.None?
      decreases rank[n], 1, 0
    {
      var o := objs[n];
      var cs := o.body.children;
      ghost var g := objs;
      ghost var lo := alloc.next;
      ghost var ch := alloc.chunks;
      ghost var log := alloc.dtorLog;
      c := alloc.Malloc(nodeSize(SYMBOL), true);
      objs := objs[c := Object(o.lexerId, None, Some(n), Symbol([]))];
      SymbolCloneStart(g, g0, objs, ch, alloc.chunks, rank, o, n, c, cs, lo, alloc.next);
      var i := 0;
      while i < |cs|
        invariant 0 <= i <= |cs| && Valid()
        invariant ChunksKept(ch, alloc.chunks) && alloc.dtorLog == log
        invariant SymbolCloneInv(g, g0, objs, alloc.chunks, rank, o, n, c, cs, i, lo, alloc.next)
      {
        CloneChildInto(c, i, n, o, cs, g, g0, rank, lo, ch, log);
        i := i + 1;
      }
      ClonedAll(g, g0, objs, alloc.chunks, rank, o, n, c, cs, lo, alloc.next);
    }

    /** One round of `SymbolNode::clone`'s loop: clone child `i` (null stays null), append the
      * clone and parent it to `c`. */
    method CloneChildInto(c: NodeId, i: nat, ghost n: NodeId, ghost o: Object, cs: seq<Option<NodeId>>, ghost g: Graph,
                          ghost g0: Graph, ghost rank: map<NodeId, nat>, ghost lo: nat, ghost ch: map<nat, Chunk>, ghost log: seq<nat>)
      requires Valid() && i < |cs| && n in rank
      requires SymbolCloneInv(g, g0, objs, alloc.chunks, rank, o, n, c, cs, i, lo, alloc.next)
      requires n in g0 && g0[n] == o && o.body == Symbol(cs)
      requires ChunksKept(ch, alloc.chunks) && alloc.dtorLog == log
      modifies this`objs, alloc
      ensures Valid() && ChunksKept(ch, alloc.chunks) && alloc.dtorLog == log
      ensures SymbolCloneInv(g, g0, objs, alloc.chunks, rank, o, n, c, cs, i + 1, lo, alloc.next)
      decreases rank[n], 0, 0
    {
      ghost var objs0 := objs;
      ghost var next0 := alloc.next;
      ghost var chunks0 := alloc.chunks;
      var childClone: Option<NodeId> := None;
      if cs[i].Some? {
        assert rank[cs[i].value] < rank[n] by { assert cs[i] in cs; }
        var cc := Clone(cs[i].value, g0, rank);
        childClone := Some(cc);
        assert ChunksKept(ch, alloc.chunks);
      }
      ghost var objs1 := objs;
      AppendChild(c, childClone);
      CloneRound(g, g0, objs0, objs1, objs, chunks0, alloc.chunks, rank, o, n, c, cs, i, lo, next0, alloc.next, childClone);
    }

    /** The body of `SymbolNode::clone`'s loop after the child is cloned: `push_back` then
      * `set_parent`. */
    method AppendChild(c: NodeId, x: Option<NodeId>)
      requires Valid() && IsSymbolIn(objs, c) && (x.Some? ==> x.value in objs)
      modifies this`objs
      ensures objs == SetParentOpt(PushBackG(old(objs), c, x), x, c)
      ensures Valid()
    {
      PushBack(c, x);
      assert SetParentOpt(objs, x, c) == objs;
      if x.Some? && x.value in objs {
        objs := objs[x.value := objs[x.value].(parent := Some(c))];
      }
    }
  }

  /** Placing a new term at a freshly allocated address keeps the arena closed and grown. */
  lemma AddFreshNode(g: Graph, g': Graph, ch: map<nat, Chunk>, c: NodeId, n: NodeId)
    requires Closed(g) && c !in g && n in g && c in ch && c in g' && g' == g[c := g'[c]] && g'[c].body.Term?
    requires g'[c].parent.None? && (g'[c].original.Some? ==> g'[c].original.value == n)
    requires NodeChunk(g'[c], ch[c])
    ensures Closed(g') && Grown(g, g', ch, c, c + 1) && Within(g, g')
  {
    ClosedPut(g, c, g'[c]);
  }

  /** The invariant of `SymbolNode::clone`'s loop holds once the empty clone is allocated. */
  lemma SymbolCloneStart(g: Graph, g0: Graph, objs: Graph, ch0: map<nat, Chunk>, ch1: map<nat, Chunk>, rank: map<NodeId, nat>,
                         o: Object, n: NodeId, c: NodeId, cs: seq<Option<NodeId>>, lo: nat, hi: nat)
    requires Ranked(g0, rank) && n in g0 && n in rank && Within(g0, g) && g0[n] == o && o.body == Symbol(cs)
    requires forall k :: k in g ==> k in ch0 && k < lo
    requires c == lo && hi == lo + 1 && c in ch1 && ch1[c].hasDtor && ch1 == ch0[c := ch1[c]]
    requires objs == g[c := Object(o.lexerId, None, Some(n), Symbol([]))]
    ensures SymbolCloneInv(g, g0, objs, ch1, rank, o, n, c, cs, 0, lo, hi)
    ensures forall j :: 0 <= j < |cs| && cs[j].Some? ==> rank[cs[j].value] < rank[n]
  {
    forall j | 0 <= j < |cs| && cs[j].Some? ensures cs[j].value in g0 && cs[j].value in rank && rank[cs[j].value] < rank[n] {
      assert cs[j] in cs;
    }
  }

  /** When the loop has mirrored every child, the clone tree is complete. */
  lemma ClonedAll(g: Graph, g0: Graph, objs: Graph, chunks: map<nat, Chunk>, rank: map<NodeId, nat>,
                  o: Object, n: NodeId, c: NodeId, cs: seq<Option<NodeId>>, lo: nat, hi: nat)
    requires SymbolCloneInv(g, g0, objs, chunks, rank, o, n, c, cs, |cs|, lo, hi)
    requires n in g0 && n in rank && g0[n] == o && o.body == Symbol(cs)
    ensures CloneTree(g0, objs, rank, c, n, hi) && objs[c].parent.None?
  {
  }

  /** The invariant of `SymbolNode::clone`'s loop after `i` children: the source arena and the
    * arena before cloning are kept, the clone `c` is a parentless symbol with the source's
    * lexer id and original, and its slots mirror the first `i` children. */
  ghost predicate SymbolCloneInv(g: Graph, g0: Graph, objs: Graph, chunks: map<nat, Chunk>, rank: map<NodeId, nat>,
                                 o: Object, n: NodeId, c: NodeId, cs: seq<Option<NodeId>>, i: nat, lo: nat, hi: nat)
  {
    Ranked(g0, rank) && i <= |cs| && (forall j :: 0 <= j < |cs| && cs[j].Some? ==> cs[j].value in g0 && cs[j].value in rank)
    && Within(g0, g) && Within(g0, objs) && (forall k :: k in g ==> k < lo)
    && lo <= c < hi && Grown(g, objs, chunks, lo, hi)
    && c in objs && objs[c].body.Symbol? && objs[c] == Object(o.lexerId, None, Some(n), Symbol(objs[c].body.children))
    && ClonedPrefix(g0, objs, rank, c, cs, i, hi)
  }

  /** One round of `SymbolNode::clone`'s loop keeps its invariant and the arena closed. */
  lemma CloneRound(g: Graph, g0: Graph, objs0: Graph, objs1: Graph, objs2: Graph, ch0: map<nat, Chunk>, ch1: map<nat, Chunk>,
                   rank: map<NodeId, nat>, o: Object, n: NodeId, c: NodeId, cs: seq<Option<NodeId>>, i: nat,
                   lo: nat, next0: nat, next1: nat, childClone: Option<NodeId>)
    requires SymbolCloneInv(g, g0, objs0, ch0, rank, o, n, c, cs, i, lo, next0) && i < |cs|
    requires childClone.None? <==> cs[i].None?
    requires childClone.None? ==> objs1 == objs0 && ch1 == ch0 && next1 == next0
    requires childClone.Some? ==> (Within(g0, objs1) && Grown(objs0, objs1, ch1, next0, next1) && ChunksKept(ch0, ch1)
             && next0 <= childClone.value < next1 && CloneTree(g0, objs1, rank, childClone.value, cs[i].value, next1))
    requires Closed(objs1) && forall k :: k in objs1 ==> k in ch1
    requires objs2 == SetParentOpt(PushBackG(objs1, c, childClone), childClone, c)
    ensures SymbolCloneInv(g, g0, objs2, ch1, rank, o, n, c, cs, i + 1, lo, next1)
    ensures Closed(objs2) && forall k :: k in objs2 ==> k in ch1
  {
    CloneLoopStep(g0, objs0, objs1, objs2, rank, c, cs, i, next0, next1, childClone);
    CloneLoopFrame(g, objs0, objs1, objs2, ch0, ch1, c, childClone, lo, next0, next1);
    PushBackSpec(objs1, c, childClone);
    forall k | k in g0 ensures k in objs2 && objs2[k] == g0[k] {
      assert k in g && k < lo;
      assert k in objs0 && k in objs1;
    }
  }

  /** Every node of `g` is in `g'` unchanged. */
  ghost predicate Within(g: Graph, g': Graph)
  {
    forall k :: k in g ==> k in g' && g'[k] == g[k]
  }

  /** `g'` keeps `g` and adds only nodes in `[lo, hi)`, each allocated as its class requires. */
  ghost predicate Grown(g: Graph, g': Graph, chunks: map<nat, Chunk>, lo: nat, hi: nat)
  {
    Within(g, g')
    && forall k :: k in g' && k !in g ==> lo <= k < hi && k in chunks && NodeChunk(g'[k], chunks[k])
  }

  ghost predicate ChunksKept(ch: map<nat, Chunk>, ch': map<nat, Chunk>)
  {
    forall a :: a in ch ==> a in ch' && ch'[a] == ch[a]
  }

  /** The first `i` slots of the clone `c` mirror the first `i` children `cs` of its source. */
  ghost predicate ClonedPrefix(g0: Graph, g1: Graph, rank: map<NodeId, nat>, c: NodeId, cs: seq<Option<NodeId>>, i: nat, hi: nat)
    requires Ranked(g0, rank) && i <= |cs|
    requires forall j :: 0 <= j < |cs| && cs[j].Some? ==> cs[j].value in g0 && cs[j].value in rank
  {
    c in g1 && g1[c].body.Symbol? && |g1[c].body.children| == i
    && forall j :: 0 <= j < i ==>
         ((cs[j].None? <==> g1[c].body.children[j].None?)
          && (cs[j].Some? ==> ClonedChild(g0, g1, rank, c, cs[j].value, g1[c].body.children[j].value, hi)))
  }

  /** One round of `clone`'s child loop keeps the frame: only fresh nodes are added or
    * updated, and the arena stays closed. */
  lemma CloneLoopFrame(g: Graph, objs0: Graph, objs1: Graph, objs2: Graph, ch0: map<nat, Chunk>, ch1: map<nat, Chunk>,
                       c: NodeId, childClone: Option<NodeId>, lo: nat, next0: nat, next1: nat)
    requires Grown(g, objs0, ch0, lo, next0) && c in objs0 && c !in g && objs0[c].body.Symbol?
    requires childClone.None? ==> objs1 == objs0 && ch1 == ch0 && next1 == next0
    requires childClone.Some? ==> Grown(objs0, objs1, ch1, next0, next1) && ChunksKept(ch0, ch1) && childClone.value in objs1
    requires childClone.Some? ==> childClone.value !in g && next0 <= next1
    requires Closed(objs1) && forall k :: k in objs1 ==> k in ch1
    requires objs2 == SetParentOpt(PushBackG(objs1, c, childClone), childClone, c)
    ensures Grown(g, objs2, ch1, lo, next1) && Closed(objs2) && forall k :: k in objs2 ==> k in ch1
  {
    PushBackSpec(objs1, c, childClone);
    assert objs2.Keys == objs1.Keys;
    CloneLoopGrown(g, objs0, objs1, objs2, ch0, ch1, c, childClone, lo, next0, next1);
    AppendClosed(objs1, c, childClone);
  }

  lemma CloneLoopGrown(g: Graph, objs0: Graph, objs1: Graph, objs2: Graph, ch0: map<nat, Chunk>, ch1: map<nat, Chunk>,
                       c: NodeId, childClone: Option<NodeId>, lo: nat, next0: nat, next1: nat)
    requires Grown(g, objs0, ch0, lo, next0) && c in objs0 && c !in g && objs0[c].body.Symbol?
    requires childClone.None? ==> objs1 == objs0 && ch1 == ch0 && next1 == next0
    requires childClone.Some? ==> Grown(objs0, objs1, ch1, next0, next1) && ChunksKept(ch0, ch1) && childClone.value in objs1
    requires childClone.Some? ==> childClone.value !in g && next0 <= next1
    requires objs2 == SetParentOpt(PushBackG(objs1, c, childClone), childClone, c)
    ensures Grown(g, objs2, ch1, lo, next1)
  {
    PushBackSpec(objs1, c, childClone);
    forall k | k in g ensures k in objs2 && objs2[k] == g[k] {
      assert k != c && k in objs0 && k in objs1;
    }
    forall k | k in objs2 && k !in g ensures lo <= k < next1 && k in ch1 && NodeChunk(objs2[k], ch1[k]) {
      assert KindOf(objs2[k]) == KindOf(objs1[k]);
      if k in objs0 {
        assert objs1[k] == objs0[k];
      }
    }
  }

  /** Appending a node of the arena to a symbol and parenting it keeps the arena closed. */
  lemma AppendClosed(g: Graph, p: NodeId, x: Option<NodeId>)
    requires Closed(g) && IsSymbolIn(g, p) && (x.Some? ==> x.value in g)
    ensures Closed(PushBackG(g, p, x)) && Closed(SetParentOpt(PushBackG(g, p, x), x, p))
  {
    var g1 := WithChildren(g, p, ChildrenOf(g, p) + [x]);
    assert PointsInto(g[p], g);
    ClosedPut(g, p, g1[p]);
    if x.Some? {
      assert PointsInto(g1[x.value], g1);
      ClosedPut(g1, x.value, g1[x.value].(parent := Some(p)));
    }
  }

  /** One round of `clone`'s child loop keeps the clone trees of the earlier children and adds
    * the new one. */
  lemma CloneLoopStep(g0: Graph, objs0: Graph, objs1: Graph, objs2: Graph, rank: map<NodeId, nat>,
                      c: NodeId, cs: seq<Option<NodeId>>, i: nat, next0: nat, next1: nat, childClone: Option<NodeId>)
    requires Ranked(g0, rank) && i < |cs| && next0 <= next1 && c < next0
    requires forall j :: 0 <= j < |cs| && cs[j].Some? ==> cs[j].value in g0 && cs[j].value in rank
    requires ClonedPrefix(g0, objs0, rank, c, cs, i, next0)
    requires Within(objs0, objs1)
    requires forall k :: k in objs1 && k !in objs0 ==> next0 <= k < next1
    requires childClone.None? <==> cs[i].None?
    requires childClone.Some? ==> (next0 <= childClone.value
             && CloneTree(g0, objs1, rank, childClone.value, cs[i].value, next1))
    requires objs2 == SetParentOpt(PushBackG(objs1, c, childClone), childClone, c)
    ensures ClonedPrefix(g0, objs2, rank, c, cs, i + 1, next1)
    ensures objs2[c].(body := objs0[c].body) == objs0[c]
  {
    PushBackSpec(objs1, c, childClone);
    assert objs2[c].body.children == objs0[c].body.children + [childClone];
    forall j | 0 <= j < i + 1 && cs[j].Some?
      ensures ClonedChild(g0, objs2, rank, c, cs[j].value, objs2[c].body.children[j].value, next1)
    {
      var cc := objs2[c].body.children[j].value;
      if j < i {
        assert cc == objs0[c].body.children[j].value;
        assert ClonedChild(g0, objs0, rank, c, cs[j].value, cc, next0);
        assert CloneTree(g0, objs0, rank, cc, cs[j].value, next0);
        forall k | cc < k < next0 && k in objs0 ensures k in objs2 && objs2[k] == objs0[k] {
          assert k != c;
          if childClone.Some? { assert k != childClone.value; }
        }
        assert cc != c;
        if childClone.Some? { assert cc != childClone.value; }
        CloneTreeFrame(g0, objs0, objs2, rank, cc, cs[j].value, next0, next1);
      } else {
        assert cc == childClone.value;
        forall k | cc < k < next1 && k in objs1 ensures k in objs2 && objs2[k] == objs1[k] {
          assert k != c;
        }
        CloneTreeFrame(g0, objs1, objs2, rank, cc, cs[j].value, next1, next1);
      }
    }
  }
}
