/** The traversal machinery of `XLangVisitor.h` / `XLangVisitor.cpp` and the visitors built on
  * it in `XLangPrinter.cpp`.
  *
  * `VisitorDFS` keeps a stack of `(symbol, cursor)` frames. Its concrete subclasses (the tree
  * annotator and the Lisp, XML and DOT printers) override the `visit` overloads; they form a
  * closed set, so the class here carries the subclass as a `Role` and each overridden `visit`
  * selects its body by role. What a traversal does is given by the trace functions `Run`,
  * `RunSymbol` and `RunBody`, which follow the recursion of the C++ code; the methods walk the
  * frame stack and are proved to produce those traces. */
module XLangVisitor {
  import opened Wrappers
  import opened XLangNodeIFace
  import opened XLangString
  import opened XLangNode
  import opened XLangPrinter

  /** A DFS frame: the symbol being visited and the index of the next child. */
  datatype Frame = Frame(sym: NodeId, cursor: int)

  /** The concrete subclass of `VisitorDFS`: `TreeAnnotator`, or one of the printers
    * `LispPrinter`, `XMLPrinter` and `DotPrinter(horizontal, print_digraph_block)`, given by
    * what it writes at each visit (`LispForm`, `XmlForm`, `DotForm`). */
  datatype Role = Annotator | Printer(form: Form)

  /** `filter_cb_t`: a predicate on (possibly null) node pointers. */
  type Filter = Option<NodeId> -> bool

  /** What a DFS traversal changes: the output, `m_depth`, and the height and depth
    * annotations of the nodes. */
  datatype Trace = Trace(out: string, depth: nat, heights: map<NodeId, int>, depths: map<NodeId, int>)

  /** What a traversal depends on and does not change. */
  datatype Setup = Setup(g: Graph, rank: map<NodeId, nat>, role: Role, sh: Show, filter: Option<Filter>, allowNull: bool)

  // ---------------------------------------------------------------------
  // The frame stack
  // ---------------------------------------------------------------------

  /** Every frame names a symbol of `g` and a cursor within its children. */
  predicate FramesIn(g: Graph, st: seq<Frame>)
  {
    forall i :: 0 <= i < |st| ==> IsSymbolIn(g, st[i].sym) && 0 <= st[i].cursor <= |ChildrenOf(g, st[i].sym)|
  }

  /** `end_of_visitation`: the stack is empty or the top cursor is past the last child. */
  predicate AtEnd(g: Graph, st: seq<Frame>)
    requires FramesIn(g, st)
  {
    |st| == 0 || st[|st| - 1].cursor == |ChildrenOf(g, st[|st| - 1].sym)|
  }

  /** The child under the top cursor. */
  function Current(g: Graph, st: seq<Frame>): Option<NodeId>
    requires FramesIn(g, st) && !AtEnd(g, st)
  {
    ChildrenOf(g, st[|st| - 1].sym)[st[|st| - 1].cursor]
  }

  /** `m_visit_state_stack.top().second++` */
  function Advance(st: seq<Frame>): (r: seq<Frame>)
    requires st != []
    ensures |r| == |st| && r[..|st| - 1] == st[..|st| - 1]
    ensures r[|st| - 1] == st[|st| - 1].(cursor := st[|st| - 1].cursor + 1)
  {
    st[..|st| - 1] + [st[|st| - 1].(cursor := st[|st| - 1].cursor + 1)]
  }

  /** `pop_state`: removes the top frame, if any. */
  function Pop(st: seq<Frame>): (r: seq<Frame>)
    ensures st != [] ==> r == st[..|st| - 1]
    ensures st == [] ==> r == []
  {
    if st == [] then [] else st[..|st| - 1]
  }

  /** The stack after `next_child(node)` has pushed `node`'s frame, if `node` is given. */
  function Entered(st: seq<Frame>, node: Option<NodeId>): seq<Frame>
  {
    if node.Some? then st + [Frame(node.value, 0)] else st
  }

  /** Popping a frame, or moving a cursor that is not past the end, keeps the frames valid. */
  lemma StepFrames(g: Graph, st: seq<Frame>)
    requires FramesIn(g, st)
    ensures FramesIn(g, Pop(st))
    ensures !AtEnd(g, st) ==> FramesIn(g, Advance(st))
  {
    if !AtEnd(g, st) {
      var r := Advance(st);
      forall i | 0 <= i < |r| ensures IsSymbolIn(g, r[i].sym) && 0 <= r[i].cursor <= |ChildrenOf(g, r[i].sym)| {
        if i < |st| - 1 {
          assert r[i] == r[..|st| - 1][i] == st[..|st| - 1][i] == st[i];
        }
      }
    }
  }

  /** `next_child(node, &child)` as a function of the stack: whether a child was produced, the
    * value left in `child` (`prev` when none), and the new stack. */
  function NextChildF(g: Graph, st: seq<Frame>, node: Option<NodeId>, prev: Option<NodeId>): (bool, Option<NodeId>, seq<Frame>)
    requires FramesIn(g, Entered(st, node))
  {
    var st1 := Entered(st, node);
    if AtEnd(g, st1) then (false, prev, Pop(st1)) else (true, Current(g, st1), Advance(st1))
  }

  /** Sweeping a symbol: `next_child(n)` and then `next_child()` over and over yields the
    * children in index order, each exactly once, and then fails once, leaving the stack as it
    * was before the sweep. */
  lemma NextChildSweep(g: Graph, st: seq<Frame>, n: NodeId, k: nat, prev: Option<NodeId>)
    requires FramesIn(g, st) && IsSymbolIn(g, n) && k <= |ChildrenOf(g, n)|
    ensures FramesIn(g, st + [Frame(n, k)])
    ensures NextChildF(g, st, Some(n), prev) == NextChildF(g, st + [Frame(n, 0)], None, prev)
    ensures k < |ChildrenOf(g, n)| ==>
      NextChildF(g, st + [Frame(n, k)], None, prev) == (true, ChildrenOf(g, n)[k], st + [Frame(n, k + 1)])
    ensures k == |ChildrenOf(g, n)| ==> NextChildF(g, st + [Frame(n, k)], None, prev) == (false, prev, st)
  {
    var st1 := st + [Frame(n, k)];
    assert forall i :: 0 <= i < |st| ==> st1[i] == st[i];
    assert st1[..|st1| - 1] == st;
    if k < |ChildrenOf(g, n)| {
      assert Advance(st1) == st + [Frame(n, k + 1)];
    }
  }

  /** The stack `before` a call `next_child(node)` during the sweep of symbol `n` over the
    * stack `base`, with `k` children done: `node` is `n` and nothing is pushed yet, or `node`
    * is null and `n`'s frame is on top with cursor `k`. */
  ghost predicate AtFrame(g: Graph, before: seq<Frame>, node: Option<NodeId>, n: NodeId, base: seq<Frame>, k: nat)
  {
    FramesIn(g, base) && IsSymbolIn(g, n) && k <= |ChildrenOf(g, n)|
    && ((node == Some(n) && before == base && k == 0) || (node.None? && before == base + [Frame(n, k)]))
  }

  /** What `next_child` does at such a point: child `k` and the cursor moved on, or, past the
    * last child, failure with `n`'s frame popped. */
  ghost function SweepResult(g: Graph, n: NodeId, base: seq<Frame>, k: nat, prev: Option<NodeId>): (bool, Option<NodeId>, seq<Frame>)
    requires IsSymbolIn(g, n) && k <= |ChildrenOf(g, n)|
  {
    if k < |ChildrenOf(g, n)| then (true, ChildrenOf(g, n)[k], base + [Frame(n, k + 1)]) else (false, prev, base)
  }

  lemma NextChildAt(g: Graph, before: seq<Frame>, node: Option<NodeId>, n: NodeId, base: seq<Frame>, k: nat, prev: Option<NodeId>)
    requires AtFrame(g, before, node, n, base, k)
    ensures FramesIn(g, Entered(before, node))
    ensures NextChildF(g, before, node, prev) == SweepResult(g, n, base, k, prev)
  {
    NextChildSweep(g, base, n, k, prev);
  }

  // ---------------------------------------------------------------------
  // What a traversal does
  // ---------------------------------------------------------------------

  /** A stored height as `height()` reads it; a node whose height was never set reads as 0. */
  function HeightOf(hm: map<NodeId, int>, x: Option<NodeId>): int
  {
    if x.Some? && x.value in hm then hm[x.value] else 0
  }

  /** The `max_height` loop of `TreeAnnotator::visit` over the first `i` children. */
  function MaxHeight(hm: map<NodeId, int>, cs: seq<Option<NodeId>>, i: nat): (r: int)
    requires i <= |cs|
    ensures r >= 0
    ensures forall j :: 0 <= j < i ==> HeightOf(hm, cs[j]) <= r
    ensures r == 0 || exists j :: 0 <= j < i && r == HeightOf(hm, cs[j])
  {
    if i == 0 then 0
    else
      var m := MaxHeight(hm, cs, i - 1);
      var h := HeightOf(hm, cs[i - 1]);
      if h > m then h else m
  }

  /** The overridden `visit` of a terminal. */
  ghost function TermStep(s: Setup, n: NodeId, v: Value, t: Trace): Trace
    requires n in s.g
  {
    match s.role
    case Annotator => t.(heights := t.heights[n := 0], depths := t.depths[n := t.depth])
    case Printer(fm) => t.(out := t.out + fm.terminal(n, s.g[n], v, t.depth))
  }

  /** The overridden `visit_null`. */
  ghost function NullStep(s: Setup, t: Trace): Trace
  {
    match s.role
    case Annotator => t
    case Printer(fm) => t.(out := t.out + fm.nullSlot(t.depth))
  }

  /** `dispatch_visit(x)`: nothing for a null pointer unless null visits are allowed, else the
    * one `visit` overload selected by the node's kind. */
  ghost function Run(s: Setup, x: Option<NodeId>, t: Trace): (r: Trace)
    requires Ranked(s.g, s.rank) && SlotIn(s.g, s.rank, x)
    ensures r.depth == t.depth
    decreases Rk(s.rank, x), 3, 0
  {
    if x.None? then (if s.allowNull then NullStep(s, t) else t)
    else match s.g[x.value].body
      case Term(v) => TermStep(s, x.value, v, t)
      case Symbol(_) => RunSymbol(s, x.value, t)
  }

  /** The overridden `visit` of a symbol. */
  ghost function RunSymbol(s: Setup, n: NodeId, t: Trace): (r: Trace)
    requires Ranked(s.g, s.rank) && IsSymbolIn(s.g, n) && n in s.rank
    ensures r.depth == t.depth
    decreases s.rank[n] + 1, 2, 1
  {
    match s.role
    case Annotator => AnnotateRun(s, n, t)
    case Printer(_) => PrintRun(s, n, t)
  }

  /** `TreeAnnotator::visit(symbol)`: the children one level deeper, then the symbol's height
    * is one more than the largest height among its children and its depth the current one. */
  ghost function AnnotateRun(s: Setup, n: NodeId, t: Trace): (r: Trace)
    requires Ranked(s.g, s.rank) && IsSymbolIn(s.g, n) && n in s.rank
    ensures r.depth == t.depth
    decreases s.rank[n] + 1, 2, 0
  {
    var t1 := RunBody(s, n, t.(depth := t.depth + 1));
    var cs := ChildrenOf(s.g, n);
    t1.(depth := t.depth, heights := t1.heights[n := MaxHeight(t1.heights, cs, |cs|) + 1],
        depths := t1.depths[n := t.depth])
  }

  lemma AnnotateRunIs(s: Setup, n: NodeId, t: Trace, t1: Trace, h: int)
    requires Ranked(s.g, s.rank) && IsSymbolIn(s.g, n) && n in s.rank
    requires t1 == RunBody(s, n, t.(depth := t.depth + 1))
    requires h == MaxHeight(t1.heights, ChildrenOf(s.g, n), |ChildrenOf(s.g, n)|)
    ensures AnnotateRun(s, n, t) == t1.(depth := t.depth, heights := t1.heights[n := h + 1], depths := t1.depths[n := t.depth])
  {
  }

  /** The printers' `visit(symbol)`: the opening text, the children (one level deeper for the
    * Lisp and XML printers), the closing text at the symbol's own depth. */
  ghost function PrintRun(s: Setup, n: NodeId, t: Trace): (r: Trace)
    requires Ranked(s.g, s.rank) && IsSymbolIn(s.g, n) && n in s.rank && s.role.Printer?
    ensures r.depth == t.depth
    decreases s.rank[n] + 1, 2, 0
  {
    var fm := s.role.form;
    var t1 := RunBody(s, n, t.(out := t.out + fm.opening(n, s.g[n], t.depth), depth := if fm.nested then t.depth + 1 else t.depth));
    t1.(out := t1.out + fm.closing(n, s.g[n], t.depth), depth := t.depth)
  }

  /** `VisitorDFS::visit(symbol)`: every child in index order; with a filter, a child symbol
    * the filter accepts is walked by `VisitorDFS::visit` itself instead of being dispatched. */
  ghost function RunBody(s: Setup, n: NodeId, t: Trace): (r: Trace)
    requires Ranked(s.g, s.rank) && IsSymbolIn(s.g, n) && n in s.rank
    ensures r.depth == t.depth
    decreases s.rank[n] + 1, 1, 0
  {
    if s.filter.Some? then RunFiltered(s, n, 0, t) else RunKids(s, n, 0, t)
  }

  /** The unfiltered loop from child `i` on. */
  ghost function RunKids(s: Setup, n: NodeId, i: nat, t: Trace): (r: Trace)
    requires Ranked(s.g, s.rank) && IsSymbolIn(s.g, n) && n in s.rank && i <= |ChildrenOf(s.g, n)|
    ensures r.depth == t.depth
    decreases s.rank[n] + 1, 0, |ChildrenOf(s.g, n)| - i
  {
    if i == |ChildrenOf(s.g, n)| then t
    else RunKids(s, n, i + 1, Run(s, ChildrenOf(s.g, n)[i], t))
  }

  /** Whether the filtered loop walks child `c` directly. */
  predicate Bypassed(g: Graph, f: Filter, c: Option<NodeId>)
  {
    f(c) && c.Some? && c.value in g && g[c.value].body.Symbol?
  }

  /** The filtered loop from child `i` on. */
  ghost function RunFiltered(s: Setup, n: NodeId, i: nat, t: Trace): (r: Trace)
    requires Ranked(s.g, s.rank) && IsSymbolIn(s.g, n) && n in s.rank && i <= |ChildrenOf(s.g, n)|
    requires s.filter.Some?
    ensures r.depth == t.depth
    decreases s.rank[n] + 1, 0, |ChildrenOf(s.g, n)| - i
  {
    if i == |ChildrenOf(s.g, n)| then t
    else RunFiltered(s, n, i + 1, FilteredTurn(s, n, i, t))
  }

  /** One turn of the filtered loop: child `i` is walked directly when the filter bypasses
    * it, and dispatched otherwise. */
  ghost function FilteredTurn(s: Setup, n: NodeId, i: nat, t: Trace): (r: Trace)
    requires Ranked(s.g, s.rank) && IsSymbolIn(s.g, n) && n in s.rank && i < |ChildrenOf(s.g, n)|
    requires s.filter.Some?
    ensures r.depth == t.depth
    decreases s.rank[n] + 1, 0, 0
  {
    var c := ChildrenOf(s.g, n)[i];
    assert c in ChildrenOf(s.g, n);
    if Bypassed(s.g, s.filter.value, c) then RunBody(s, c.value, t) else Run(s, c, t)
  }

  /** What the C++ code needs to stay defined during a traversal of `x`: a filter never accepts
    * null (the filtered loop would dereference it), and the annotator meets no null child (its
    * height loop dereferences every child). */
  ghost predicate Safe(s: Setup, x: Option<NodeId>)
    requires Ranked(s.g, s.rank) && SlotIn(s.g, s.rank, x)
  {
    (s.filter.Some? ==> !s.filter.value(None))
    && (s.role.Annotator? && x.Some? ==> NullFree(s.g, s.rank, x.value))
  }

  /** Safety passes from a symbol to each of its slots. */
  lemma SafeKid(s: Setup, n: NodeId, i: nat)
    requires Ranked(s.g, s.rank) && IsSymbolIn(s.g, n) && n in s.rank && Safe(s, Some(n))
    requires i < |ChildrenOf(s.g, n)|
    ensures SlotIn(s.g, s.rank, ChildrenOf(s.g, n)[i]) && Safe(s, ChildrenOf(s.g, n)[i])
  {
    var c := ChildrenOf(s.g, n)[i];
    assert c in ChildrenOf(s.g, n);
    if c.Some? {
      assert Some(c.value) in s.g[n].body.children;
    }
  }

  // ---------------------------------------------------------------------
  // VisitorDFS
  // ---------------------------------------------------------------------

  class VisitorDFS {
    /** The arena the visited nodes live in; visits write only its annotations. */
    const store: NodeStore
    const role: Role
    const sh: Show
    /** `m_filter_cb` (`Filterable`) */
    var filter: Option<Filter>
    /** `m_allow_visit_null` */
    var allowNull: bool
    /** `m_visit_state_stack`, top last. */
    var stack: seq<Frame>
    /** `m_depth` of the annotator and of the Lisp and XML printers. */
    var depth: nat
    /** What the printer has written to `std::cout`. */
    var out: string

    /** A new visitor: null visits allowed, no filter, an empty stack, depth 0. */
    constructor(store: NodeStore, role: Role, sh: Show)
      ensures this.store == store && this.role == role && this.sh == sh
      ensures filter == None && allowNull && stack == [] && depth == 0 && out == ""
    {
      this.store := store;
      this.role := role;
      this.sh := sh;
      filter := None;
      allowNull := true;
      stack := [];
      depth := 0;
      out := "";
    }

    /** `set_allow_visit_null` */
    method SetAllowVisitNull(b: bool)
      modifies this`allowNull
      ensures allowNull == b
    {
      allowNull := b;
    }

    /** `set_filter_cb` */
    method SetFilterCb(f: Filter)
      modifies this`filter
      ensures filter == Some(f)
    {
      filter := Some(f);
    }

    ghost function Snap(): Trace
      reads this`out, this`depth, store`height, store`depth
    {
      Trace(out, depth, store.height, store.depth)
    }

    /** `s` is the setup of this visitor over the current arena. */
    ghost predicate Describes(s: Setup)
      reads this`filter, this`allowNull, store`objs
    {
      s.g == store.objs && s.role == role && s.sh == sh && s.filter == filter && s.allowNull == allowNull
    }

    ghost predicate Frames()
      reads this`stack, store`objs
    {
      FramesIn(store.objs, stack)
    }

    /** What every traversal method needs to visit the slot `x` under the setup `s`. */
    ghost predicate ReadyAt(s: Setup, x: Option<NodeId>)
      reads this`stack, this`filter, this`allowNull, store`objs
    {
      Frames() && Describes(s) && Ranked(s.g, s.rank) && SlotIn(s.g, s.rank, x) && Safe(s, x)
    }

    /** `end_of_visitation` */
    predicate EndOfVisitation()
      reads this`stack, store`objs
      requires Frames()
    {
      AtEnd(store.objs, stack)
    }

    /** `push_state`: a frame for `n` with the cursor on its first child. */
    method PushState(n: NodeId)
      modifies this`stack
      ensures stack == old(stack) + [Frame(n, 0)]
    {
      stack := stack + [Frame(n, 0)];
    }

    /** `pop_state`: false on an empty stack, else the top frame is removed. */
    method PopState() returns (ok: bool)
      modifies this`stack
      ensures ok == (old(stack) != [])
      ensures stack == Pop(old(stack))
    {
      if stack == [] {
        return false;
      }
      stack := stack[..|stack| - 1];
      return true;
    }

    /** `next_state`: at the end the top frame is popped and the result is false, otherwise
      * the top cursor moves on. */
    method NextState() returns (ok: bool)
      requires Frames()
      modifies this`stack
      ensures ok == !old(EndOfVisitation())
      ensures stack == if ok then Advance(old(stack)) else Pop(old(stack))
    {
      if EndOfVisitation() {
        var _ := PopState();
        return false;
      }
      var top := stack[|stack| - 1];
      stack := stack[..|stack| - 1] + [top.(cursor := top.cursor + 1)];
      return true;
    }

    /** `get_current_node(&child)`: fails at the end, leaving `child` as it was; otherwise
      * yields the child under the top cursor. */
    method GetCurrentNode(prev: Option<NodeId>) returns (ok: bool, child: Option<NodeId>)
      requires Frames()
      ensures ok == !EndOfVisitation()
      ensures child == if ok then Current(store.objs, stack) else prev
    {
      if EndOfVisitation() {
        return false, prev;
      }
      var top := stack[|stack| - 1];
      return true, ChildrenOf(store.objs, top.sym)[top.cursor];
    }

    /** `next_child(node, &child)`: push a frame for `node` when given, read the current child,
      * then step the state. */
    method NextChild(node: Option<NodeId>, prev: Option<NodeId>, ghost n: NodeId, ghost base: seq<Frame>, ghost k: nat)
        returns (ok: bool, child: Option<NodeId>)
      requires Frames() && (node.Some? ==> IsSymbolIn(store.objs, node.value))
      modifies this`stack
      ensures (ok, child, stack) == NextChildF(store.objs, old(stack), node, prev)
      ensures AtFrame(store.objs, old(stack), node, n, base, k) ==> (ok, child, stack) == SweepResult(store.objs, n, base, k, prev)
      ensures Frames()
    {
      if AtFrame(store.objs, stack, node, n, base, k) {
        NextChildAt(store.objs, stack, node, n, base, k, prev);
      }
      if node.Some? {
        PushState(node.value);
      }
      assert stack == Entered(old(stack), node);
      StepFrames(store.objs, stack);
      var _, c := GetCurrentNode(prev);
      child := c;
      ok := NextState();
    }

    /** `abort_visitation`: pops at most one frame. */
    method AbortVisitation()
      modifies this`stack
      ensures stack == Pop(old(stack))
    {
      var _ := PopState();
    }

    /** `visit_next_child(node, &child)`: fails without dispatching when `next_child` fails;
      * otherwise dispatches exactly the child it produced and returns it. */
    method VisitNextChild(node: Option<NodeId>, ghost s: Setup, ghost n: NodeId, ghost base: seq<Frame>, ghost k: nat)
        returns (ok: bool, child: Option<NodeId>)
      requires FramesIn(store.objs, base) && Describes(s) && Ranked(s.g, s.rank) && IsSymbolIn(s.g, n) && n in s.rank
      requires Safe(s, Some(n)) && k <= |ChildrenOf(s.g, n)|
      requires node.Some? ==> node.value == n && stack == base && k == 0
      requires node.None? ==> stack == base + [Frame(n, k)]
      modifies this`stack, this`depth, this`out, store`height, store`depth
      ensures k < |ChildrenOf(s.g, n)| ==>
        ok && child == ChildrenOf(s.g, n)[k] && stack == base + [Frame(n, k + 1)] && Snap() == Run(s, child, old(Snap()))
      ensures k == |ChildrenOf(s.g, n)| ==> !ok && stack == base && Snap() == old(Snap())
      decreases s.rank[n] + 1, 0, 0
    {
      var c;
      ghost var swept := SweepResult(store.objs, n, base, k, None);
      assert AtFrame(store.objs, stack, node, n, base, k);
      ok, c := NextChild(node, None, n, base, k);
      assert (ok, c, stack) == swept;
      child := None;
      if !ok {
        return;
      }
      assert c == ChildrenOf(s.g, n)[k] && stack == base + [Frame(n, k + 1)];
      SafeKid(s, n, k);
      Dispatch(c, s);
      child := c;
    }

    /** `dispatch_visit(x)` */
    method Dispatch(x: Option<NodeId>, ghost s: Setup)
      requires ReadyAt(s, x)
      modifies this`stack, this`depth, this`out, store`height, store`depth
      ensures stack == old(stack)
      ensures Snap() == Run(s, x, old(Snap()))
      decreases Rk(s.rank, x), 3, 0
    {
      if x.None? {
        if allowNull {
          VisitNull(s);
        }
        return;
      }
      match store.objs[x.value].body {
        case Term(v) => VisitTerm(x.value, v, s);
        case Symbol(_) => VisitSymbol(x.value, s);
      }
    }

    /** The overridden `visit_null`: nothing for the annotator, `(NULL)` and `<NULL/>` lines for
      * the Lisp and XML printers, a `/* NULL */` comment for the DOT printer. */
    method VisitNull(ghost s: Setup)
      requires Describes(s)
      modifies this`out
      ensures Snap() == NullStep(s, old(Snap()))
    {
      match role {
        case Annotator =>
        case Printer(fm) => out := out + fm.nullSlot(depth);
      }
    }

    /** The overridden `visit` of a terminal: the annotator gives it height 0 and the current
      * depth; the printers write one line (the DOT printer a box and the edge from its parent). */
    method VisitTerm(n: NodeId, v: Value, ghost s: Setup)
      requires Describes(s) && n in store.objs
      modifies this`out, store`height, store`depth
      ensures Snap() == TermStep(s, n, v, old(Snap()))
    {
      match role {
        case Annotator =>
          store.height := store.height[n := 0];
          store.depth := store.depth[n := depth];
        case Printer(fm) =>
          out := out + fm.terminal(n, store.objs[n], v, depth);
      }
    }

    /** The overridden `visit` of a symbol, by role. */
    method VisitSymbol(n: NodeId, ghost s: Setup)
      requires ReadyAt(s, Some(n)) && IsSymbolIn(s.g, n)
      modifies this`stack, this`depth, this`out, store`height, store`depth
      ensures stack == old(stack)
      ensures Snap() == RunSymbol(s, n, old(Snap()))
      decreases s.rank[n] + 1, 2, 1
    {
      match role {
        case Annotator => AnnotateSymbol(n, s);
        case Printer(_) => PrintSymbol(n, s);
      }
    }

    /** `TreeAnnotator::visit(symbol)`: walks the children one level deeper, then sets the
      * height to one more than the largest child height and the depth to the current depth. */
    method AnnotateSymbol(n: NodeId, ghost s: Setup)
      requires ReadyAt(s, Some(n)) && IsSymbolIn(s.g, n) && role.Annotator?
      modifies this`stack, this`depth, this`out, store`height, store`depth
      ensures stack == old(stack)
      ensures Snap() == AnnotateRun(s, n, old(Snap()))
      decreases s.rank[n] + 1, 2, 0
    {
      ghost var t := Snap();
      depth := depth + 1;
      DfsVisit(n, s);
      ghost var t1 := Snap();
      depth := depth - 1;
      var h := MaxChildHeight(n);
      AnnotateRunIs(s, n, t, t1, h);
      store.height := store.height[n := h + 1];
      store.depth := store.depth[n := depth];
    }

    /** The printers' `visit(symbol)`: the opening text, the children (one level deeper for
      * the Lisp and XML printers), the closing text. */
    method PrintSymbol(n: NodeId, ghost s: Setup)
      requires ReadyAt(s, Some(n)) && IsSymbolIn(s.g, n) && role.Printer?
      modifies this`stack, this`depth, this`out, store`height, store`depth
      ensures stack == old(stack)
      ensures Snap() == PrintRun(s, n, old(Snap()))
      decreases s.rank[n] + 1, 2, 0
    {
      var fm := role.form;
      out := out + fm.opening(n, store.objs[n], depth);
      if fm.nested {
        depth := depth + 1;
      }
      DfsVisit(n, s);
      if fm.nested {
        depth := depth - 1;
      }
      out := out + fm.closing(n, store.objs[n], depth);
    }

    /** The `max_height` loop over the children after they were visited. (The annotator meets
      * no null child; a null slot would read as height 0 here.) */
    method MaxChildHeight(n: NodeId) returns (m: int)
      requires IsSymbolIn(store.objs, n)
      ensures m == MaxHeight(store.height, ChildrenOf(store.objs, n), |ChildrenOf(store.objs, n)|)
    {
      var cs := ChildrenOf(store.objs, n);
      m := 0;
      var i := 0;
      while i < |cs|
        invariant 0 <= i <= |cs|
        invariant m == MaxHeight(store.height, cs, i)
      {
        var h := HeightOf(store.height, cs[i]);
        if h > m {
          m := h;
        }
        i := i + 1;
      }
    }

    /** `VisitorDFS::visit(symbol)` */
    method DfsVisit(n: NodeId, ghost s: Setup)
      requires ReadyAt(s, Some(n)) && IsSymbolIn(s.g, n)
      modifies this`stack, this`depth, this`out, store`height, store`depth
      ensures stack == old(stack)
      ensures Snap() == RunBody(s, n, old(Snap()))
      decreases s.rank[n] + 1, 1, 0
    {
      if filter.Some? {
        FilteredVisit(n, s);
      } else {
        PlainVisit(n, s);
      }
    }

    /** The unfiltered branch of `VisitorDFS::visit(symbol)`: `while(visit_next_child(...))`. */
    method PlainVisit(n: NodeId, ghost s: Setup)
      requires ReadyAt(s, Some(n)) && IsSymbolIn(s.g, n)
      modifies this`stack, this`depth, this`out, store`height, store`depth
      ensures stack == old(stack)
      ensures Snap() == RunKids(s, n, 0, old(Snap()))
      decreases s.rank[n] + 1, 0, 1
    {
      ghost var cs := ChildrenOf(store.objs, n);
      var ok, last := VisitNextChild(Some(n), s, n, stack, 0);
      ghost var i := if ok then 1 else 0;
      while ok
        invariant 0 <= i <= |cs|
        invariant ok ==> 1 <= i && stack == old(stack) + [Frame(n, i)]
        invariant !ok ==> i == |cs| && stack == old(stack)
        invariant RunKids(s, n, i, Snap()) == RunKids(s, n, 0, old(Snap()))
        decreases |cs| - i + (if ok then 1 else 0)
      {
        ok, last := VisitNextChild(None, s, n, old(stack), i);
        if ok {
          i := i + 1;
        }
      }
    }

    /** The filtered branch of `VisitorDFS::visit(symbol)`. */
    method FilteredVisit(n: NodeId, ghost s: Setup)
      requires ReadyAt(s, Some(n)) && IsSymbolIn(s.g, n) && filter.Some?
      modifies this`stack, this`depth, this`out, store`height, store`depth
      ensures stack == old(stack)
      ensures Snap() == RunFiltered(s, n, 0, old(Snap()))
      decreases s.rank[n] + 1, 0, 2
    {
      ghost var cs := ChildrenOf(store.objs, n);
      var ok, child := NextChild(Some(n), None, n, stack, 0);
      ghost var i := 0;
      while ok
        invariant 0 <= i <= |cs|
        invariant ok ==> i < |cs| && child == cs[i] && stack == old(stack) + [Frame(n, i + 1)]
        invariant !ok ==> i == |cs| && stack == old(stack)
        invariant Frames()
        invariant RunFiltered(s, n, i, Snap()) == RunFiltered(s, n, 0, old(Snap()))
        decreases |cs| - i
      {
        ok, child := FilteredStep(child, n, i, s, old(stack));
        i := i + 1;
      }
    }

    /** One turn of the filtered loop followed by the `next_child()` of the loop test. */
    method FilteredStep(child: Option<NodeId>, ghost n: NodeId, ghost i: nat, ghost s: Setup, ghost base: seq<Frame>)
        returns (ok: bool, next: Option<NodeId>)
      requires ReadyAt(s, Some(n)) && IsSymbolIn(s.g, n) && filter.Some? && FramesIn(s.g, base)
      requires i < |ChildrenOf(s.g, n)| && child == ChildrenOf(s.g, n)[i] && stack == base + [Frame(n, i + 1)]
      modifies this`stack, this`depth, this`out, store`height, store`depth
      ensures ok ==> i + 1 < |ChildrenOf(s.g, n)| && next == ChildrenOf(s.g, n)[i + 1] && stack == base + [Frame(n, i + 2)]
      ensures !ok ==> i + 1 == |ChildrenOf(s.g, n)| && stack == base
      ensures Frames()
      ensures RunFiltered(s, n, i + 1, Snap()) == RunFiltered(s, n, i, old(Snap()))
      decreases s.rank[n] + 1, 0, 1
    {
      FilteredChild(child, n, i, s);
      ok, next := NextChild(None, child, n, base, i + 1);
    }

    /** One turn of the filtered loop: a child symbol the filter accepts is walked directly,
      * any other child is dispatched. */
    method FilteredChild(child: Option<NodeId>, ghost n: NodeId, ghost i: nat, ghost s: Setup)
      requires ReadyAt(s, Some(n)) && IsSymbolIn(s.g, n) && filter.Some? && i < |ChildrenOf(s.g, n)| && child == ChildrenOf(s.g, n)[i]
      modifies this`stack, this`depth, this`out, store`height, store`depth
      ensures stack == old(stack)
      ensures Snap() == FilteredTurn(s, n, i, old(Snap()))
      decreases s.rank[n] + 1, 0, 0
    {
      SafeKid(s, n, i);
      var f := filter.value;
      if f(child) && child.Some? && store.objs[child.value].body.Symbol? {
        DfsVisit(child.value, s);
      } else {
        Dispatch(child, s);
      }
    }
  }

  // ---------------------------------------------------------------------
  // What the printers and the annotator produce
  // ---------------------------------------------------------------------

  /** Without a filter and with null visits allowed, a printer appends exactly the reference
    * text of its form for the slot, at the current depth, and changes nothing else. */
  lemma {:induction false} FormOutput(s: Setup, x: Option<NodeId>, t: Trace)
    requires Ranked(s.g, s.rank) && SlotIn(s.g, s.rank, x)
    requires s.role.Printer? && s.filter == None && s.allowNull
    ensures Run(s, x, t) == t.(out := t.out + FormText(s.g, s.rank, s.role.form, x, t.depth))
    decreases Rk(s.rank, x), 1, 0
  {
    if x.Some? && s.g[x.value].body.Symbol? {
      FormSymbolOutput(s, x.value, t);
    }
  }

  /** The symbol case of `FormOutput`: the opening, the children's texts and the closing. */
  lemma {:induction false} FormSymbolOutput(s: Setup, n: NodeId, t: Trace)
    requires Ranked(s.g, s.rank) && IsSymbolIn(s.g, n) && n in s.rank
    requires s.role.Printer? && s.filter == None && s.allowNull
    ensures Run(s, Some(n), t) == t.(out := t.out + FormText(s.g, s.rank, s.role.form, Some(n), t.depth))
    decreases s.rank[n] + 1, 0, |ChildrenOf(s.g, n)| + 1
  {
    var fm := s.role.form;
    var d := t.depth;
    var d1 := if fm.nested then d + 1 else d;
    var o := fm.opening(n, s.g[n], d);
    var c := fm.closing(n, s.g[n], d);
    var t0 := t.(out := t.out + o, depth := d1);
    assert RunBody(s, n, t0) == RunKids(s, n, 0, t0);
    FormKidsOutput(s, n, 0, t0);
    var k := FormKids(s.g, s.rank, fm, n, 0, d1);
    var t1 := RunKids(s, n, 0, t0);
    assert t1.out == t.out + o + k;
    assert Run(s, Some(n), t) == PrintRun(s, n, t) == t1.(out := t1.out + c, depth := d);
    assert FormText(s.g, s.rank, fm, Some(n), d) == o + k + c;
    assert t.out + o + k + c == t.out + (o + k + c);
  }

  lemma {:induction false} FormKidsOutput(s: Setup, n: NodeId, i: nat, t: Trace)
    requires Ranked(s.g, s.rank) && IsSymbolIn(s.g, n) && n in s.rank && i <= |ChildrenOf(s.g, n)|
    requires s.role.Printer? && s.filter == None && s.allowNull
    ensures RunKids(s, n, i, t) == t.(out := t.out + FormKids(s.g, s.rank, s.role.form, n, i, t.depth))
    decreases s.rank[n] + 1, 0, |ChildrenOf(s.g, n)| - i
  {
    if i < |ChildrenOf(s.g, n)| {
      var c := ChildrenOf(s.g, n)[i];
      assert c in ChildrenOf(s.g, n);
      FormOutput(s, c, t);
      var t1 := Run(s, c, t);
      FormKidsOutput(s, n, i + 1, t1);
      var a := FormText(s.g, s.rank, s.role.form, c, t.depth);
      var b := FormKids(s.g, s.rank, s.role.form, n, i + 1, t.depth);
      assert t.out + a + b == t.out + (a + b);
    } else {
      assert t.out + "" == t.out;
    }
  }

  /** The Lisp printer writes the reference Lisp text. */
  lemma LispOutput(s: Setup, x: Option<NodeId>, t: Trace)
    requires Ranked(s.g, s.rank) && SlotIn(s.g, s.rank, x)
    requires s.role == Printer(LispForm(s.sh)) && s.filter == None && s.allowNull
    ensures Run(s, x, t) == t.(out := t.out + LispText(s.g, s.rank, s.sh, x, t.depth))
  {
    FormOutput(s, x, t);
  }

  /** The XML printer writes the reference XML text. */
  lemma XmlOutput(s: Setup, x: Option<NodeId>, t: Trace)
    requires Ranked(s.g, s.rank) && SlotIn(s.g, s.rank, x)
    requires s.role == Printer(XmlForm(s.sh)) && s.filter == None && s.allowNull
    ensures Run(s, x, t) == t.(out := t.out + XmlText(s.g, s.rank, s.sh, x, t.depth))
  {
    FormOutput(s, x, t);
  }

  /** The DOT printer writes the reference DOT text, whatever the depth counter holds. */
  lemma DotOutput(s: Setup, horizontal: bool, block: bool, x: Option<NodeId>, t: Trace)
    requires Ranked(s.g, s.rank) && SlotIn(s.g, s.rank, x)
    requires s.role == Printer(DotForm(s.sh, horizontal, block)) && s.filter == None && s.allowNull
    requires TermsParented(s.g, s.rank, x)
    ensures Run(s, x, t) == t.(out := t.out + DotText(s.g, s.rank, s.sh, horizontal, block, x))
  {
    FormOutput(s, x, t);
    DotDepthFree(s.g, s.rank, s.sh, horizontal, block, x, t.depth);
  }

  // ---------------------------------------------------------------------
  // What the annotator records
  // ---------------------------------------------------------------------

  /** The height of a subtree: 0 for a terminal (and for an empty slot), one more than the
    * largest child height for a symbol, so 1 for a symbol without symbol children. */
  ghost function Height(g: Graph, rank: map<NodeId, nat>, x: Option<NodeId>): (r: nat)
    requires Ranked(g, rank) && SlotIn(g, rank, x)
    ensures x.Some? && g[x.value].body.Symbol? ==> r >= 1
    decreases Rk(rank, x), 1, 0
  {
    if x.None? then 0
    else match g[x.value].body
      case Term(_) => 0
      case Symbol(cs) => 1 + KidsHeight(g, rank, x.value, |cs|)
  }

  /** The largest height among the first `i` children of `n`, or 0. */
  ghost function KidsHeight(g: Graph, rank: map<NodeId, nat>, n: NodeId, i: nat): (r: nat)
    requires Ranked(g, rank) && IsSymbolIn(g, n) && n in rank && i <= |ChildrenOf(g, n)|
    decreases rank[n] + 1, 0, i
  {
    if i == 0 then 0
    else
      var c := ChildrenOf(g, n)[i - 1];
      assert c in ChildrenOf(g, n);
      var m := KidsHeight(g, rank, n, i - 1);
      var h := Height(g, rank, c);
      if h > m then h else m
  }

  /** A symbol is higher than each of its children, and exactly one higher than the highest. */
  lemma {:induction false} KidsHeightIsMax(g: Graph, rank: map<NodeId, nat>, n: NodeId, i: nat)
    requires Ranked(g, rank) && IsSymbolIn(g, n) && n in rank && i <= |ChildrenOf(g, n)|
    ensures forall j :: 0 <= j < i ==> SlotIn(g, rank, ChildrenOf(g, n)[j]) && Height(g, rank, ChildrenOf(g, n)[j]) <= KidsHeight(g, rank, n, i)
    ensures KidsHeight(g, rank, n, i) == 0 || exists j :: 0 <= j < i && SlotIn(g, rank, ChildrenOf(g, n)[j]) && KidsHeight(g, rank, n, i) == Height(g, rank, ChildrenOf(g, n)[j])
  {
    if i > 0 {
      KidsHeightIsMax(g, rank, n, i - 1);
      assert ChildrenOf(g, n)[i - 1] in ChildrenOf(g, n);
    }
  }

  /** `k` carries its true height in the map `hm`. */
  ghost predicate HeightRight(g: Graph, rank: map<NodeId, nat>, hm: map<NodeId, int>, k: NodeId)
    requires Ranked(g, rank)
  {
    k in g && k in rank && k in hm && hm[k] == Height(g, rank, Some(k))
  }

  /** When the first `i` children carry their true heights, the `max_height` loop over them
    * computes their largest height. */
  lemma {:induction false} MaxHeightIsKidsHeight(g: Graph, rank: map<NodeId, nat>, hm: map<NodeId, int>, n: NodeId, i: nat)
    requires Ranked(g, rank) && IsSymbolIn(g, n) && n in rank && i <= |ChildrenOf(g, n)|
    requires forall j :: 0 <= j < i && ChildrenOf(g, n)[j].Some? ==> HeightRight(g, rank, hm, ChildrenOf(g, n)[j].value)
    ensures MaxHeight(hm, ChildrenOf(g, n), i) == KidsHeight(g, rank, n, i)
  {
    if i > 0 {
      MaxHeightIsKidsHeight(g, rank, hm, n, i - 1);
      assert ChildrenOf(g, n)[i - 1] in ChildrenOf(g, n);
    }
  }

  /** Without a filter, the annotator gives the visited node its true height and the depth it
    * was reached at, and keeps every true height it already recorded. */
  lemma {:induction false} AnnotatedHeights(s: Setup, x: Option<NodeId>, t: Trace)
    requires Ranked(s.g, s.rank) && SlotIn(s.g, s.rank, x)
    requires s.role == Annotator && s.filter == None
    ensures forall k :: HeightRight(s.g, s.rank, t.heights, k) ==> HeightRight(s.g, s.rank, Run(s, x, t).heights, k)
    ensures x.Some? ==> HeightRight(s.g, s.rank, Run(s, x, t).heights, x.value)
    ensures x.Some? ==> x.value in Run(s, x, t).depths && Run(s, x, t).depths[x.value] == t.depth
    ensures Run(s, x, t).out == t.out
    decreases Rk(s.rank, x), 1, 0
  {
    if x.Some? && s.g[x.value].body.Symbol? {
      var n := x.value;
      var cs := ChildrenOf(s.g, n);
      var t0 := t.(depth := t.depth + 1);
      assert RunBody(s, n, t0) == RunKids(s, n, 0, t0);
      AnnotatedKidsHeights(s, n, 0, t0);
      var t1 := RunKids(s, n, 0, t0);
      MaxHeightIsKidsHeight(s.g, s.rank, t1.heights, n, |cs|);
      var h := MaxHeight(t1.heights, cs, |cs|);
      AnnotateRunIs(s, n, t, t1, h);
    }
  }

  lemma {:induction false} AnnotatedKidsHeights(s: Setup, n: NodeId, i: nat, t: Trace)
    requires Ranked(s.g, s.rank) && IsSymbolIn(s.g, n) && n in s.rank && i <= |ChildrenOf(s.g, n)|
    requires s.role == Annotator && s.filter == None
    ensures forall k :: HeightRight(s.g, s.rank, t.heights, k) ==> HeightRight(s.g, s.rank, RunKids(s, n, i, t).heights, k)
    ensures forall j :: i <= j < |ChildrenOf(s.g, n)| && ChildrenOf(s.g, n)[j].Some? ==>
      HeightRight(s.g, s.rank, RunKids(s, n, i, t).heights, ChildrenOf(s.g, n)[j].value)
    ensures RunKids(s, n, i, t).out == t.out
    decreases s.rank[n] + 1, 0, |ChildrenOf(s.g, n)| - i
  {
    if i < |ChildrenOf(s.g, n)| {
      var c := ChildrenOf(s.g, n)[i];
      assert c in ChildrenOf(s.g, n);
      AnnotatedHeights(s, c, t);
      AnnotatedKidsHeights(s, n, i + 1, Run(s, c, t));
    }
  }

  // ---------------------------------------------------------------------
  // Filters
  // ---------------------------------------------------------------------

  /** A filter that accepts nothing changes nothing: the filtered walk dispatches every child,
    * as the unfiltered one does. */
  lemma {:induction false} RejectingFilterInert(s: Setup, x: Option<NodeId>, t: Trace)
    requires Ranked(s.g, s.rank) && SlotIn(s.g, s.rank, x)
    requires s.filter.Some? && forall c :: !s.filter.value(c)
    ensures Run(s, x, t) == Run(s.(filter := None), x, t)
    decreases Rk(s.rank, x), 1, 0
  {
    if x.Some? && s.g[x.value].body.Symbol? {
      var n := x.value;
      var u := s.(filter := None);
      if s.role.Annotator? {
        var t0 := t.(depth := t.depth + 1);
        RejectingFilterInertKids(s, n, 0, t0);
        assert RunBody(s, n, t0) == RunBody(u, n, t0);
        assert AnnotateRun(s, n, t) == AnnotateRun(u, n, t);
      } else {
        var fm := s.role.form;
        var t0 := t.(out := t.out + fm.opening(n, s.g[n], t.depth), depth := if fm.nested then t.depth + 1 else t.depth);
        RejectingFilterInertKids(s, n, 0, t0);
        assert RunBody(s, n, t0) == RunBody(u, n, t0);
        assert PrintRun(s, n, t) == PrintRun(u, n, t);
      }
    }
  }

  lemma {:induction false} RejectingFilterInertKids(s: Setup, n: NodeId, i: nat, t: Trace)
    requires Ranked(s.g, s.rank) && IsSymbolIn(s.g, n) && n in s.rank && i <= |ChildrenOf(s.g, n)|
    requires s.filter.Some? && forall c :: !s.filter.value(c)
    ensures RunFiltered(s, n, i, t) == RunKids(s.(filter := None), n, i, t)
    decreases s.rank[n] + 1, 0, |ChildrenOf(s.g, n)| - i
  {
    if i < |ChildrenOf(s.g, n)| {
      var c := ChildrenOf(s.g, n)[i];
      assert c in ChildrenOf(s.g, n);
      RejectingFilterInert(s, c, t);
      assert FilteredTurn(s, n, i, t) == Run(s.(filter := None), c, t);
      RejectingFilterInertKids(s, n, i + 1, FilteredTurn(s, n, i, t));
    }
  }
}
